/**
 SimPoint checkpoints (configs/common/Simulation.py, `parseSimpointAnalysisFile`,
 `takeSimpointCheckpoints` and the SimPoint branch of `findCptDir`): checkpoints are found
 again by sorting their directory names as strings.
 */
module Simpoint {
  import opened Results
  import opened Sorting
  import opened Text

  /** A simulation point: its interval, its weight as printed, where its checkpoint is taken, and its warmup. */
  datatype Point = Point(interval: nat, weight: string, start: nat, warmup: nat)

  function Start(p: Point): int {
    p.start
  }

  /** One line of the analysis files: as much of the warmup as there is room for in front of the interval. */
  function MakePoint(interval: nat, weight: string, length: nat, warmup: nat): Point {
    if interval * length - warmup > 0 then Point(interval, weight, interval * length - warmup, warmup)
    else Point(interval, weight, 0, interval * length)
  }

  /**
   A run restored at the start measures from its warmup to its warmup plus the length: that is
   exactly the chosen interval.
   */
  predicate MeasuresInterval(p: Point, length: nat) {
    && p.start + p.warmup == p.interval * length
    && p.start + (p.warmup + length) == (p.interval + 1) * length
  }

  /** The warmup is the one asked for, or everything in front of the interval if that is less. */
  predicate WarmsUp(p: Point, length: nat, warmup: nat) {
    p.warmup == if p.interval * length > warmup then warmup else p.interval * length
  }

  lemma {:induction false} MakePointMeasures(interval: nat, weight: string, length: nat, warmup: nat)
    ensures MeasuresInterval(MakePoint(interval, weight, length, warmup), length)
    ensures WarmsUp(MakePoint(interval, weight, length, warmup), length, warmup)
  {
  }

  /** No warmup up to the one asked for that starts at or after instruction 0 is longer. */
  lemma {:induction false} WarmupIsLongest(p: Point, length: nat, warmup: nat, w: nat)
    requires MeasuresInterval(p, length) && WarmsUp(p, length, warmup)
    ensures p.warmup <= warmup
    ensures w <= warmup && p.interval * length - w >= 0 ==> w <= p.warmup
  {
  }

  /** The parsed lines, sorted by starting instruction. */
  function Points(lines: seq<(nat, string)>, length: nat, warmup: nat): seq<Point> {
    Sort(MakePoints(lines, length, warmup), Start)
  }

  function MakePoints(lines: seq<(nat, string)>, length: nat, warmup: nat): (ps: seq<Point>)
    ensures |ps| == |lines|
    ensures forall i :: 0 <= i < |lines| ==> ps[i] == MakePoint(lines[i].0, lines[i].1, length, warmup)
  {
    seq(|lines|, i requires 0 <= i < |lines| => MakePoint(lines[i].0, lines[i].1, length, warmup))
  }

  lemma {:induction false} PointsMeasure(lines: seq<(nat, string)>, length: nat, warmup: nat, k: nat)
    requires k < |Points(lines, length, warmup)|
    ensures MeasuresInterval(Points(lines, length, warmup)[k], length)
    ensures WarmsUp(Points(lines, length, warmup)[k], length, warmup)
    ensures (Points(lines, length, warmup)[k].interval, Points(lines, length, warmup)[k].weight) in lines
  {
    var ps, made := Points(lines, length, warmup), MakePoints(lines, length, warmup);
    assert ps[k] in multiset(ps);
    assert ps[k] in made;
    var i :| 0 <= i < |lines| && ps[k] == MakePoint(lines[i].0, lines[i].1, length, warmup);
    MakePointMeasures(lines[i].0, lines[i].1, length, warmup);
    assert lines[i] == (ps[k].interval, ps[k].weight);
  }

  lemma {:induction false} PointsAre(lines: seq<(nat, string)>, length: nat, warmup: nat)
    ensures var ps := Points(lines, length, warmup);
            && |ps| == |lines|
            && forall k :: 0 <= k < |ps| ==>
                 && MeasuresInterval(ps[k], length) && WarmsUp(ps[k], length, warmup)
                 && (ps[k].interval, ps[k].weight) in lines
  {
    var ps := Points(lines, length, warmup);
    assert |multiset(ps)| == |multiset(MakePoints(lines, length, warmup))|;
    forall k | 0 <= k < |ps|
      ensures MeasuresInterval(ps[k], length) && WarmsUp(ps[k], length, warmup)
      ensures (ps[k].interval, ps[k].weight) in lines
    {
      PointsMeasure(lines, length, warmup, k);
    }
  }

  /** The loop over the lines. */
  method ReadPoints(lines: seq<(nat, string)>, length: nat, warmup: nat) returns (points: seq<Point>)
    ensures points == MakePoints(lines, length, warmup)
  {
    points := [];
    for i := 0 to |lines|
      invariant points == MakePoints(lines[..i], length, warmup)
    {
      var at := lines[i].0 * length;
      if at - warmup > 0 {
        points := points + [Point(lines[i].0, lines[i].1, at - warmup, warmup)];
      } else {
        points := points + [Point(lines[i].0, lines[i].1, 0, at)];
      }
    }
    assert lines[..|lines|] == lines;
  }

  /** `parseSimpointAnalysisFile` on the fields of its lines: the points, and where the CPU is to stop for them. */
  method ParseAnalysis(lines: seq<(nat, string)>, length: nat, warmup: nat)
    returns (points: seq<Point>, starts: seq<nat>)
    ensures multiset(points) == multiset(MakePoints(lines, length, warmup)) && SortedBy(points, Start)
    ensures points == Points(lines, length, warmup)
    ensures |starts| == |points| == |lines| && forall i :: 0 <= i < |points| ==> starts[i] == points[i].start
    ensures forall i, j :: 0 <= i < j < |starts| ==> starts[i] <= starts[j]
    ensures forall k :: 0 <= k < |points| ==>
              && MeasuresInterval(points[k], length) && WarmsUp(points[k], length, warmup)
              && (points[k].interval, points[k].weight) in lines
  {
    var read := ReadPoints(lines, length, warmup);
    SortSorted(read, Start);
    points := Sort(read, Start);
    PointsAre(lines, length, warmup);
    starts := [];
    for i := 0 to |points|
      invariant |starts| == i && forall j :: 0 <= j < i ==> starts[j] == points[j].start
    {
      starts := starts + [points[i].start];
    }
    forall i, j | 0 <= i < j < |starts| ensures starts[i] <= starts[j] {
      assert Start(points[i]) <= Start(points[j]);
    }
  }

  // ---------------------------------------------------------------- directory names

  /** A literal followed by a group: a number, or a weight as "%f" prints it. */
  datatype Piece = Piece(literal: string, number: bool)

  /** The directory name, as written and as matched. */
  const PATTERN: seq<Piece> := [
    Piece("cpt.simpoint_", true), Piece("_inst_", true), Piece("_weight_", false),
    Piece("_interval_", true), Piece("_warmup_", true)
  ]

  predicate InGroup(c: char, number: bool) {
    IsDigit(c) || (!number && (c == '.' || c == 'e' || c == '-'))
  }

  predicate AllIn(s: string, number: bool) {
    forall i :: 0 <= i < |s| ==> InGroup(s[i], number)
  }

  /** The text of a name with these groups. */
  function Render(pieces: seq<Piece>, groups: seq<string>): string
    requires |groups| == |pieces|
  {
    if pieces == [] then ""
    else pieces[0].literal + (groups[0] + Render(pieces[1..], groups[1..]))
  }

  /** The longest prefix of characters of a group. */
  function Span(s: string, number: bool): (n: nat)
    ensures n <= |s|
  {
    if s == [] || !InGroup(s[0], number) then 0 else 1 + Span(s[1..], number)
  }

  /** Matching the expression at the start of `s`: the groups, or None. */
  function Match(s: string, pieces: seq<Piece>): Option<seq<string>>
    decreases |pieces|
  {
    if pieces == [] then Some([])
    else if !(pieces[0].literal <= s) then None
    else
      var t := s[|pieces[0].literal|..];
      var n := Span(t, pieces[0].number);
      if n == 0 then None
      else
        var rest := Match(t[n..], pieces[1..]);
        if rest == None then None else Some([t[..n]] + rest.value)
  }

  lemma {:induction false} SpanExact(a: string, b: string, number: bool)
    requires AllIn(a, number) && (b == [] || !InGroup(b[0], number))
    ensures Span(a + b, number) == |a|
  {
    if a == [] {
      assert a + b == b;
    } else {
      assert (a + b)[1..] == a[1..] + b;
      SpanExact(a[1..], b, number);
    }
  }

  /** Each group fits its piece. */
  predicate Fits(pieces: seq<Piece>, groups: seq<string>) {
    && |groups| == |pieces|
    && forall i :: 0 <= i < |pieces| ==> groups[i] != [] && AllIn(groups[i], pieces[i].number)
  }

  /** No literal after the first starts with a character a group could take. */
  predicate Separated(pieces: seq<Piece>) {
    forall i :: 0 < i < |pieces| ==> pieces[i].literal != [] && pieces[i].literal[0] == '_'
  }

  lemma {:induction false} MatchStep(pieces: seq<Piece>, g: string, rest: string, gs: seq<string>)
    requires pieces != [] && g != [] && AllIn(g, pieces[0].number)
    requires rest == [] || rest[0] == '_'
    requires Match(rest, pieces[1..]) == Some(gs)
    ensures Match(pieces[0].literal + (g + rest), pieces) == Some([g] + gs)
  {
    var lit := pieces[0].literal;
    assert (lit + (g + rest))[|lit|..] == g + rest;
    SpanExact(g, rest, pieces[0].number);
    assert (g + rest)[..|g|] == g && (g + rest)[|g|..] == rest;
  }

  /** Whatever the groups are, matching a rendered name gives them back. */
  lemma {:induction false} MatchOfRender(pieces: seq<Piece>, groups: seq<string>)
    requires Fits(pieces, groups) && Separated(pieces)
    ensures Match(Render(pieces, groups), pieces) == Some(groups)
  {
    if pieces != [] {
      MatchOfRender(pieces[1..], groups[1..]);
      RestIsSeparated(pieces, groups);
      MatchStep(pieces, groups[0], Render(pieces[1..], groups[1..]), groups[1..]);
      assert groups == [groups[0]] + groups[1..];
    }
  }

  lemma {:induction false} RestIsSeparated(pieces: seq<Piece>, groups: seq<string>)
    requires pieces != [] && |groups| == |pieces| && Separated(pieces)
    ensures Render(pieces[1..], groups[1..]) == [] || Render(pieces[1..], groups[1..])[0] == '_'
  {
    assert |pieces| > 1 ==> pieces[1..][0] == pieces[1];
  }

  /** The name of checkpoint number `index`. */
  function Name(index: nat, p: Point, length: nat): string {
    Render(PATTERN, Groups(index, p, length))
  }

  datatype Parsed = Parsed(index: nat, start: nat, weight: string, length: nat, warmup: nat)

  /** The groups of a matching name as numbers; the weight stays text. */
  function ParseName(s: string): Option<Parsed> {
    var m := Match(s, PATTERN);
    if m == None then None else Numbers(m.value)
  }

  function Numbers(g: seq<string>): Option<Parsed> {
    if |g| != 5 then None
    else
      var n0, n1, n3, n4 := ParseNat(g[0]), ParseNat(g[1]), ParseNat(g[3]), ParseNat(g[4]);
      if n0 == None || n1 == None || n3 == None || n4 == None then None
      else Some(Parsed(n0.value, n1.value, g[2], n3.value, n4.value))
  }

  /** What "%f" prints for a weight. */
  predicate IsWeight(s: string) {
    s != [] && AllIn(s, false)
  }

  lemma {:induction false} ZfillDigits(i: nat, n: nat)
    ensures Zfill(i, n) != [] && AllIn(Zfill(i, n), true)
  {
  }

  /** The groups of a name. */
  function Groups(index: nat, p: Point, length: nat): seq<string> {
    [Zfill(index, 2), Decimal(p.start), p.weight, Decimal(length), Decimal(p.warmup)]
  }

  lemma {:induction false} NameFits(index: nat, p: Point, length: nat)
    requires IsWeight(p.weight)
    ensures Fits(PATTERN, Groups(index, p, length)) && Separated(PATTERN)
  {
    ZfillDigits(index, 2);
  }

  lemma {:induction false} NumbersOfGroups(index: nat, p: Point, length: nat)
    ensures Numbers(Groups(index, p, length)) == Some(Parsed(index, p.start, p.weight, length, p.warmup))
  {
    ZfillValue(index, 2);
    ParseOfDecimal(p.start);
    ParseOfDecimal(length);
    ParseOfDecimal(p.warmup);
  }

  /** A printed name parses back to the same fields. */
  lemma {:induction false} NameParses(index: nat, p: Point, length: nat)
    requires IsWeight(p.weight)
    ensures ParseName(Name(index, p, length)) == Some(Parsed(index, p.start, p.weight, length, p.warmup))
  {
    NameFits(index, p, length);
    MatchOfRender(PATTERN, Groups(index, p, length));
    NumbersOfGroups(index, p, length);
  }

  lemma {:induction false} RenderFrom(pieces: seq<Piece>, groups: seq<string>, k: nat)
    requires |groups| == |pieces| && k < |pieces|
    ensures Render(pieces[k..], groups[k..])
         == pieces[k].literal + (groups[k] + Render(pieces[k + 1..], groups[k + 1..]))
  {
    assert pieces[k..][1..] == pieces[k + 1..] && groups[k..][1..] == groups[k + 1..];
  }

  /** The name written out. */
  lemma {:induction false} NameReads(index: nat, p: Point, length: nat)
    ensures Name(index, p, length)
         == "cpt.simpoint_" + (Zfill(index, 2) + ("_inst_" + (Decimal(p.start) + ("_weight_" + (p.weight
            + ("_interval_" + (Decimal(length) + ("_warmup_" + Decimal(p.warmup)))))))))
  {
    var g := Groups(index, p, length);
    RenderFrom(PATTERN, g, 0);
    RenderFrom(PATTERN, g, 1);
    RenderFrom(PATTERN, g, 2);
    RenderFrom(PATTERN, g, 3);
    RenderFrom(PATTERN, g, 4);
    assert PATTERN[0..] == PATTERN && g[0..] == g;
    assert Decimal(p.warmup) + Render(PATTERN[5..], g[5..]) == Decimal(p.warmup);
  }

  // ---------------------------------------------------------------- name order

  lemma {:induction false} LessBehindPrefix(p: string, a: string, b: string)
    ensures Less(p + a, p + b) <==> Less(a, b)
  {
    if p == [] {
      assert p + a == a && p + b == b;
    } else {
      assert (p + a)[1..] == p[1..] + a && (p + b)[1..] == p[1..] + b;
      LessBehindPrefix(p[1..], a, b);
    }
  }

  lemma {:induction false} DigitOrder(a: nat, b: nat)
    requires a < b < 10
    ensures DigitChar(a) < DigitChar(b)
  {
    assert DigitValue(DigitChar(a)) == a && DigitValue(DigitChar(b)) == b;
  }

  lemma {:induction false} TwoDigits(i: nat)
    requires i < 100
    ensures Zfill(i, 2) == [DigitChar(i / 10), DigitChar(i % 10)]
  {
    if i < 10 {
      assert Decimal(i) == [DigitChar(i)] && Zeros(1) == Zeros(0) + "0" && Zeros(0) == "";
    } else {
      assert Decimal(i / 10) == [DigitChar(i / 10)];
    }
  }

  lemma {:induction false} PairOrder(a: nat, b: nat, c: nat, d: nat, s: string, t: string)
    requires a < 10 && b < 10 && c < 10 && d < 10 && (a < c || (a == c && b < d))
    ensures Less([DigitChar(a), DigitChar(b)] + s, [DigitChar(c), DigitChar(d)] + t)
  {
    var x, y := [DigitChar(a), DigitChar(b)] + s, [DigitChar(c), DigitChar(d)] + t;
    if a < c {
      DigitOrder(a, c);
    } else {
      DigitOrder(b, d);
      assert x[1..][0] == x[1] && y[1..][0] == y[1];
    }
  }

  /** What follows the number in a name. */
  function Tail(p: Point, length: nat): string {
    Render(PATTERN[1..], [Decimal(p.start), p.weight, Decimal(length), Decimal(p.warmup)])
  }

  lemma {:induction false} NameSplits(index: nat, p: Point, length: nat)
    ensures Name(index, p, length) == PATTERN[0].literal + (Zfill(index, 2) + Tail(p, length))
    ensures Tail(p, length) != [] && Tail(p, length)[0] == '_'
  {
    var groups := Groups(index, p, length);
    assert groups[1..] == [Decimal(p.start), p.weight, Decimal(length), Decimal(p.warmup)];
    assert PATTERN[1..][0] == PATTERN[1];
  }

  /** Up to number 99 the names sort like their numbers, whatever else they contain. */
  lemma {:induction false} NamesInOrder(i: nat, p: Point, j: nat, q: Point, length: nat)
    requires i < j < 100
    ensures Less(Name(i, p, length), Name(j, q, length))
  {
    NameSplits(i, p, length);
    NameSplits(j, q, length);
    TwoDigits(i);
    TwoDigits(j);
    PairOrder(i / 10, i % 10, j / 10, j % 10, Tail(p, length), Tail(q, length));
    LessBehindPrefix(PATTERN[0].literal, Zfill(i, 2) + Tail(p, length), Zfill(j, 2) + Tail(q, length));
  }

  lemma {:induction false} HundredDigits()
    ensures Zfill(100, 2) == Zfill(10, 2) + "0"
  {
    assert Decimal(10) == Decimal(1) + "0" && Decimal(100) == Decimal(10) + "0";
  }

  /** Number 100 sorts in front of number 10. */
  lemma {:induction false} HundredBeforeTen(p: Point, q: Point, length: nat)
    ensures Less(Name(100, p, length), Name(10, q, length))
  {
    NameSplits(100, p, length);
    NameSplits(10, q, length);
    HundredDigits();
    var z, a, b := Zfill(10, 2), Tail(p, length), Tail(q, length);
    assert Zfill(100, 2) + a == z + ("0" + a);
    LessBehindPrefix(z, "0" + a, b);
    LessBehindPrefix(PATTERN[0].literal, z + ("0" + a), z + b);
  }

  // ---------------------------------------------------------------- sorting the names

  lemma {:induction false} LessTransitive(a: string, b: string, c: string)
    ensures !Less(b, a) && !Less(c, b) ==> !Less(c, a)
  {
    if a != [] && b != [] && c != [] {
      LessTransitive(a[1..], b[1..], c[1..]);
    }
  }

  lemma {:induction false} LessOneWay(a: string, b: string)
    ensures !(Less(a, b) && Less(b, a))
  {
    if a != [] && b != [] {
      LessOneWay(a[1..], b[1..]);
    }
  }

  /** What a sorted list promises: no element is smaller than an earlier one. */
  ghost predicate Ordered(s: seq<string>) {
    forall i, j :: 0 <= i < j < |s| ==> !Less(s[j], s[i])
  }

  ghost predicate Ascending(s: seq<string>) {
    forall i, j :: 0 <= i < j < |s| ==> Less(s[i], s[j])
  }

  function InsertName(x: string, s: seq<string>): (r: seq<string>)
    ensures multiset(r) == multiset{x} + multiset(s)
  {
    if s == [] then [x]
    else if Less(s[0], x) then
      assert s == [s[0]] + s[1..];
      [s[0]] + InsertName(x, s[1..])
    else [x] + s
  }

  /** `list.sort` on strings. */
  function SortNames(s: seq<string>): (r: seq<string>)
    ensures multiset(r) == multiset(s)
  {
    if s == [] then []
    else
      assert s == [s[0]] + s[1..];
      InsertName(s[0], SortNames(s[1..]))
  }

  lemma {:induction false} InsertKeepsBound(b: string, x: string, s: seq<string>)
    requires !Less(x, b) && forall i :: 0 <= i < |s| ==> !Less(s[i], b)
    ensures forall i :: 0 <= i < |InsertName(x, s)| ==> !Less(InsertName(x, s)[i], b)
  {
    forall i | 0 <= i < |InsertName(x, s)| ensures !Less(InsertName(x, s)[i], b) {
      assert InsertName(x, s)[i] in multiset(InsertName(x, s));
    }
  }

  lemma {:induction false} InsertOrdered(x: string, s: seq<string>)
    requires Ordered(s)
    ensures Ordered(InsertName(x, s))
  {
    if s != [] {
      if Less(s[0], x) {
        InsertOrdered(x, s[1..]);
        LessOneWay(s[0], x);
        InsertKeepsBound(s[0], x, s[1..]);
      } else {
        forall i | 0 <= i < |s| ensures !Less(s[i], x) {
          LessTransitive(x, s[0], s[i]);
          LessOneWay(s[0], s[0]);
        }
      }
    }
  }

  lemma {:induction false} SortNamesOrdered(s: seq<string>)
    ensures Ordered(SortNames(s))
  {
    if s != [] {
      SortNamesOrdered(s[1..]);
      InsertOrdered(s[0], SortNames(s[1..]));
    }
  }

  lemma {:induction false} SameFirst(s: seq<string>, t: seq<string>)
    requires Ordered(s) && Ascending(t) && multiset(s) == multiset(t) && s != []
    ensures t != [] && s[0] == t[0]
  {
    assert s[0] in multiset(t);
    var k :| 0 <= k < |t| && t[k] == s[0];
    assert t[0] in multiset(s);
    var m :| 0 <= m < |s| && s[m] == t[0];
    assert m == 0 || !Less(s[m], s[0]);
  }

  /** A sorted arrangement of strictly ascending strings is those strings. */
  lemma {:induction false} SortedIsTheAscending(s: seq<string>, t: seq<string>)
    requires Ordered(s) && Ascending(t) && multiset(s) == multiset(t)
    ensures s == t
  {
    assert |multiset(s)| == |s| && |multiset(t)| == |t|;
    if s != [] {
      SameFirst(s, t);
      assert s == [s[0]] + s[1..] && t == [t[0]] + t[1..];
      assert multiset(s[1..]) == multiset(s) - multiset{s[0]};
      assert multiset(t[1..]) == multiset(t) - multiset{t[0]};
      SortedIsTheAscending(s[1..], t[1..]);
    }
  }

  // ---------------------------------------------------------------- restoring

  /** The names of the checkpoints, in the order in which they are taken. */
  function Names(ps: seq<Point>, length: nat): (r: seq<string>)
    ensures |r| == |ps| && forall i :: 0 <= i < |ps| ==> r[i] == Name(i, ps[i], length)
  {
    seq(|ps|, i requires 0 <= i < |ps| => Name(i, ps[i], length))
  }

  /**
   Sorting the checkpoint names gives back the order in which they were taken exactly if
   there are at most one hundred of them.
   */
  lemma {:induction false} SortedAsTakenIff(ps: seq<Point>, length: nat, found: seq<string>)
    requires multiset(found) == multiset(Names(ps, length))
    ensures SortNames(found) == Names(ps, length) <==> |ps| <= 100
  {
    SortNamesOrdered(found);
    if |ps| <= 100 {
      forall i, j | 0 <= i < j < |ps| ensures Less(Names(ps, length)[i], Names(ps, length)[j]) {
        NamesInOrder(i, ps[i], j, ps[j], length);
      }
      SortedIsTheAscending(SortNames(found), Names(ps, length));
    } else {
      HundredBeforeTen(ps[100], ps[10], length);
    }
  }

  /** The directory entries that match the expression, in listing order. */
  function Matching(dirs: seq<string>): seq<string> {
    if dirs == [] then []
    else if Match(dirs[|dirs| - 1], PATTERN) != None then Matching(dirs[..|dirs| - 1]) + [dirs[|dirs| - 1]]
    else Matching(dirs[..|dirs| - 1])
  }

  /** What restoring number `n` selects: None if there are too few; number 0 is the last one. */
  function Select(cpts: seq<string>, n: nat): Option<string> {
    if n > |cpts| || cpts == [] then None
    else if n == 0 then Some(cpts[|cpts| - 1])
    else Some(cpts[n - 1])
  }

  /** The SimPoint branch of `findCptDir`. */
  method FindCheckpoint(dirs: seq<string>, n: nat) returns (dir: Option<string>)
    ensures dir == Select(SortNames(Matching(dirs)), n)
  {
    var cpts := [];
    for i := 0 to |dirs|
      invariant cpts == Matching(dirs[..i])
    {
      assert dirs[..i + 1][..i] == dirs[..i];
      if Match(dirs[i], PATTERN) != None {
        cpts := cpts + [dirs[i]];
      }
    }
    assert dirs[..|dirs|] == dirs;
    cpts := SortNames(cpts);
    if n > |cpts| || cpts == [] {
      dir := None;
    } else if n == 0 {
      dir := Some(cpts[|cpts| - 1]);
    } else {
      dir := Some(cpts[n - 1]);
    }
  }

  /**
   Restoring number `n` from a directory that holds these checkpoints, in whatever order it is
   listed and whatever else it holds, selects the n-th checkpoint taken, number 0 the last one,
   and any number beyond fails.
   */
  lemma {:induction false} RestorePicksNth(ps: seq<Point>, length: nat, dirs: seq<string>, n: nat)
    requires multiset(Matching(dirs)) == multiset(Names(ps, length))
    requires |ps| <= 100
    ensures 1 <= n <= |ps| ==> Select(SortNames(Matching(dirs)), n) == Some(Name(n - 1, ps[n - 1], length))
    ensures n == 0 < |ps| ==>
              Select(SortNames(Matching(dirs)), n) == Some(Name(|ps| - 1, ps[|ps| - 1], length))
    ensures n > |ps| || ps == [] ==> Select(SortNames(Matching(dirs)), n) == None
  {
    SortedAsTakenIff(ps, length, Matching(dirs));
  }

  // ---------------------------------------------------------------- taking the checkpoints

  /** Why the simulator returned. */
  datatype Cause = Found | Guest | Other

  /** The returns from the `e`-th on that are not guest checkpoints. */
  function Proper(events: seq<Cause>, e: nat): seq<Cause>
    requires e <= |events|
    decreases |events| - e
  {
    if e == |events| then []
    else if events[e] == Guest then Proper(events, e + 1)
    else [events[e]] + Proper(events, e + 1)
  }

  /** The simulator runs only if the point starts elsewhere than the one before it. */
  predicate Runs(ps: seq<Point>, k: nat)
    requires k < |ps|
  {
    k == 0 || ps[k].start != ps[k - 1].start
  }

  /** How many times it has run for the first `k` points. */
  function RunsBefore(ps: seq<Point>, k: nat): (n: nat)
    requires k <= |ps|
    ensures n <= k
  {
    if k == 0 then 0 else RunsBefore(ps, k - 1) + (if Runs(ps, k - 1) then 1 else 0)
  }

  ghost predicate ByStart(ps: seq<Point>) {
    forall i, j :: 0 <= i < j < |ps| ==> ps[i].start <= ps[j].start
  }

  /** The different starts of the first `k` points. */
  function Starts(ps: seq<Point>, k: nat): set<nat>
    requires k <= |ps|
  {
    if k == 0 then {} else Starts(ps, k - 1) + {ps[k - 1].start}
  }

  lemma {:induction false} StartsUpTo(ps: seq<Point>, k: nat, x: nat)
    requires 0 < k <= |ps| && ByStart(ps) && x in Starts(ps, k)
    ensures x <= ps[k - 1].start
  {
    if x != ps[k - 1].start {
      StartsUpTo(ps, k - 1, x);
      assert ps[k - 2].start <= ps[k - 1].start;
    }
  }

  lemma {:induction false} StartIsNewIff(ps: seq<Point>, k: nat)
    requires k < |ps| && ByStart(ps)
    ensures ps[k].start in Starts(ps, k) <==> !Runs(ps, k)
  {
    if k > 0 && ps[k].start in Starts(ps, k) {
      StartsUpTo(ps, k, ps[k].start);
      assert ps[k - 1].start <= ps[k].start;
    }
  }

  lemma {:induction false} SizeWithOneMore(s: set<nat>, x: nat)
    ensures |s + {x}| == |s| + (if x in s then 0 else 1)
  {
    assert x in s ==> s + {x} == s;
  }

  /** For points in the order of their starts it runs once for each different start. */
  lemma {:induction false} OneRunPerStart(ps: seq<Point>, k: nat)
    requires k <= |ps| && ByStart(ps)
    ensures RunsBefore(ps, k) == |Starts(ps, k)|
  {
    if k > 0 {
      OneRunPerStart(ps, k - 1);
      StartIsNewIff(ps, k - 1);
      SizeWithOneMore(Starts(ps, k - 1), ps[k - 1].start);
    }
  }

  lemma {:induction false} ProperFrom(events: seq<Cause>, e: nat)
    requires e <= |events|
    ensures Proper(events, e) == Proper(events[e..], 0)
    decreases |events| - e
  {
    if e < |events| {
      ProperFrom(events, e + 1);
      ProperFrom(events[e..], 1);
      assert events[e..][1..] == events[e + 1..];
    }
  }

  lemma {:induction false} ProperFirst(c: Cause, rest: seq<Cause>)
    ensures Proper([c] + rest, 0) == (if c == Guest then [] else [c]) + Proper(rest, 0)
  {
    ProperFrom([c] + rest, 1);
    assert ([c] + rest)[1..] == rest;
  }

  /** A guest checkpoint at any place makes no difference, and without any all returns count. */
  lemma {:induction false} GuestsAreSkipped(a: seq<Cause>, b: seq<Cause>)
    ensures Proper(a + ([Guest] + b), 0) == Proper(a + b, 0)
    ensures (forall i :: 0 <= i < |a| ==> a[i] != Guest) ==> Proper(a, 0) == a
  {
    if a == [] {
      ProperFirst(Guest, b);
      assert a + ([Guest] + b) == [Guest] + b && a + b == b;
    } else {
      GuestsAreSkipped(a[1..], b);
      ProperFirst(a[0], a[1..] + ([Guest] + b));
      ProperFirst(a[0], a[1..] + b);
      ProperFirst(a[0], a[1..]);
      assert a + ([Guest] + b) == [a[0]] + (a[1..] + ([Guest] + b));
      assert a + b == [a[0]] + (a[1..] + b) && a == [a[0]] + a[1..];
    }
  }

  /** The simulator found the starting point each of the first `n` times. */
  predicate AllFound(proper: seq<Cause>, n: nat) {
    n <= |proper| && forall i :: 0 <= i < n ==> proper[i] == Found
  }

  lemma {:induction false} AllFoundStep(proper: seq<Cause>, n: nat)
    requires AllFound(proper, n)
    ensures AllFound(proper, n + 1) <==> n < |proper| && proper[n] == Found
  {
  }

  /** Running the simulator until it returns for another reason than a guest checkpoint. */
  method Simulate(events: seq<Cause>, from: nat) returns (e: nat, found: bool)
    requires from <= |events|
    ensures found <==> Proper(events, from) != [] && Proper(events, from)[0] == Found
    ensures found ==> e <= |events| && Proper(events, e) == Proper(events, from)[1..]
  {
    e := from;
    while e < |events| && events[e] == Guest
      invariant e <= |events|
      invariant Proper(events, e) == Proper(events, from)
    {
      e := e + 1;
    }
    if e == |events| {
      found := false;
    } else {
      found := events[e] == Found;
      e := e + 1;
    }
  }

  lemma {:induction false} NamesStep(ps: seq<Point>, k: nat, length: nat)
    requires k < |ps|
    ensures Names(ps[..k + 1], length) == Names(ps[..k], length) + [Name(k, ps[k], length)]
  {
  }

  /**
   `takeSimpointCheckpoints` when the simulator returns with these causes: it writes the names
   of the points up to the first one whose starting point was not found, whatever guest
   checkpoints occur; all of them exactly if every starting point was found.
   */
  method TakeCheckpoints(ps: seq<Point>, length: nat, events: seq<Cause>) returns (names: seq<string>)
    ensures |names| <= |ps| && names == Names(ps[..|names|], length)
    ensures AllFound(Proper(events, 0), RunsBefore(ps, |names|))
    ensures |names| < |ps| ==> !AllFound(Proper(events, 0), RunsBefore(ps, |names| + 1))
  {
    names := [];
    var last: int := -1;
    var e: nat := 0;
    ghost var proper := Proper(events, 0);
    for index := 0 to |ps|
      invariant e <= |events| && names == Names(ps[..index], length)
      invariant last == if index == 0 then -1 else ps[index - 1].start
      invariant AllFound(proper, RunsBefore(ps, index))
      invariant Proper(events, e) == proper[RunsBefore(ps, index)..]
    {
      if ps[index].start != last {
        var found;
        AllFoundStep(proper, RunsBefore(ps, index));
        e, found := Simulate(events, e);
        if !found {
          return;
        }
      }
      NamesStep(ps, index, length);
      names := names + [Name(index, ps[index], length)];
      last := ps[index].start;
    }
  }
}
