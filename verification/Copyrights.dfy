/**
 Copyright years (util/find_copyrights.py): printing a set of years as ranges and reading the
 ranges back.
 */
module Copyrights {
  import opened Results
  import opened Sorting
  import opened Text

  // ---------------------------------------------------------------- runs of years

  /** A run of consecutive years, both ends included. */
  datatype Run = Run(first: nat, last: nat)

  function YearKey(y: nat): int {
    y
  }

  ghost predicate Ascending(s: seq<nat>) {
    forall i, j :: 0 <= i < j < |s| ==> s[i] < s[j]
  }

  /** The runs of ascending years. */
  function Runs(s: seq<nat>): (runs: seq<Run>)
    ensures runs == [] <==> s == []
  {
    if s == [] then [] else WithYear(Runs(s[..|s| - 1]), s[|s| - 1])
  }

  /** One more year extends the last run or starts a new one. */
  function WithYear(runs: seq<Run>, y: nat): (r: seq<Run>)
    ensures r != []
  {
    if runs != [] && y == runs[|runs| - 1].last + 1
    then runs[..|runs| - 1] + [Run(runs[|runs| - 1].first, y)]
    else runs + [Run(y, y)]
  }

  predicate InRun(run: Run, y: nat) {
    run.first <= y <= run.last
  }

  ghost predicate Covered(runs: seq<Run>, y: nat) {
    exists i :: 0 <= i < |runs| && InRun(runs[i], y)
  }

  /** Ascending runs with a gap between any two: no run can be longer. */
  ghost predicate Separate(runs: seq<Run>) {
    && (forall i :: 0 <= i < |runs| ==> runs[i].first <= runs[i].last)
    && (forall i, j :: 0 <= i < j < |runs| ==> runs[i].last + 1 < runs[j].first)
  }

  lemma {:induction false} LastOfRuns(s: seq<nat>)
    requires s != []
    ensures Runs(s)[|Runs(s)| - 1].last == s[|s| - 1]
  {
  }

  lemma {:induction false} WithYearSeparate(runs: seq<Run>, y: nat)
    requires Separate(runs) && (runs == [] || runs[|runs| - 1].last < y)
    ensures Separate(WithYear(runs, y))
  {
    if runs != [] {
      var n := |runs| - 1;
      assert forall i :: 0 <= i < n ==> runs[i].last + 1 < runs[n].first;
    }
  }

  lemma {:induction false} RunsSeparate(s: seq<nat>)
    requires Ascending(s)
    ensures Separate(Runs(s))
  {
    if s != [] {
      var t := s[..|s| - 1];
      RunsSeparate(t);
      if t != [] {
        LastOfRuns(t);
        assert t[|t| - 1] == s[|s| - 2] < s[|s| - 1];
      }
      WithYearSeparate(Runs(t), s[|s| - 1]);
    }
  }

  lemma {:induction false} CoveredByOneMore(runs: seq<Run>, run: Run, y: nat)
    ensures Covered(runs + [run], y) <==> Covered(runs, y) || InRun(run, y)
  {
    if Covered(runs, y) {
      var i :| 0 <= i < |runs| && InRun(runs[i], y);
      assert (runs + [run])[i] == runs[i];
    }
    assert (runs + [run])[|runs|] == run;
  }

  lemma {:induction false} WithYearCovers(runs: seq<Run>, x: nat, y: nat)
    requires Separate(runs)
    ensures Covered(WithYear(runs, x), y) <==> Covered(runs, y) || y == x
  {
    if runs != [] && x == runs[|runs| - 1].last + 1 {
      var init, last := runs[..|runs| - 1], runs[|runs| - 1];
      assert runs == init + [last];
      CoveredByOneMore(init, last, y);
      CoveredByOneMore(init, Run(last.first, x), y);
    } else {
      CoveredByOneMore(runs, Run(x, x), y);
    }
  }

  lemma {:induction false} RunsCover(s: seq<nat>, y: nat)
    requires Ascending(s)
    ensures Covered(Runs(s), y) <==> y in s
  {
    if s != [] {
      var t := s[..|s| - 1];
      assert s == t + [s[|s| - 1]];
      RunsCover(t, y);
      RunsSeparate(t);
      WithYearCovers(Runs(t), s[|s| - 1], y);
    }
  }

  // ---------------------------------------------------------------- printing

  function RunText(run: Run): string {
    if run.first == run.last then Decimal(run.first) else Decimal(run.first) + ("-" + Decimal(run.last))
  }

  function Texts(runs: seq<Run>): (r: seq<string>)
    ensures |r| == |runs| && forall i :: 0 <= i < |runs| ==> r[i] == RunText(runs[i])
  {
    seq(|runs|, i requires 0 <= i < |runs| => RunText(runs[i]))
  }

  /** No year is listed twice: the list was made from a set. */
  ghost predicate Distinct(s: seq<nat>) {
    forall i, j :: 0 <= i < j < |s| ==> s[i] != s[j]
  }

  /** The runs of a set of years, listed in any order. */
  function RunsOf(dates: seq<nat>): seq<Run> {
    Runs(Sort(dates, YearKey))
  }

  lemma {:induction false} CountOne(s: seq<nat>, x: nat)
    requires Distinct(s)
    ensures multiset(s)[x] <= 1
  {
    if s != [] {
      assert s == [s[0]] + s[1..];
      CountOne(s[1..], x);
    }
  }

  lemma {:induction false} CountTwo(s: seq<nat>, i: nat, j: nat)
    requires i < j < |s| && s[i] == s[j]
    ensures multiset(s)[s[i]] >= 2
  {
    assert s == s[..j] + s[j..];
    assert s[..j][i] in multiset(s[..j]) && s[j..][0] in multiset(s[j..]);
  }

  lemma {:induction false} SortAscends(s: seq<nat>)
    requires Distinct(s)
    ensures Ascending(Sort(s, YearKey))
  {
    var t := Sort(s, YearKey);
    SortSorted(s, YearKey);
    forall i, j | 0 <= i < j < |t| ensures t[i] < t[j] {
      assert YearKey(t[i]) <= YearKey(t[j]);
      CountOne(s, t[i]);
      if t[i] == t[j] {
        CountTwo(t, i, j);
      }
    }
  }

  lemma {:induction false} SameYears(s: seq<nat>, y: nat)
    ensures y in Sort(s, YearKey) <==> y in s
  {
    assert y in multiset(s) <==> y in multiset(Sort(s, YearKey));
  }

  /** The runs printed are exactly the maximal runs of the set, in ascending order. */
  lemma {:induction false} MaximalRuns(dates: seq<nat>)
    requires Distinct(dates)
    ensures Separate(RunsOf(dates)) && forall y :: Covered(RunsOf(dates), y) <==> y in dates
  {
    var s := Sort(dates, YearKey);
    SortAscends(dates);
    RunsSeparate(s);
    forall y ensures Covered(RunsOf(dates), y) <==> y in dates {
      RunsCover(s, y);
      SameYears(dates, y);
    }
  }

  lemma {:induction false} RunsStep(s: seq<nat>, n: nat)
    requires 1 <= n < |s|
    ensures Runs(s[..n + 1]) == WithYear(Runs(s[..n]), s[n])
  {
    assert s[..n + 1][..n] == s[..n];
  }

  lemma {:induction false} TextsOfLast(runs: seq<Run>)
    requires runs != []
    ensures Texts(runs) == Texts(runs[..|runs| - 1]) + [RunText(runs[|runs| - 1])]
  {
  }

  /** `datestr`: an empty set is an error. */
  method DateStr(listed: seq<nat>) returns (text: Option<string>)
    ensures text == if listed == [] then None else Some(Join(Texts(RunsOf(listed)), ','))
  {
    var dates := Sort(listed, YearKey);
    ghost var sorted := dates;
    if dates == [] {
      return None;
    }
    var output := [];
    var first := dates[0];
    var second := first;
    dates := dates[1..];
    ghost var n, runs := 1, Runs(sorted[..1]);
    while dates != []
      invariant 1 <= n <= |sorted| && dates == sorted[n..]
      invariant second == sorted[n - 1]
      invariant runs == Runs(sorted[..n]) && runs != [] && output == Texts(runs[..|runs| - 1])
      invariant runs[|runs| - 1] == Run(first, second)
      decreases |dates|
    {
      var next := dates[0];
      RunsStep(sorted, n);
      dates := dates[1..];
      output, first, second := NextYear(output, first, second, next, runs);
      n, runs := n + 1, WithYear(runs, next);
    }
    output := AddOutput(output, first, second);
    assert sorted[..n] == sorted;
    TextsOfLast(runs);
    text := Some(Join(output, ','));
  }

  /** One year more: it extends the current run, or completes it and starts another. */
  method NextYear(output: seq<string>, first: nat, second: nat, next: nat, ghost runs: seq<Run>)
    returns (output': seq<string>, first': nat, second': nat)
    requires runs != [] && output == Texts(runs[..|runs| - 1]) && runs[|runs| - 1] == Run(first, second)
    ensures var all := WithYear(runs, next);
            && all != [] && output' == Texts(all[..|all| - 1]) && all[|all| - 1] == Run(first', second')
    ensures second' == next
  {
    if next == second + 1 {
      return output, first, next;
    }
    TextsOfLast(runs);
    output' := AddOutput(output, first, second);
    return output', next, next;
  }

  /** The nested function of `datestr`. */
  method AddOutput(output: seq<string>, first: nat, second: nat) returns (r: seq<string>)
    ensures r == output + [RunText(Run(first, second))]
  {
    if first == second {
      r := output + [Decimal(first)];
    } else {
      r := output + [Decimal(first) + ("-" + Decimal(second))];
    }
  }

  // ---------------------------------------------------------------- reading

  /** `\s*` at position `i`: the position behind the white space. */
  function SkipSpace(s: string, i: nat): (j: nat)
    requires i <= |s|
    ensures i <= j <= |s|
    decreases |s| - i
  {
    if i < |s| && IsSpace(s[i]) then SkipSpace(s, i + 1) else i
  }

  /** Four digits at position `i`. */
  predicate FourDigits(s: string, i: nat) {
    i + 4 <= |s| && AllDigits(s[i..i + 4])
  }

  /** The range expression, matched at the start: four digits, a dash, four digits, with white space around the dash. */
  function MatchRange(s: string): Option<(nat, nat)> {
    if !FourDigits(s, 0) then None
    else
      var dash := SkipSpace(s, 4);
      if dash == |s| || s[dash] != '-' then None
      else
        var i := SkipSpace(s, dash + 1);
        if !FourDigits(s, i) then None else Some((Value(s[0..4]), Value(s[i..i + 4])))
  }

  /** `range(f, n)` as a set. */
  function YearsBelow(f: nat, n: nat): (r: set<nat>)
    ensures forall y :: y in r <==> f <= y < n
  {
    if n <= f then {} else YearsBelow(f, n - 1) + {n - 1}
  }

  /** The years of one entry; what is neither a range nor a number counts for nothing. */
  function EntryYears(date: string): set<nat> {
    var m := MatchRange(date);
    if m.Some? then YearsBelow(m.value.0, m.value.1 + 1)
    else
      var n := ParseNat(date);
      if n.Some? then {n.value} else {}
  }

  function AllYears(entries: seq<string>): set<nat> {
    if entries == [] then {} else AllYears(entries[..|entries| - 1]) + EntryYears(Strip(entries[|entries| - 1]))
  }

  /** `process_dates`. */
  method ProcessDates(dates: string) returns (output: set<nat>)
    ensures output == AllYears(Split(dates, ','))
  {
    var entries := Split(dates, ',');
    output := {};
    for k := 0 to |entries|
      invariant output == AllYears(entries[..k])
    {
      var date := Strip(entries[k]);
      assert entries[..k + 1][..k] == entries[..k];
      var m := MatchRange(date);
      if m.Some? {
        output := AddRange(output, m.value.0, m.value.1);
      } else {
        var n := ParseNat(date);
        if n.Some? {
          output := output + {n.value};
        }
      }
    }
    assert entries[..|entries|] == entries;
  }

  method AddRange(before: set<nat>, f: nat, l: nat) returns (output: set<nat>)
    ensures output == before + YearsBelow(f, l + 1)
  {
    output := before;
    var i := f;
    while i < l + 1
      invariant f <= i && (i <= l + 1 || i == f)
      invariant output == before + YearsBelow(f, i)
    {
      output := output + {i};
      i := i + 1;
    }
  }

  // ---------------------------------------------------------------- the round trip

  function Pow10(k: nat): nat {
    if k == 0 then 1 else 10 * Pow10(k - 1)
  }

  lemma {:induction false} DecimalFits(n: nat, k: nat)
    requires k >= 1
    ensures |Decimal(n)| <= k <==> n < Pow10(k)
  {
    if n < 10 {
      PowAtLeastTen(k);
    } else if k > 1 {
      DecimalFits(n / 10, k - 1);
    }
  }

  lemma {:induction false} PowAtLeastTen(k: nat)
    requires k >= 1
    ensures Pow10(k) >= 10
  {
    if k > 1 {
      PowAtLeastTen(k - 1);
    }
  }

  lemma {:induction false} ValueFits(s: string)
    requires AllDigits(s)
    ensures Value(s) < Pow10(|s|)
  {
    if s != [] {
      ValueFits(s[..|s| - 1]);
    }
  }

  lemma {:induction false} YearDigits(y: nat)
    ensures |Decimal(y)| == 4 <==> 1000 <= y <= 9999
    ensures |Decimal(y)| > 4 <==> y > 9999
  {
    DecimalFits(y, 3);
    DecimalFits(y, 4);
    assert Pow10(4) == 10 * Pow10(3) && Pow10(3) == 10 * Pow10(2);
    assert Pow10(2) == 10 * Pow10(1) && Pow10(1) == 10 * Pow10(0);
  }

  lemma {:induction false} FourDigitValue(s: string)
    requires |s| == 4 && AllDigits(s)
    ensures Value(s) <= 9999
  {
    ValueFits(s);
    assert Pow10(4) == 10 * Pow10(3) && Pow10(3) == 10 * Pow10(2);
    assert Pow10(2) == 10 * Pow10(1) && Pow10(1) == 10 * Pow10(0);
  }

  lemma {:induction false} ShortFirst(a: string, b: string)
    requires |a| < 4
    ensures MatchRange(a + ("-" + b)) == None
  {
    var s := a + ("-" + b);
    assert 4 <= |s| ==> s[0..4][|a|] == '-';
  }

  lemma {:induction false} LongFirst(a: string, b: string)
    requires |a| > 4 && AllDigits(a)
    ensures MatchRange(a + ("-" + b)) == None
  {
    var s := a + ("-" + b);
    assert s[4] == a[4] && IsDigit(a[4]) && !IsSpace(a[4]);
  }

  lemma {:induction false} FourFirst(a: string, b: string)
    requires |a| == 4 && AllDigits(a) && AllDigits(b) && b != []
    ensures MatchRange(a + ("-" + b)) == if |b| >= 4 then Some((Value(a), Value(b[..4]))) else None
  {
    var s := a + ("-" + b);
    assert s[0..4] == a;
    assert s[4] == '-' && s[5] == b[0] && !IsSpace(s[4]) && !IsSpace(s[5]);
    assert SkipSpace(s, 4) == 4 && SkipSpace(s, 5) == 5;
    assert |b| >= 4 ==> s[5..9] == b[..4];
  }

  /** The text of a range is matched exactly if its first year has four digits and its second at least as many. */
  lemma {:induction false} MatchOfRange(a: string, b: string)
    requires AllDigits(a) && AllDigits(b) && b != []
    ensures MatchRange(a + ("-" + b)) == if |a| == 4 && |b| >= 4 then Some((Value(a), Value(b[..4]))) else None
    ensures ParseNat(a + ("-" + b)) == None
  {
    assert (a + ("-" + b))[|a|] == '-';
    if |a| < 4 {
      ShortFirst(a, b);
    } else if |a| == 4 {
      FourFirst(a, b);
    } else {
      LongFirst(a, b);
    }
  }

  lemma {:induction false} NumberIsNoRange(s: string)
    requires AllDigits(s)
    ensures MatchRange(s) == None
  {
    if |s| > 4 {
      assert IsDigit(s[4]) && !IsSpace(s[4]);
    }
  }

  /** Whether the text of a run can be read back. */
  predicate Readable(run: Run) {
    run.first == run.last || (1000 <= run.first && run.last <= 9999)
  }

  lemma {:induction false} SingleYear(y: nat)
    ensures EntryYears(Decimal(y)) == {y}
  {
    NumberIsNoRange(Decimal(y));
    ParseOfDecimal(y);
  }

  lemma {:induction false} RangeYears(run: Run)
    requires run.first < run.last
    ensures forall y :: y in EntryYears(RunText(run)) ==> InRun(run, y)
    ensures Readable(run) ==> forall y :: InRun(run, y) ==> y in EntryYears(RunText(run))
    ensures !Readable(run) ==> run.last !in EntryYears(RunText(run))
  {
    var a, b := Decimal(run.first), Decimal(run.last);
    YearDigits(run.first);
    YearDigits(run.last);
    MatchOfRange(a, b);
    ValueOfDecimal(run.first);
    if |a| == 4 && |b| >= 4 {
      FourDigitValue(b[..4]);
      assert |b| == 4 ==> b[..4] == b;
      ValueOfDecimal(run.last);
    }
  }

  /** Reading the text of a run gives years of that run only, and all of them exactly if it is readable. */
  lemma {:induction false} RunReads(run: Run)
    requires run.first <= run.last
    ensures forall y :: y in EntryYears(RunText(run)) ==> InRun(run, y)
    ensures Readable(run) ==> forall y :: InRun(run, y) ==> y in EntryYears(RunText(run))
    ensures !Readable(run) ==> run.last !in EntryYears(RunText(run))
  {
    if run.first == run.last {
      SingleYear(run.first);
    } else {
      RangeYears(run);
    }
  }

  lemma {:induction false} SkipBlanks(s: string, i: nat, n: nat)
    requires i + n < |s| && Blank(s[i..i + n]) && !IsSpace(s[i + n])
    ensures SkipSpace(s, i) == i + n
    decreases n
  {
    if n > 0 {
      assert s[i..i + n][0] == s[i] && s[i + 1..i + n] == s[i..i + n][1..];
      SkipBlanks(s, i + 1, n - 1);
    }
  }

  lemma {:induction false} RangeAt(s: string, m: nat, n: nat)
    requires |s| == 9 + m + n && AllDigits(s[0..4]) && AllDigits(s[5 + m + n..])
    requires Blank(s[4..4 + m]) && s[4 + m] == '-' && Blank(s[5 + m..5 + m + n])
    ensures MatchRange(s) == Some((Value(s[0..4]), Value(s[5 + m + n..])))
  {
    SkipBlanks(s, 4, m);
    assert IsDigit(s[5 + m + n..][0]) && !IsSpace(s[5 + m + n]);
    SkipBlanks(s, 5 + m, n);
    assert s[5 + m + n..5 + m + n + 4] == s[5 + m + n..];
  }

  lemma {:induction false} RangeParts(a: string, p: string, q: string, b: string)
    requires |a| == |b| == 4
    ensures var s := a + (p + ("-" + (q + b)));
            && s[0..4] == a && s[4..4 + |p|] == p && s[4 + |p|] == '-'
            && s[5 + |p|..5 + |p| + |q|] == q && s[5 + |p| + |q|..] == b
  {
    var t := q + b;
    var u := "-" + t;
    var v := p + u;
    var s := a + v;
    assert s[0..4] == a && s[4..] == v;
    assert v[..|p|] == p && v[|p|] == '-' && v[|p| + 1..] == t;
    assert t[..|q|] == q && t[|q|..] == b;
    assert s[4..4 + |p|] == v[..|p|] && s[5 + |p|..] == v[|p| + 1..];
    assert s[5 + |p|..5 + |p| + |q|] == t[..|q|] && s[5 + |p| + |q|..] == t[|q|..];
  }

  lemma {:induction false} RangeWithBlanks(a: string, p: string, q: string, b: string)
    requires |a| == |b| == 4 && AllDigits(a) && AllDigits(b) && Blank(p) && Blank(q)
    ensures MatchRange(a + (p + ("-" + (q + b)))) == Some((Value(a), Value(b)))
  {
    RangeParts(a, p, q, b);
    RangeAt(a + (p + ("-" + (q + b))), |p|, |q|);
  }

  /** Blanks around a range and around its dash, or around a year, do not count. */
  lemma {:induction false} BlanksDoNotCount(f: nat, l: nat, w: string, p: string, q: string, z: string)
    requires Blank(w) && Blank(p) && Blank(q) && Blank(z)
    ensures EntryYears(Strip(w + (Decimal(f) + z))) == {f}
    ensures 1000 <= f <= 9999 && 1000 <= l <= 9999 ==>
              forall y :: y in EntryYears(Strip(w + ((Decimal(f) + (p + ("-" + (q + Decimal(l))))) + z)))
                     <==> f <= y <= l
  {
    var a, b := Decimal(f), Decimal(l);
    StripBlanks(w, a, z);
    SingleYear(f);
    YearDigits(f);
    YearDigits(l);
    if |a| == |b| == 4 {
      var s := a + (p + ("-" + (q + b)));
      assert s[0] == a[0] && s[|s| - 1] == b[3];
      StripBlanks(w, s, z);
      RangeWithBlanks(a, p, q, b);
      ValueOfDecimal(f);
      ValueOfDecimal(l);
    }
  }

  lemma {:induction false} RunTextPlain(run: Run)
    ensures Strip(RunText(run)) == RunText(run) && ',' !in RunText(run)
  {
    StripNothing(RunText(run));
  }

  lemma {:induction false} YearsOfTexts(entries: seq<string>, y: nat)
    ensures y in AllYears(entries) <==> exists i :: 0 <= i < |entries| && y in EntryYears(Strip(entries[i]))
  {
    if entries != [] {
      YearsOfTexts(entries[..|entries| - 1], y);
      assert forall i :: 0 <= i < |entries| - 1 ==> entries[..|entries| - 1][i] == entries[i];
    }
  }

  lemma {:induction false} YearsOfRuns(runs: seq<Run>, y: nat)
    ensures y in AllYears(Texts(runs)) <==> exists i :: 0 <= i < |runs| && y in EntryYears(RunText(runs[i]))
  {
    var entries := Texts(runs);
    YearsOfTexts(entries, y);
    forall i | 0 <= i < |runs| ensures Strip(entries[i]) == RunText(runs[i]) {
      RunTextPlain(runs[i]);
    }
  }

  lemma {:induction false} ReadableRunsRead(runs: seq<Run>, y: nat)
    requires Separate(runs) && forall i :: 0 <= i < |runs| ==> Readable(runs[i])
    ensures y in AllYears(Texts(runs)) <==> Covered(runs, y)
  {
    YearsOfRuns(runs, y);
    forall i | 0 <= i < |runs| ensures y in EntryYears(RunText(runs[i])) <==> InRun(runs[i], y) {
      RunReads(runs[i]);
    }
  }

  lemma {:induction false} UnreadableRunLoses(runs: seq<Run>, k: nat)
    requires Separate(runs) && k < |runs| && !Readable(runs[k])
    ensures Covered(runs, runs[k].last) && runs[k].last !in AllYears(Texts(runs))
  {
    var y := runs[k].last;
    assert InRun(runs[k], y);
    YearsOfRuns(runs, y);
    forall i | 0 <= i < |runs| ensures y !in EntryYears(RunText(runs[i])) {
      RunReads(runs[i]);
      assert i < k ==> runs[i].last + 1 < runs[k].first;
      assert k < i ==> runs[k].last + 1 < runs[i].first;
      assert i != k ==> !InRun(runs[i], y);
    }
  }

  /** Two years in a row that are not both written with four digits. */
  ghost predicate LostPair(dates: seq<nat>, y: nat) {
    y in dates && y + 1 in dates && !(1000 <= y && y + 1 <= 9999)
  }

  lemma {:induction false} UnreadableIsPair(dates: seq<nat>, k: nat)
    requires Distinct(dates) && k < |RunsOf(dates)| && !Readable(RunsOf(dates)[k])
    ensures exists y :: LostPair(dates, y)
  {
    var run := RunsOf(dates)[k];
    MaximalRuns(dates);
    assert run.first <= run.last;
    var y := if run.first < 1000 then run.first else run.last - 1;
    assert InRun(run, y) && InRun(run, y + 1);
    assert Covered(RunsOf(dates), y) && Covered(RunsOf(dates), y + 1);
    assert LostPair(dates, y);
  }

  lemma {:induction false} PairIsUnreadable(dates: seq<nat>, y: nat)
    requires Distinct(dates) && LostPair(dates, y)
    ensures exists k :: 0 <= k < |RunsOf(dates)| && !Readable(RunsOf(dates)[k])
  {
    var runs := RunsOf(dates);
    MaximalRuns(dates);
    assert Covered(runs, y) && Covered(runs, y + 1);
    var k :| 0 <= k < |runs| && InRun(runs[k], y);
    var m :| 0 <= m < |runs| && InRun(runs[m], y + 1);
    assert !Readable(runs[k]);
  }

  /** The years that reading back what was printed gives. */
  function ReadBack(dates: seq<nat>): set<nat> {
    AllYears(Split(Join(Texts(RunsOf(dates)), ','), ','))
  }

  lemma {:induction false} ReadBackIsRuns(dates: seq<nat>)
    requires dates != []
    ensures ReadBack(dates) == AllYears(Texts(RunsOf(dates)))
  {
    forall i | 0 <= i < |RunsOf(dates)| ensures ',' !in Texts(RunsOf(dates))[i] {
      RunTextPlain(RunsOf(dates)[i]);
    }
    SplitOfJoin(Texts(RunsOf(dates)), ',');
  }

  /**
   Reading back the printed years gives the same set exactly if every two consecutive years in it
   both lie within 1000 to 9999; years on their own may be anything.
   */
  lemma {:induction false} RoundTripIff(dates: seq<nat>)
    requires Distinct(dates) && dates != []
    ensures (forall y :: y in ReadBack(dates) <==> y in dates) <==> (forall y :: !LostPair(dates, y))
  {
    var runs := RunsOf(dates);
    ReadBackIsRuns(dates);
    MaximalRuns(dates);
    if k :| 0 <= k < |runs| && !Readable(runs[k]) {
      UnreadableRunLoses(runs, k);
      UnreadableIsPair(dates, k);
    } else {
      forall y ensures y in ReadBack(dates) <==> y in dates {
        ReadableRunsRead(runs, y);
      }
      forall y ensures !LostPair(dates, y) {
        if LostPair(dates, y) {
          PairIsUnreadable(dates, y);
        }
      }
    }
  }
}
