/**
 One line of the ASCII instruction dependency trace: the printer of
 util/decode_inst_dep_trace.py and the parser of util/encode_inst_dep_trace.py.
 */
module DepRecord {
  import opened Results
  import opened Sequences
  import opened Text

  datatype RecordType = INVALID | LOAD | STORE | COMP

  /** The fields of src/proto/inst_dep_record.proto; optional ones may be absent. */
  datatype Record = Record(seqNum: nat, kind: RecordType, pAddr: Option<nat>, size: Option<nat>, flags: Option<nat>,
                           robDep: seq<nat>, compDelay: nat, regDep: seq<nat>,
                           weight: Option<nat>, pc: Option<nat>, vAddr: Option<nat>, asid: Option<nat>)

  function Or<T>(o: Option<T>, default: T): T {
    if o.Some? then o.value else default
  }

  function TypeName(k: RecordType): string {
    match k
    case INVALID => "INVALID"
    case LOAD => "LOAD"
    case STORE => "STORE"
    case COMP => "COMP"
  }

  function ParseType(s: string): Option<RecordType> {
    if s == "INVALID" then Some(INVALID)
    else if s == "LOAD" then Some(LOAD)
    else if s == "STORE" then Some(STORE)
    else if s == "COMP" then Some(COMP)
    else None
  }

  predicate IsMemory(k: RecordType) {
    k == LOAD || k == STORE
  }

  // ---------------------------------------------------------------- printing

  function Optional(o: Option<nat>): seq<string> {
    if o.Some? then [Decimal(o.value)] else []
  }

  function Head(r: Record): seq<string> {
    [Decimal(r.seqNum), Decimal(Or(r.pc, 0)), Decimal(Or(r.weight, 1)), TypeName(r.kind)]
  }

  /** The comma-separated fields in front of the first colon. */
  function Fields(r: Record): seq<string> {
    Head(r) + (Optional(r.pAddr) + Optional(r.size) + Optional(r.flags)) + [Decimal(r.compDelay)]
  }

  /** Every dependency with a comma in front of it. */
  function DepText(ds: seq<nat>): string {
    if ds == [] then [] else "," + Decimal(ds[0]) + DepText(ds[1..])
  }

  function Body(r: Record): string {
    Join(Fields(r), ',') + [':'] + (DepText(r.robDep) + [':'] + DepText(r.regDep))
  }

  function Line(r: Record): string {
    Body(r) + "\n"
  }

  /** A load or store written out, with the defaults for an absent pc and weight. */
  lemma {:induction false} MemoryLine(r: Record)
    requires r.kind == LOAD || r.kind == STORE
    requires r.pAddr.Some? && r.size.Some? && r.flags.Some?
    ensures Line(r)
         == Decimal(r.seqNum) + [','] + (Decimal(if r.pc.Some? then r.pc.value else 0) + [',']
            + (Decimal(if r.weight.Some? then r.weight.value else 1) + [',']
               + ((if r.kind == LOAD then "LOAD" else "STORE") + [',']
                  + (Decimal(r.pAddr.value) + [','] + (Decimal(r.size.value) + [','] + (Decimal(r.flags.value) + [',']
                     + Decimal(r.compDelay))))))) + [':'] + (DepText(r.robDep) + [':'] + DepText(r.regDep)) + "\n"
  {
    assert Fields(r) == Head(r) + [Decimal(r.pAddr.value), Decimal(r.size.value), Decimal(r.flags.value),
                                   Decimal(r.compDelay)];
    JoinFields(Decimal(r.seqNum), Decimal(Or(r.pc, 0)), Decimal(Or(r.weight, 1)), TypeName(r.kind),
               [Decimal(r.pAddr.value), Decimal(r.size.value), Decimal(r.flags.value), Decimal(r.compDelay)]);
    JoinFour(Decimal(r.pAddr.value), Decimal(r.size.value), Decimal(r.flags.value), Decimal(r.compDelay));
  }

  /** A record of another kind, without the memory fields, written out. */
  lemma {:induction false} OtherLine(r: Record)
    requires r.kind == COMP && r.pAddr == None && r.size == None && r.flags == None
    ensures Line(r)
         == Decimal(r.seqNum) + [','] + (Decimal(if r.pc.Some? then r.pc.value else 0) + [',']
            + (Decimal(if r.weight.Some? then r.weight.value else 1) + [','] + ("COMP" + [',']
               + Decimal(r.compDelay)))) + [':'] + (DepText(r.robDep) + [':'] + DepText(r.regDep)) + "\n"
  {
    assert Fields(r) == Head(r) + [Decimal(r.compDelay)];
    JoinFields(Decimal(r.seqNum), Decimal(Or(r.pc, 0)), Decimal(Or(r.weight, 1)), "COMP", [Decimal(r.compDelay)]);
  }

  lemma {:induction false} JoinMore(a: string, rest: seq<string>)
    requires rest != []
    ensures Join([a] + rest, ',') == a + [','] + Join(rest, ',')
  {
    assert ([a] + rest)[1..] == rest;
  }

  lemma {:induction false} JoinTwo(a: string, b: string, rest: seq<string>)
    requires rest != []
    ensures Join([a, b] + rest, ',') == a + [','] + (b + [','] + Join(rest, ','))
  {
    assert [a, b] + rest == [a] + ([b] + rest);
    JoinMore(a, [b] + rest);
    JoinMore(b, rest);
  }

  lemma {:induction false} JoinFields(a: string, b: string, c: string, d: string, rest: seq<string>)
    requires rest != []
    ensures Join([a, b, c, d] + rest, ',') == a + [','] + (b + [','] + (c + [','] + (d + [','] + Join(rest, ','))))
  {
    assert [a, b, c, d] + rest == [a, b] + ([c, d] + rest);
    JoinTwo(a, b, [c, d] + rest);
    JoinTwo(c, d, rest);
  }

  lemma {:induction false} JoinFour(a: string, b: string, c: string, d: string)
    ensures Join([a, b, c, d], ',') == a + [','] + (b + [','] + (c + [','] + d))
  {
    assert [a, b, c, d] == [a, b] + ([c] + [d]);
    JoinTwo(a, b, [c] + [d]);
    JoinMore(c, [d]);
  }

  // ---------------------------------------------------------------- parsing

  /** The non-empty items as numbers; None where `int` fails. */
  function ParseDeps(items: seq<string>): Option<seq<nat>> {
    if items == [] then Some([])
    else
      var rest := ParseDeps(items[1..]);
      if items[0] == [] then rest
      else if ParseNat(items[0]).Some? && rest.Some? then Some([ParseNat(items[0]).value] + rest.value)
      else None
  }

  /** The type-dependent fields: address, size and flags for memory records, then the delay. */
  function ParseTail(k: RecordType, fields: seq<string>): Option<(Option<nat>, Option<nat>, Option<nat>, nat)> {
    if IsMemory(k) then
      if |fields| < 8 then None
      else
        var a, s, f, d := ParseNat(fields[4]), ParseNat(fields[5]), ParseNat(fields[6]), ParseNat(fields[7]);
        if a.Some? && s.Some? && f.Some? && d.Some? then Some((a, s, f, d.value)) else None
    else if |fields| < 5 || ParseNat(fields[4]) == None then None
    else Some((None, None, None, ParseNat(fields[4]).value))
  }

  /** A record from the fields and the two dependency texts. */
  function ParseParts(fields: seq<string>, robText: string, regText: string): Option<Record> {
    if |fields| < 4 then None
    else
      var seqNum, pc, weight := ParseNat(fields[0]), ParseNat(fields[1]), ParseNat(fields[2]);
      var kind := ParseType(fields[3]);
      if seqNum == None || pc == None || weight == None || kind == None || kind == Some(INVALID) then None
      else
        var tail := ParseTail(kind.value, fields);
        var rob, reg := ParseDeps(Split(Strip(robText), ',')), ParseDeps(Split(regText, ','));
        if tail == None || rob == None || reg == None then None
        else Some(Record(seqNum.value, kind.value, tail.value.0, tail.value.1, tail.value.2,
                         rob.value, tail.value.3, reg.value, weight, pc, None, None))
  }

  /** A whole line; None where the script ends with an exception or an exit. */
  function ParseLine(line: string): Option<Record> {
    var parts := Split(Strip(line), ':');
    if |parts| != 3 then None else ParseParts(Split(parts[0], ','), parts[1], parts[2])
  }

  // ---------------------------------------------------------------- what a line can carry

  /** What comes back: absent pc and weight are replaced by their printed defaults. */
  function Defaulted(r: Record): Record {
    r.(pc := Some(Or(r.pc, 0)), weight := Some(Or(r.weight, 1)))
  }

  /** Memory records with all three memory fields, other records with none, and no v_addr or asid. */
  predicate Printable(r: Record) {
    && r.kind != INVALID
    && (IsMemory(r.kind) ==> r.pAddr.Some? && r.size.Some? && r.flags.Some?)
    && (!IsMemory(r.kind) ==> r.pAddr == None && r.size == None && r.flags == None)
    && r.vAddr == None && r.asid == None
  }

  predicate Without(parts: seq<string>, c: char) {
    forall i :: 0 <= i < |parts| ==> c !in parts[i]
  }

  lemma {:induction false} DecimalWithout(n: nat, c: char)
    requires !IsDigit(c)
    ensures c !in Decimal(n)
  {
  }

  lemma {:induction false} FieldsWithout(r: Record, c: char)
    requires c == ',' || c == ':' || c == '\n'
    ensures Without(Fields(r), c)
  {
    forall n: nat ensures c !in Decimal(n) {
      DecimalWithout(n, c);
    }
  }

  lemma {:induction false} JoinWithout(parts: seq<string>, sep: char, c: char)
    requires c != sep && Without(parts, c)
    ensures c !in Join(parts, sep)
  {
    if |parts| > 1 {
      JoinWithout(parts[1..], sep, c);
    }
  }

  lemma {:induction false} DepTextShape(ds: seq<nat>)
    ensures forall c :: c in DepText(ds) ==> c == ',' || IsDigit(c)
    ensures ds != [] ==> DepText(ds) != [] && DepText(ds)[0] == ',' && IsDigit(DepText(ds)[|DepText(ds)| - 1])
  {
    if ds != [] {
      DepTextShape(ds[1..]);
    }
  }

  function Decimals(ds: seq<nat>): seq<string> {
    if ds == [] then [] else [Decimal(ds[0])] + Decimals(ds[1..])
  }

  lemma {:induction false} SplitDepText(ds: seq<nat>)
    ensures Split(DepText(ds), ',') == [[]] + Decimals(ds)
  {
    if ds != [] {
      var rest := DepText(ds[1..]);
      DecimalWithout(ds[0], ',');
      SplitDepText(ds[1..]);
      assert DepText(ds)[0] == ',' && DepText(ds)[1..] == Decimal(ds[0]) + rest;
      SplitDigitsThenDeps(ds[0], ds[1..]);
    }
  }

  lemma {:induction false} SplitDigitsThenDeps(n: nat, ds: seq<nat>)
    requires Split(DepText(ds), ',') == [[]] + Decimals(ds)
    ensures Split(Decimal(n) + DepText(ds), ',') == [Decimal(n)] + Decimals(ds)
  {
    DecimalWithout(n, ',');
    if ds == [] {
      assert Decimal(n) + DepText(ds) == Decimal(n);
      SplitWhole(Decimal(n), ',');
    } else {
      var rest := DepText(ds)[1..];
      assert DepText(ds)[0] == ',' && DepText(ds) == [','] + rest;
      assert Decimal(n) + DepText(ds) == Decimal(n) + [','] + rest;
      SplitFirst(Decimal(n), ',', rest);
      SplitFirst([], ',', rest);
      assert DepText(ds) == [] + [','] + rest;
      assert Split(rest, ',') == (Split(DepText(ds), ','))[1..];
    }
  }

  lemma {:induction false} ParseDecimals(ds: seq<nat>)
    ensures ParseDeps(Decimals(ds)) == Some(ds)
  {
    if ds != [] {
      ParseOfDecimal(ds[0]);
      ParseDecimals(ds[1..]);
      assert Decimals(ds)[1..] == Decimals(ds[1..]);
      assert ds == [ds[0]] + ds[1..];
    }
  }

  /** A dependency list survives: the empty item in front of the first comma is dropped. */
  lemma {:induction false} DepsRoundTrip(ds: seq<nat>)
    ensures ParseDeps(Split(DepText(ds), ',')) == Some(ds)
  {
    SplitDepText(ds);
    ParseDecimals(ds);
    assert ([[]] + Decimals(ds))[1..] == Decimals(ds);
  }

  lemma {:induction false} StripDepText(ds: seq<nat>)
    ensures Strip(DepText(ds)) == DepText(ds)
  {
    DepTextShape(ds);
    StripNothing(DepText(ds));
  }

  // ---------------------------------------------------------------- the round trip of a line

  lemma {:induction false} SplitBody(r: Record)
    ensures Split(Body(r), ':') == [Join(Fields(r), ','), DepText(r.robDep), DepText(r.regDep)]
  {
    FieldsWithout(r, ':');
    JoinWithout(Fields(r), ',', ':');
    DepTextShape(r.robDep);
    DepTextShape(r.regDep);
    SplitFirst(Join(Fields(r), ','), ':', DepText(r.robDep) + [':'] + DepText(r.regDep));
    SplitFirst(DepText(r.robDep), ':', DepText(r.regDep));
    SplitWhole(DepText(r.regDep), ':');
  }

  lemma {:induction false} JoinStartsWith(parts: seq<string>, c: char)
    requires parts != [] && parts[0] != []
    ensures Join(parts, c) != [] && Join(parts, c)[0] == parts[0][0]
  {
  }

  lemma {:induction false} StripLine(r: Record)
    ensures Strip(Line(r)) == Body(r)
  {
    var b := Body(r);
    JoinStartsWith(Fields(r), ',');
    assert b[0] == Decimal(r.seqNum)[0];
    DepTextShape(r.regDep);
    assert b[|b| - 1] == if r.regDep == [] then ':' else DepText(r.regDep)[|DepText(r.regDep)| - 1];
    StripNewline(b);
  }

  lemma {:induction false} TailRoundTrip(r: Record)
    requires Printable(r)
    ensures ParseTail(r.kind, Fields(r)) == Some((r.pAddr, r.size, r.flags, r.compDelay))
  {
    ParseOfDecimal(r.compDelay);
    if IsMemory(r.kind) {
      ParseOfDecimal(r.pAddr.value);
      ParseOfDecimal(r.size.value);
      ParseOfDecimal(r.flags.value);
    }
  }

  lemma {:induction false} HeadRoundTrip(r: Record)
    requires Printable(r)
    ensures var f := Fields(r);
            && |f| >= 4
            && ParseNat(f[0]) == Some(r.seqNum)
            && ParseNat(f[1]) == Some(Or(r.pc, 0))
            && ParseNat(f[2]) == Some(Or(r.weight, 1))
            && ParseType(f[3]) == Some(r.kind)
  {
    ParseOfDecimal(r.seqNum);
    ParseOfDecimal(Or(r.pc, 0));
    ParseOfDecimal(Or(r.weight, 1));
  }

  lemma {:induction false} PartsRoundTrip(r: Record)
    requires Printable(r)
    ensures ParseParts(Fields(r), DepText(r.robDep), DepText(r.regDep)) == Some(Defaulted(r))
  {
    HeadRoundTrip(r);
    TailRoundTrip(r);
    StripDepText(r.robDep);
    DepsRoundTrip(r.robDep);
    DepsRoundTrip(r.regDep);
  }

  lemma {:induction false} LineRoundTrip(r: Record)
    requires Printable(r)
    ensures ParseLine(Line(r)) == Some(Defaulted(r))
  {
    StripLine(r);
    SplitBody(r);
    FieldsWithout(r, ',');
    SplitOfJoin(Fields(r), ',');
    PartsRoundTrip(r);
  }

  /** Whatever the parser accepts is a record that a line can carry in full. */
  lemma {:induction false} ParsedIsPrintable(line: string)
    ensures var r := ParseLine(line);
            r.Some? ==> Printable(r.value) && Defaulted(r.value) == r.value
  {
  }

  /**
   Exactly which records survive printing and parsing (with pc and weight defaulted):
   typed records whose memory fields match their type, without v_addr and asid.
   */
  lemma {:induction false} LineRoundTripIff(r: Record)
    ensures ParseLine(Line(r)) == Some(Defaulted(r)) <==> Printable(r)
  {
    if Printable(r) {
      LineRoundTrip(r);
    }
    ParsedIsPrintable(Line(r));
  }

  // ---------------------------------------------------------------- as written

  lemma {:induction false} JoinAppend(parts: seq<string>, x: string, c: char)
    requires parts != []
    ensures Join(parts + [x], c) == Join(parts, c) + [c] + x
  {
    if |parts| == 1 {
      assert (parts + [x])[1..] == [x];
    } else {
      assert (parts + [x])[1..] == parts[1..] + [x];
      JoinAppend(parts[1..], x, c);
    }
  }

  lemma {:induction false} DepTextAppend(ds: seq<nat>, d: nat)
    ensures DepText(ds + [d]) == DepText(ds) + ("," + Decimal(d))
  {
    if ds == [] {
      assert [d][1..] == [];
      assert ds + [d] == [d];
    } else {
      assert (ds + [d])[1..] == ds[1..] + [d];
      DepTextAppend(ds[1..], d);
    }
  }

  method WriteField(line: string, x: string, ghost parts: seq<string>) returns (line': string)
    requires parts != [] && line == Join(parts, ',')
    ensures line' == Join(parts + [x], ',')
  {
    JoinAppend(parts, x, ',');
    line' := line + "," + x;
  }

  method WriteOptional(line: string, o: Option<nat>, ghost parts: seq<string>) returns (line': string)
    requires parts != [] && line == Join(parts, ',')
    ensures line' == Join(parts + Optional(o), ',')
  {
    if o.Some? {
      line' := WriteField(line, Decimal(o.value), parts);
    } else {
      line' := line;
      assert parts + Optional(o) == parts;
    }
  }

  method WriteDeps(line: string, ds: seq<nat>) returns (line': string)
    ensures line' == line + DepText(ds)
  {
    line' := line;
    for i := 0 to |ds|
      invariant line' == line + DepText(ds[..i])
    {
      DepTextAppend(ds[..i], ds[i]);
      assert ds[..i + 1] == ds[..i] + [ds[i]];
      ConcatAssociative(line, DepText(ds[..i]), "," + Decimal(ds[i]));
      line' := line' + ("," + Decimal(ds[i]));
    }
    assert ds[..|ds|] == ds;
  }

  /** The four fields every record has, absent pc and weight as their defaults. */
  method WriteHead(r: Record) returns (line: string)
    ensures line == Join(Head(r), ',')
  {
    line := Decimal(r.seqNum);
    ghost var parts := [line];
    line := WriteField(line, Decimal(if r.pc.Some? then r.pc.value else 0), parts);
    parts := parts + [Decimal(Or(r.pc, 0))];
    line := WriteField(line, Decimal(if r.weight.Some? then r.weight.value else 1), parts);
    parts := parts + [Decimal(Or(r.weight, 1))];
    line := WriteField(line, TypeName(r.kind), parts);
    assert parts + [TypeName(r.kind)] == Head(r);
  }

  /** The part in front of the first colon, field by field. */
  method WriteInfo(r: Record) returns (line: string)
    ensures line == Join(Fields(r), ',')
  {
    line := WriteHead(r);
    ghost var parts := Head(r);
    line := WriteOptional(line, r.pAddr, parts);
    parts := parts + Optional(r.pAddr);
    line := WriteOptional(line, r.size, parts);
    parts := parts + Optional(r.size);
    line := WriteOptional(line, r.flags, parts);
    parts := parts + Optional(r.flags);
    line := WriteField(line, Decimal(r.compDelay), parts);
    assert parts + [Decimal(r.compDelay)] == Fields(r);
  }

  /** The body of the decoder's loop: the text written for one packet. */
  method PrintRecord(r: Record) returns (line: string)
    ensures line == Line(r)
  {
    line := WriteInfo(r);
    line := WriteDeps(line + ":", r.robDep);
    line := WriteDeps(line + ":", r.regDep);
    line := line + "\n";
    BodyPieces(r);
  }

  lemma {:induction false} BodyPieces(r: Record)
    ensures Line(r) == Join(Fields(r), ',') + ":" + DepText(r.robDep) + ":" + DepText(r.regDep) + "\n"
  {
  }

  /** The encoder's loops over dependency items. */
  method ReadDeps(items: seq<string>) returns (deps: Option<seq<nat>>)
    ensures deps == ParseDeps(items)
  {
    var acc: seq<nat> := [];
    var i := 0;
    AfterNone(ParseDeps(items));
    assert items[0..] == items;
    while i < |items|
      invariant 0 <= i <= |items|
      invariant ParseDeps(items) == After(acc, ParseDeps(items[i..]))
    {
      assert items[i..][1..] == items[i + 1..];
      if items[i] != [] {
        var n := ParseNat(items[i]);
        if n == None {
          return None;
        }
        AfterOne(acc, n.value, ParseDeps(items[i + 1..]));
        acc := acc + [n.value];
      }
      i := i + 1;
    }
    assert items[i..] == [] && acc + [] == acc;
    return Some(acc);
  }

  ghost function After(acc: seq<nat>, rest: Option<seq<nat>>): Option<seq<nat>> {
    if rest.Some? then Some(acc + rest.value) else None
  }

  lemma {:induction false} AfterNone(rest: Option<seq<nat>>)
    ensures After([], rest) == rest
  {
    assert rest.Some? ==> [] + rest.value == rest.value;
  }

  lemma {:induction false} AfterOne(acc: seq<nat>, n: nat, rest: Option<seq<nat>>)
    ensures After(acc, if rest.Some? then Some([n] + rest.value) else None) == After(acc + [n], rest)
  {
    if rest.Some? {
      ConcatAssociative(acc, [n], rest.value);
    }
  }
}
