/**
 Instruction dependency records as protobuf messages (src/proto/inst_dep_record.proto, in the
 wire format of the Protocol Buffers Encoding specification): every field is a varint behind
 the varint of its number and wire type 0, and a repeated field is written once for each item.
 */
module Wire {
  import opened Bits
  import opened DepRecord
  import opened DepTrace
  import opened Protolib
  import opened Results
  import opened Sequences

  const TWO64: int := 0x1_0000_0000_0000_0000

  /** A field number and its value. */
  datatype Field = Field(number: nat, value: nat)

  // ---------------------------------------------------------------- records as fields

  function TypeNumber(k: RecordType): nat {
    match k
    case INVALID => 0
    case LOAD => 1
    case STORE => 2
    case COMP => 3
  }

  function Present(number: nat, o: Option<nat>): seq<Field> {
    if o.Some? then [Field(number, o.value)] else []
  }

  function Repeated(number: nat, ds: seq<nat>): (fs: seq<Field>)
    ensures |fs| == |ds| && forall i :: 0 <= i < |ds| ==> fs[i] == Field(number, ds[i])
  {
    seq(|ds|, i requires 0 <= i < |ds| => Field(number, ds[i]))
  }

  /** The fields in front of the order dependencies, and those behind the register dependencies. */
  function Front(r: Record): seq<Field> {
    [Field(1, r.seqNum)] + ([Field(2, TypeNumber(r.kind))]
    + (Present(3, r.pAddr) + (Present(4, r.size) + (Present(5, r.flags) + []))))
  }

  function Back(r: Record): seq<Field> {
    Present(9, r.weight) + (Present(10, r.pc) + (Present(11, r.vAddr) + (Present(12, r.asid) + [])))
  }

  /** A record's fields in the order of their numbers. */
  function FieldsOf(r: Record): seq<Field> {
    Front(r) + (Repeated(6, r.robDep) + ([Field(7, r.compDelay)] + (Repeated(8, r.regDep) + Back(r))))
  }

  /** Reading one field: a later value replaces an earlier one, or is appended; unknown ones are skipped. */
  function Read(r: Record, f: Field): Record {
    var long, short := f.value % TWO64, f.value % TWO32;
    match f.number
    case 1 => r.(seqNum := long)
    case 2 =>
      if f.value == 0 then r.(kind := INVALID)
      else if f.value == 1 then r.(kind := LOAD)
      else if f.value == 2 then r.(kind := STORE)
      else if f.value == 3 then r.(kind := COMP)
      else r
    case 3 => r.(pAddr := Some(long))
    case 4 => r.(size := Some(short))
    case 5 => r.(flags := Some(short))
    case 6 => r.(robDep := r.robDep + [long])
    case 7 => r.(compDelay := long)
    case 8 => r.(regDep := r.regDep + [long])
    case 9 => r.(weight := Some(short))
    case 10 => r.(pc := Some(long))
    case 11 => r.(vAddr := Some(long))
    case 12 => r.(asid := Some(short))
    case _ => r
  }

  function ReadAll(r: Record, fs: seq<Field>): Record
    decreases |fs|
  {
    if fs == [] then r else ReadAll(Read(r, fs[0]), fs[1..])
  }

  const EMPTY := Record(0, INVALID, None, None, None, [], 0, [], None, None, None, None)

  predicate Below(o: Option<nat>, bound: int) {
    o.Some? ==> o.value < bound
  }

  predicate AllBelow(ds: seq<nat>, bound: int) {
    forall i :: 0 <= i < |ds| ==> ds[i] < bound
  }

  /** The widths of the fields. */
  predicate InWidth(r: Record) {
    && r.seqNum < TWO64 && r.compDelay < TWO64 && AllBelow(r.robDep, TWO64) && AllBelow(r.regDep, TWO64)
    && Below(r.pAddr, TWO64) && Below(r.size, TWO32) && Below(r.flags, TWO32)
    && Below(r.weight, TWO32) && Below(r.pc, TWO64) && Below(r.vAddr, TWO64) && Below(r.asid, TWO32)
  }

  lemma {:induction false} ReadConcat(r: Record, a: seq<Field>, b: seq<Field>)
    ensures ReadAll(r, a + b) == ReadAll(ReadAll(r, a), b)
    decreases |a|
  {
    if a == [] {
      assert a + b == b;
    } else {
      assert (a + b)[0] == a[0] && (a + b)[1..] == a[1..] + b;
      ReadConcat(Read(r, a[0]), a[1..], b);
    }
  }

  lemma {:induction false} ReadFirst(r: Record, f: Field, rest: seq<Field>)
    ensures ReadAll(r, [f] + rest) == ReadAll(Read(r, f), rest)
  {
    assert ([f] + rest)[1..] == rest;
  }

  lemma {:induction false} ReadPresent(r: Record, number: nat, o: Option<nat>, rest: seq<Field>)
    ensures ReadAll(r, Present(number, o) + rest)
         == ReadAll(if o.Some? then Read(r, Field(number, o.value)) else r, rest)
  {
    if o.Some? {
      ReadFirst(r, Field(number, o.value), rest);
    } else {
      assert [] + rest == rest;
    }
  }

  lemma {:induction false} ReadPAddr(e: Record, o: Option<nat>, rest: seq<Field>)
    requires e.pAddr == None && Below(o, TWO64)
    ensures ReadAll(e, Present(3, o) + rest) == ReadAll(e.(pAddr := o), rest)
  {
    ReadPresent(e, 3, o, rest);
  }

  lemma {:induction false} ReadSize(e: Record, o: Option<nat>, rest: seq<Field>)
    requires e.size == None && Below(o, TWO32)
    ensures ReadAll(e, Present(4, o) + rest) == ReadAll(e.(size := o), rest)
  {
    ReadPresent(e, 4, o, rest);
  }

  lemma {:induction false} ReadFlags(e: Record, o: Option<nat>, rest: seq<Field>)
    requires e.flags == None && Below(o, TWO32)
    ensures ReadAll(e, Present(5, o) + rest) == ReadAll(e.(flags := o), rest)
  {
    ReadPresent(e, 5, o, rest);
  }

  lemma {:induction false} ReadWeight(e: Record, o: Option<nat>, rest: seq<Field>)
    requires e.weight == None && Below(o, TWO32)
    ensures ReadAll(e, Present(9, o) + rest) == ReadAll(e.(weight := o), rest)
  {
    ReadPresent(e, 9, o, rest);
  }

  lemma {:induction false} ReadPc(e: Record, o: Option<nat>, rest: seq<Field>)
    requires e.pc == None && Below(o, TWO64)
    ensures ReadAll(e, Present(10, o) + rest) == ReadAll(e.(pc := o), rest)
  {
    ReadPresent(e, 10, o, rest);
  }

  lemma {:induction false} ReadVAddr(e: Record, o: Option<nat>, rest: seq<Field>)
    requires e.vAddr == None && Below(o, TWO64)
    ensures ReadAll(e, Present(11, o) + rest) == ReadAll(e.(vAddr := o), rest)
  {
    ReadPresent(e, 11, o, rest);
  }

  lemma {:induction false} ReadAsid(e: Record, o: Option<nat>, rest: seq<Field>)
    requires e.asid == None && Below(o, TWO32)
    ensures ReadAll(e, Present(12, o) + rest) == ReadAll(e.(asid := o), rest)
  {
    ReadPresent(e, 12, o, rest);
  }

  lemma {:induction false} ReadRobs(r: Record, ds: seq<nat>)
    requires AllBelow(ds, TWO64)
    ensures ReadAll(r, Repeated(6, ds)) == r.(robDep := r.robDep + ds)
    decreases |ds|
  {
    if ds == [] {
      assert r.robDep + [] == r.robDep;
    } else {
      assert Repeated(6, ds)[1..] == Repeated(6, ds[1..]);
      ReadRobs(r.(robDep := r.robDep + [ds[0]]), ds[1..]);
      assert r.robDep + [ds[0]] + ds[1..] == r.robDep + ds;
    }
  }

  lemma {:induction false} ReadRegs(r: Record, ds: seq<nat>)
    requires AllBelow(ds, TWO64)
    ensures ReadAll(r, Repeated(8, ds)) == r.(regDep := r.regDep + ds)
    decreases |ds|
  {
    if ds == [] {
      assert r.regDep + [] == r.regDep;
    } else {
      assert Repeated(8, ds)[1..] == Repeated(8, ds[1..]);
      ReadRegs(r.(regDep := r.regDep + [ds[0]]), ds[1..]);
      assert r.regDep + [ds[0]] + ds[1..] == r.regDep + ds;
    }
  }

  lemma {:induction false} ReadRobsThen(e: Record, ds: seq<nat>, rest: seq<Field>)
    requires AllBelow(ds, TWO64) && e.robDep == []
    ensures ReadAll(e, Repeated(6, ds) + rest) == ReadAll(e.(robDep := ds), rest)
  {
    assert [] + ds == ds;
    ReadConcat(e, Repeated(6, ds), rest);
    ReadRobs(e, ds);
  }

  lemma {:induction false} ReadRegsThen(e: Record, ds: seq<nat>, rest: seq<Field>)
    requires AllBelow(ds, TWO64) && e.regDep == []
    ensures ReadAll(e, Repeated(8, ds) + rest) == ReadAll(e.(regDep := ds), rest)
  {
    assert [] + ds == ds;
    ReadConcat(e, Repeated(8, ds), rest);
    ReadRegs(e, ds);
  }

  lemma {:induction false} ReadFront(r: Record)
    requires InWidth(r)
    ensures ReadAll(EMPTY, Front(r))
         == EMPTY.(seqNum := r.seqNum, kind := r.kind, pAddr := r.pAddr, size := r.size, flags := r.flags)
  {
    var f2, f5 := Field(2, TypeNumber(r.kind)), Present(5, r.flags) + [];
    var f4 := Present(4, r.size) + f5;
    var f3 := Present(3, r.pAddr) + f4;
    var e1 := EMPTY.(seqNum := r.seqNum);
    var e2 := e1.(kind := r.kind);
    var e3 := e2.(pAddr := r.pAddr);
    var e4 := e3.(size := r.size);
    ReadFirst(EMPTY, Field(1, r.seqNum), [f2] + f3);
    ReadFirst(e1, f2, f3);
    ReadPAddr(e2, r.pAddr, f4);
    ReadSize(e3, r.size, f5);
    ReadFlags(e4, r.flags, []);
  }

  lemma {:induction false} ReadBack(e: Record, r: Record)
    requires InWidth(r) && e.weight == None && e.pc == None && e.vAddr == None && e.asid == None
    ensures ReadAll(e, Back(r)) == e.(weight := r.weight, pc := r.pc, vAddr := r.vAddr, asid := r.asid)
  {
    var f12 := Present(12, r.asid) + [];
    var f11 := Present(11, r.vAddr) + f12;
    var f10 := Present(10, r.pc) + f11;
    var e1 := e.(weight := r.weight);
    var e2 := e1.(pc := r.pc);
    var e3 := e2.(vAddr := r.vAddr);
    ReadWeight(e, r.weight, f10);
    ReadPc(e1, r.pc, f11);
    ReadVAddr(e2, r.vAddr, f12);
    ReadAsid(e3, r.asid, []);
  }

  /** Reading past the repeated fields, which are appended to what is there. */
  lemma {:induction false} ReadMiddle(e: Record, r: Record, rest: seq<Field>)
    requires InWidth(r) && e.robDep == [] && e.regDep == []
    ensures ReadAll(e, Repeated(6, r.robDep) + ([Field(7, r.compDelay)] + (Repeated(8, r.regDep) + rest)))
         == ReadAll(e.(robDep := r.robDep, compDelay := r.compDelay, regDep := r.regDep), rest)
  {
    var e1 := e.(robDep := r.robDep);
    var e2 := e1.(compDelay := r.compDelay);
    ReadRobsThen(e, r.robDep, [Field(7, r.compDelay)] + (Repeated(8, r.regDep) + rest));
    ReadFirst(e1, Field(7, r.compDelay), Repeated(8, r.regDep) + rest);
    ReadRegsThen(e2, r.regDep, rest);
  }

  /** The fields of a record give it back. */
  lemma {:induction false} FieldsRoundTrip(r: Record)
    requires InWidth(r)
    ensures ReadAll(EMPTY, FieldsOf(r)) == r
  {
    var e := EMPTY.(seqNum := r.seqNum, kind := r.kind, pAddr := r.pAddr, size := r.size, flags := r.flags);
    var middle := Repeated(6, r.robDep) + ([Field(7, r.compDelay)] + (Repeated(8, r.regDep) + Back(r)));
    ReadConcat(EMPTY, Front(r), middle);
    ReadFront(r);
    ReadMiddle(e, r, Back(r));
    ReadBack(e.(robDep := r.robDep, compDelay := r.compDelay, regDep := r.regDep), r);
  }

  // ---------------------------------------------------------------- fields as bytes

  function FieldBytes(f: Field): seq<byte> {
    EncodeVarint(8 * f.number) + EncodeVarint(f.value)
  }

  function Bytes(fs: seq<Field>): seq<byte> {
    if fs == [] then [] else FieldBytes(fs[0]) + Bytes(fs[1..])
  }

  datatype Number = Truncated | Number(value: nat, rest: seq<byte>)

  function ReadNumber(s: seq<byte>): (n: Number)
    ensures n.Number? ==> |n.rest| < |s|
  {
    var k := Lead(s);
    if k == |s| then Truncated else Number(Raw(s[..k + 1]), s[k + 1..])
  }

  /** The fields in a message, up to the first that is cut off. */
  function FieldsIn(s: seq<byte>): seq<Field>
    decreases |s|
  {
    var key := ReadNumber(s);
    if key.Truncated? then []
    else
      var value := ReadNumber(key.rest);
      if value.Truncated? then [] else [Field(key.value / 8, value.value)] + FieldsIn(value.rest)
  }

  lemma {:induction false} ReadNumberOf(v: nat, rest: seq<byte>)
    ensures ReadNumber(EncodeVarint(v) + rest) == Number(v, rest)
  {
    var e := EncodeVarint(v);
    EncodeShape(v, rest);
    assert (e + rest)[..|e|] == e && (e + rest)[|e|..] == rest;
  }

  lemma {:induction false} FieldsInStep(s: seq<byte>, t: seq<byte>, f: Field, rest: seq<byte>)
    requires ReadNumber(s) == Number(8 * f.number, t) && ReadNumber(t) == Number(f.value, rest)
    ensures FieldsIn(s) == [f] + FieldsIn(rest)
  {
  }

  lemma {:induction false} FieldsInFirst(f: Field, rest: seq<byte>)
    ensures FieldsIn(FieldBytes(f) + rest) == [f] + FieldsIn(rest)
  {
    var key, value := EncodeVarint(8 * f.number), EncodeVarint(f.value);
    ConcatAssociative(key, value, rest);
    ReadNumberOf(8 * f.number, value + rest);
    ReadNumberOf(f.value, rest);
    FieldsInStep(FieldBytes(f) + rest, value + rest, f, rest);
  }

  lemma {:induction false} FieldsInBytes(fs: seq<Field>)
    ensures FieldsIn(Bytes(fs)) == fs
  {
    if fs == [] {
      assert FieldsIn([]) == [];
    } else {
      FieldsInBytes(fs[1..]);
      FieldsInFirst(fs[0], Bytes(fs[1..]));
      BytesFirst(fs);
      assert fs == [fs[0]] + fs[1..];
    }
  }

  lemma {:induction false} BytesFirst(fs: seq<Field>)
    requires fs != []
    ensures Bytes(fs) == FieldBytes(fs[0]) + Bytes(fs[1..])
  {
  }

  // ---------------------------------------------------------------- records as bytes

  /** `SerializeToString`. */
  function Serialize(r: Record): seq<byte> {
    Bytes(FieldsOf(r))
  }

  /** `ParseFromString`. */
  function Deserialize(s: seq<byte>): Record {
    ReadAll(EMPTY, FieldsIn(s))
  }

  lemma {:induction false} OneByteField(f: Field, rest: seq<Field>)
    requires 8 * f.number < 128 && f.value < 128
    ensures Bytes([f] + rest) == [8 * f.number, f.value] + Bytes(rest)
  {
    assert ([f] + rest)[1..] == rest;
  }

  lemma {:induction false} OneByteFields(fs: seq<Field>)
    requires forall i :: 0 <= i < |fs| ==> 8 * fs[i].number < 128 && fs[i].value < 128
    ensures |Bytes(fs)| == 2 * |fs|
    ensures forall i :: 0 <= i < |fs| ==> Bytes(fs)[2 * i] == 8 * fs[i].number && Bytes(fs)[2 * i + 1] == fs[i].value
  {
    if fs != [] {
      assert fs == [fs[0]] + fs[1..];
      OneByteField(fs[0], fs[1..]);
      OneByteFields(fs[1..]);
      forall i | 0 < i < |fs|
        ensures Bytes(fs)[2 * i] == 8 * fs[i].number && Bytes(fs)[2 * i + 1] == fs[i].value
      {
        assert Bytes(fs)[2 * i] == Bytes(fs[1..])[2 * (i - 1)];
        assert Bytes(fs)[2 * i + 1] == Bytes(fs[1..])[2 * (i - 1) + 1];
      }
    }
  }

  /** The fields of a record that has each of them once, with the numbers of inst_dep_record.proto. */
  lemma {:induction false} FieldNumbers(r: Record)
    requires r.pAddr.Some? && r.size.Some? && r.flags.Some? && |r.robDep| == |r.regDep| == 1
    requires r.weight.Some? && r.pc.Some? && r.vAddr.Some? && r.asid.Some?
    ensures FieldsOf(r)
         == [Field(1, r.seqNum),
             Field(2, if r.kind == INVALID then 0 else if r.kind == LOAD then 1 else if r.kind == STORE then 2 else 3),
             Field(3, r.pAddr.value), Field(4, r.size.value),
             Field(5, r.flags.value), Field(6, r.robDep[0]), Field(7, r.compDelay), Field(8, r.regDep[0]),
             Field(9, r.weight.value), Field(10, r.pc.value), Field(11, r.vAddr.value), Field(12, r.asid.value)]
  {
    var front := [Field(1, r.seqNum), Field(2, TypeNumber(r.kind)), Field(3, r.pAddr.value), Field(4, r.size.value),
                  Field(5, r.flags.value)];
    var back := [Field(9, r.weight.value), Field(10, r.pc.value), Field(11, r.vAddr.value), Field(12, r.asid.value)];
    assert Front(r) == front && Back(r) == back;
    assert Repeated(6, r.robDep) == [Field(6, r.robDep[0])] && Repeated(8, r.regDep) == [Field(8, r.regDep[0])];
  }

  /** Every record within its field widths comes back. */
  lemma {:induction false} RecordRoundTrip(r: Record)
    requires InWidth(r)
    ensures Deserialize(Serialize(r)) == r
  {
    FieldsInBytes(FieldsOf(r));
    FieldsRoundTrip(r);
  }

  predicate SmallFields(fs: seq<Field>) {
    forall i :: 0 <= i < |fs| ==> 1 <= fs[i].number <= 12 && fs[i].value < TWO64
  }

  lemma {:induction false} FieldSize(f: Field)
    requires 1 <= f.number <= 12 && f.value < TWO64
    ensures 1 <= |FieldBytes(f)| <= 11
  {
    Pow2Constants();
    EncodeLength(f.value, 10);
    assert |EncodeVarint(8 * f.number)| == 1;
  }

  lemma {:induction false} BytesSize(fs: seq<Field>)
    requires SmallFields(fs)
    ensures |Bytes(fs)| <= 11 * |fs| && (fs != [] ==> |Bytes(fs)| > 0)
  {
    if fs != [] {
      FieldSize(fs[0]);
      BytesSize(fs[1..]);
    }
  }

  /** Few enough dependencies for a message of less than 4 GB. */
  predicate FewDeps(r: Record) {
    11 * (10 + |r.robDep| + |r.regDep|) < TWO32
  }

  lemma {:induction false} SmallConcat(a: seq<Field>, b: seq<Field>)
    requires SmallFields(a) && SmallFields(b)
    ensures SmallFields(a + b)
  {
  }

  lemma {:induction false} SmallPresent(number: nat, o: Option<nat>, rest: seq<Field>)
    requires 1 <= number <= 12 && Below(o, TWO64) && SmallFields(rest)
    ensures SmallFields(Present(number, o) + rest) && |Present(number, o) + rest| <= |rest| + 1
  {
    SmallConcat(Present(number, o), rest);
  }

  lemma {:induction false} FrontSize(r: Record)
    requires InWidth(r)
    ensures SmallFields(Front(r)) && 2 <= |Front(r)| <= 5
  {
    var f5 := Present(5, r.flags) + [];
    var f4 := Present(4, r.size) + f5;
    SmallPresent(5, r.flags, []);
    SmallPresent(4, r.size, f5);
    SmallPresent(3, r.pAddr, f4);
    SmallConcat([Field(2, TypeNumber(r.kind))], Present(3, r.pAddr) + f4);
    SmallConcat([Field(1, r.seqNum)], [Field(2, TypeNumber(r.kind))] + (Present(3, r.pAddr) + f4));
  }

  lemma {:induction false} BackSize(r: Record)
    requires InWidth(r)
    ensures SmallFields(Back(r)) && |Back(r)| <= 4
  {
    var f12 := Present(12, r.asid) + [];
    var f11 := Present(11, r.vAddr) + f12;
    SmallPresent(12, r.asid, []);
    SmallPresent(11, r.vAddr, f12);
    SmallPresent(10, r.pc, f11);
    SmallPresent(9, r.weight, Present(10, r.pc) + f11);
  }

  lemma {:induction false} RecordSize(r: Record)
    requires InWidth(r) && FewDeps(r)
    ensures 0 < |Serialize(r)| < TWO32
  {
    var last := Repeated(8, r.regDep) + Back(r);
    FrontSize(r);
    BackSize(r);
    SmallConcat(Repeated(8, r.regDep), Back(r));
    SmallConcat([Field(7, r.compDelay)], last);
    SmallConcat(Repeated(6, r.robDep), [Field(7, r.compDelay)] + last);
    SmallConcat(Front(r), Repeated(6, r.robDep) + ([Field(7, r.compDelay)] + last));
    BytesSize(FieldsOf(r));
  }

  /** The wire format carries every trace of records within their widths. */
  lemma {:induction false} WireCarries(rs: seq<Record>)
    requires forall i :: 0 <= i < |rs| ==> InWidth(rs[i]) && FewDeps(rs[i])
    ensures Carries(rs, Serialize, Deserialize)
  {
    forall i | 0 <= i < |rs| ensures Deserialize(Serialize(rs[i])) == rs[i] && 0 < |Serialize(rs[i])| < TWO32 {
      RecordRoundTrip(rs[i]);
      RecordSize(rs[i]);
    }
  }

  lemma {:induction false} DefaultedInWidth(rs: seq<Record>)
    requires forall i :: 0 <= i < |rs| ==> InWidth(rs[i]) && FewDeps(rs[i])
    ensures var ds := AllDefaulted(rs);
            |ds| == |rs| && forall i :: 0 <= i < |ds| ==> InWidth(ds[i]) && FewDeps(ds[i])
  {
    if rs != [] {
      DefaultedInWidth(rs[1..]);
      assert InWidth(Defaulted(rs[0])) && FewDeps(Defaulted(rs[0]));
    }
  }

  /**
   The tools on real messages: for every trace of printable records within their field widths,
   file to text to file and back gives the same records with their defaults.
   */
  lemma {:induction false} WireTraceRoundTrip(header: seq<byte>, header': seq<byte>, rs: seq<Record>)
    requires 0 < |header| < TWO32 && 0 < |header'| < TWO32
    requires forall i :: 0 <= i < |rs| ==> Printable(rs[i]) && InWidth(rs[i]) && FewDeps(rs[i])
    ensures RecordsIn(FileOf(header, rs, Serialize), Deserialize) == Some(rs)
    ensures RecordsOf(LinesOf(TextOf(rs))) == Some(AllDefaulted(rs))
    ensures RecordsIn(FileOf(header', AllDefaulted(rs), Serialize), Deserialize) == Some(AllDefaulted(rs))
  {
    WireCarries(rs);
    DefaultedInWidth(rs);
    WireCarries(AllDefaulted(rs));
    TraceRoundTrip(header, header', rs, Serialize, Deserialize);
  }
}
