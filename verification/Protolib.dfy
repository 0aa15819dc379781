/**
 Length-prefixed protobuf messages (util/protolib.py): the "Base 128 Varints" of the
 Protocol Buffers Encoding specification, read with the 64-bit and 32-bit handling of
 the library's decoder, and the message framing on top.
 */
module Protolib {
  import opened Arithmetic
  import opened Bits
  import opened Results
  import opened Sequences

  const TWO32: int := 0x1_0000_0000
  const MAX63: int := 0x7FFF_FFFF_FFFF_FFFF

  // ---------------------------------------------------------------- varints, declaratively

  /** The base-128 sum of the low seven bits, least significant first. */
  function Raw(bs: seq<byte>): nat {
    if bs == [] then 0 else bs[0] % 128 + 128 * Raw(bs[1..])
  }

  /** How many continuation bytes (high bit set) the stream starts with. */
  function Lead(s: seq<byte>): (n: nat)
    ensures n <= |s|
    ensures forall i :: 0 <= i < n ==> s[i] >= 128
    ensures n < |s| ==> s[n] < 128
  {
    if s == [] || s[0] < 128 then 0 else 1 + Lead(s[1..])
  }

  datatype Varint = EndOfFile | TooLong | Value(value: int, used: nat)

  /** The value of a raw sum: reduced to 32 bits, and negative when bit 63 or above is set. */
  function Wrap(raw: nat): int {
    if raw > MAX63 then raw % TWO32 - TWO32 else raw % TWO32
  }

  function DecodeVarint(s: seq<byte>): Varint {
    var n := Lead(s);
    if n >= 10 then TooLong
    else if n == |s| then EndOfFile
    else Value(Wrap(Raw(s[..n + 1])), n + 1)
  }

  function EncodeVarint(v: nat): seq<byte> {
    if v < 128 then [v] else [128 + v % 128] + EncodeVarint(v / 128)
  }

  // ---------------------------------------------------------------- files

  /** A file being read: `pos` is the read position. */
  class InFile {
    const data: seq<byte>
    var pos: nat

    constructor (data: seq<byte>)
      ensures this.data == data && pos == 0
    {
      this.data := data;
      pos := 0;
    }

    ghost predicate Valid()
      reads this
    {
      pos <= |data|
    }

    ghost function Rest(): seq<byte>
      reads this
      requires Valid()
    {
      data[pos..]
    }

    /** `read(n)`: at most `n` bytes, everything that is left for -1, and None, a ValueError, below -1. */
    method Read(n: int) returns (buf: Option<seq<byte>>)
      requires Valid()
      modifies this
      ensures Valid()
      ensures var rest := old(Rest());
              var k := if n < 0 || n > |rest| then |rest| else n;
              if n < -1 then buf == None && Rest() == rest
              else buf == Some(rest[..k]) && Rest() == rest[k..]
    {
      if n < -1 {
        return None;
      }
      var k := if n < 0 || n > |data| - pos then |data| - pos else n;
      assert data[pos..][..k] == data[pos..pos + k] && data[pos..][k..] == data[pos + k..];
      buf := Some(data[pos..pos + k]);
      pos := pos + k;
    }
  }

  /** A file being written. */
  class OutFile {
    var data: seq<byte>

    constructor ()
      ensures data == []
    {
      data := [];
    }

    method Write(bs: seq<byte>)
      modifies this
      ensures data == old(data) + bs
    {
      data := data + bs;
    }
  }

  // ---------------------------------------------------------------- the codec as written

  lemma {:induction false} RawAppend(bs: seq<byte>, b: byte)
    ensures Raw(bs + [b]) == Raw(bs) + b % 128 * Pow2(7 * |bs|)
  {
    if bs == [] {
      assert bs + [b] == [b];
    } else {
      assert (bs + [b])[1..] == bs[1..] + [b];
      RawAppend(bs[1..], b);
      Pow2Step(|bs| - 1);
      var p := Pow2(7 * (|bs| - 1));
      assert 128 * (b % 128 * p) == b % 128 * (128 * p);
    }
  }

  lemma {:induction false} Pow2Step(n: nat)
    ensures Pow2(7 * (n + 1)) == 128 * Pow2(7 * n)
  {
    var k := 7 * n;
    assert Pow2(k + 7) == 2 * Pow2(k + 6) == 4 * Pow2(k + 5) == 8 * Pow2(k + 4);
    assert Pow2(k + 4) == 2 * Pow2(k + 3) == 4 * Pow2(k + 2) == 8 * Pow2(k + 1);
  }

  lemma {:induction false} RawBound(bs: seq<byte>)
    ensures Raw(bs) < Pow2(7 * |bs|)
  {
    if bs != [] {
      RawBound(bs[1..]);
      Pow2Step(|bs| - 1);
    }
  }

  /** One byte more: `result |= (b & 0x7F) << shift` extends the raw sum. */
  lemma {:induction false} DecodeStep(bs: seq<byte>, b: byte)
    ensures Or(Raw(bs), Shl(And(b, 0x7F), 7 * |bs|)) == Raw(bs + [b])
  {
    Pow2Constants();
    AndMask(b, 7);
    RawBound(bs);
    OrDisjoint(Raw(bs), b % 128, 7 * |bs|);
    RawAppend(bs, b);
  }

  lemma {:induction false} HighBit(b: byte)
    ensures And(b, 0x80) == 0 <==> b < 128
  {
    Pow2Constants();
    AndSingleBit(b, 7);
  }

  /** The two ways the decoder narrows a finished sum. */
  lemma {:induction false} NarrowLow(raw: nat)
    ensures And(raw, 0xFFFF_FFFF) == raw % TWO32
  {
    Pow2Constants();
    AndMask(raw, 32);
  }

  lemma {:induction false} NarrowHigh(raw: nat)
    ensures Or(raw - Shl(1, 64), Not(0xFFFF_FFFF)) == raw % TWO32 - TWO32
  {
    Pow2Constants();
    OrHighBits(raw - Pow2(64), 32);
    ModOfMultiple(raw, -TWO32, TWO32);
  }

  /** The first byte without the high bit ends the number. */
  lemma {:induction false} DecodeTerminated(s: seq<byte>, n: nat)
    requires n < 10 && n < |s| && s[n] < 128 && forall i :: 0 <= i < n ==> s[i] >= 128
    ensures DecodeVarint(s) == Value(Wrap(Raw(s[..n + 1])), n + 1)
  {
    assert Lead(s) == n;
  }

  lemma {:induction false} DecodeUnterminated(s: seq<byte>, n: nat)
    requires n <= |s| && forall i :: 0 <= i < n ==> s[i] >= 128
    ensures n == 10 ==> DecodeVarint(s) == TooLong
    ensures n == |s| < 10 ==> DecodeVarint(s) == EndOfFile
  {
    assert Lead(s) >= n;
  }

  /** The finishing branch: what is returned for a raw sum. */
  method Finish(raw: nat) returns (result: int)
    ensures result == Wrap(raw)
  {
    NarrowLow(raw);
    NarrowHigh(raw);
    result := raw;
    if result > 0x7FFF_FFFF_FFFF_FFFF {
      result := result - Shl(1, 64);
      result := Or(result, Not(0xFFFF_FFFF));
    } else {
      result := And(result, 0xFFFF_FFFF);
    }
  }

  /** The accumulating statement of the decoder, on the bytes `bs` read before. */
  method Accumulate(result: nat, b: byte, shift: nat, ghost bs: seq<byte>) returns (r: int)
    requires result == Raw(bs) && shift == 7 * |bs|
    ensures r == Raw(bs + [b])
  {
    DecodeStep(bs, b);
    r := Or(result, Shl(And(b, 0x7F), shift));
  }

  method EndsVarint(b: byte) returns (last: bool)
    ensures last <==> b < 128
  {
    HighBit(b);
    last := And(b, 0x80) == 0;
  }

  /** The next byte of the number, if there is one. */
  method DecodeByte(f: InFile, result: nat, shift: nat, ghost pos: nat, ghost s: seq<byte>)
    returns (b: Option<byte>, r: nat)
    requires f.Valid() && pos <= |s| && f.Rest() == s[pos..] && result == Raw(s[..pos]) && shift == 7 * pos
    modifies f
    ensures f.Valid()
    ensures b == None ==> pos == |s| && f.Rest() == [] && r == result
    ensures b.Some? ==> pos < |s| && b.value == s[pos] && f.Rest() == s[pos + 1..] && r == Raw(s[..pos + 1])
  {
    var c := f.Read(1);
    if |c.value| == 0 {
      return None, result;
    }
    assert s[..pos + 1] == s[..pos] + [s[pos]];
    r := Accumulate(result, c.value[0], shift, s[..pos]);
    return Some(c.value[0]), r;
  }

  /** `_DecodeVarint32`. The error and the end of file are results here. */
  method DecodeVarint32(f: InFile) returns (v: Varint)
    requires f.Valid()
    modifies f
    ensures f.Valid()
    ensures v == DecodeVarint(old(f.Rest()))
    ensures v.Value? ==> v.used <= |old(f.Rest())| && f.Rest() == old(f.Rest())[v.used..]
    ensures v.TooLong? ==> |old(f.Rest())| >= 10 && f.Rest() == old(f.Rest())[10..]
    ensures v.EndOfFile? ==> f.Rest() == []
  {
    ghost var s := f.Rest();
    var result, shift, pos := 0, 0, 0;
    while true
      invariant 0 <= pos < 10 && pos <= |s| && shift == 7 * pos
      invariant f.Valid() && f.Rest() == s[pos..]
      invariant result == Raw(s[..pos])
      invariant forall i :: 0 <= i < pos ==> s[i] >= 128
      decreases 10 - pos
    {
      var b;
      b, result := DecodeByte(f, result, shift, pos, s);
      DecodeUnterminated(s, pos);
      if b == None {
        return EndOfFile;
      }
      pos := pos + 1;
      var last := EndsVarint(b.value);
      if last {
        DecodeTerminated(s, pos - 1);
        result := Finish(result);
        return Value(result, pos);
      }
      shift := shift + 7;
      if shift >= 64 {
        DecodeUnterminated(s, pos);
        return TooLong;
      }
    }
  }

  /** `bits = value & 0x7F; value >>= 7`. */
  method TakeSeven(v: nat) returns (bits: byte, rest: nat)
    ensures bits == v % 128 && rest == v / 128
  {
    Pow2Constants();
    AndMask(v, 7);
    bits, rest := And(v, 0x7F), Shr(v, 7);
  }

  /** `0x80 | bits`. */
  method Continue(bits: byte) returns (b: byte)
    requires bits < 128
    ensures b == 128 + bits
  {
    Pow2Constants();
    OrDisjoint(bits, 1, 7);
    OrCommutes(0x80, bits);
    b := Or(0x80, bits);
  }

  lemma {:induction false} EncodeCons(bits: nat, v: nat)
    requires bits < 128 && v > 0
    ensures EncodeVarint(bits + 128 * v) == [128 + bits] + EncodeVarint(v)
  {
    assert (bits + 128 * v) / 128 == v && (bits + 128 * v) % 128 == bits;
  }

  /** `_EncodeVarint32`, on the lengths it is called with. */
  method EncodeVarint32(f: OutFile, value: nat)
    modifies f
    ensures f.data == old(f.data) + EncodeVarint(value)
  {
    var bits, v := TakeSeven(value);
    ghost var written: seq<byte> := [];
    while v != 0
      invariant bits < 128
      invariant f.data == old(f.data) + written
      invariant EncodeVarint(value) == written + EncodeVarint(bits + 128 * v)
      decreases v
    {
      var b := Continue(bits);
      EncodeCons(bits, v);
      ConcatAssociative(written, [b], EncodeVarint(v));
      ConcatAssociative(old(f.data), written, [b]);
      f.Write([b]);
      written := written + [b];
      bits, v := TakeSeven(v);
    }
    f.Write([bits]);
  }

  // ---------------------------------------------------------------- varint round trip

  lemma {:induction false} EncodeShape(v: nat, rest: seq<byte>)
    ensures EncodeVarint(v) != []
    ensures Lead(EncodeVarint(v) + rest) == |EncodeVarint(v)| - 1
    ensures Raw(EncodeVarint(v)) == v
  {
    var s := EncodeVarint(v) + rest;
    if v >= 128 {
      EncodeShape(v / 128, rest);
      assert s[1..] == EncodeVarint(v / 128) + rest;
      assert EncodeVarint(v)[1..] == EncodeVarint(v / 128);
    } else {
      assert s[0] == v;
    }
  }

  /** `n` bytes hold exactly the numbers below 128^n. */
  lemma {:induction false} EncodeLength(v: nat, n: nat)
    requires n > 0
    ensures |EncodeVarint(v)| <= n <==> v < Pow2(7 * n)
  {
    Pow2Step(n - 1);
    if n == 1 {
      Pow2Constants();
      if v >= 128 {
        EncodeShape(v / 128, []);
      }
    } else if v >= 128 {
      EncodeLength(v / 128, n - 1);
    } else {
      Pow2AtLeast(n);
    }
  }

  lemma {:induction false} Pow2AtLeast(n: nat)
    requires n > 0
    ensures Pow2(7 * n) >= 128
  {
    Pow2Step(n - 1);
  }

  /** What the decoder makes of an encoded number, for every number and whatever follows it. */
  lemma {:induction false} DecodeOfEncode(v: nat, rest: seq<byte>)
    ensures DecodeVarint(EncodeVarint(v) + rest)
         == if v < Pow2(70) then Value(Wrap(v), |EncodeVarint(v)|) else TooLong
  {
    var e := EncodeVarint(v);
    EncodeShape(v, rest);
    EncodeLength(v, 10);
    assert (e + rest)[..|e|] == e;
  }

  /** Exactly the 32-bit numbers come back unchanged. */
  lemma {:induction false} VarintRoundTripIff(v: nat, rest: seq<byte>)
    ensures DecodeVarint(EncodeVarint(v) + rest) == Value(v, |EncodeVarint(v)|) <==> v < TWO32
  {
    DecodeOfEncode(v, rest);
    Pow2Constants();
    WrapFixes(v);
  }

  lemma {:induction false} WrapFixes(v: nat)
    ensures Wrap(v) == v <==> v < TWO32
  {
  }

  /** The error is raised exactly on ten continuation bytes in a row. */
  lemma {:induction false} TooLongIff(s: seq<byte>)
    ensures DecodeVarint(s) == TooLong <==> |s| >= 10 && forall i :: 0 <= i < 10 ==> s[i] >= 128
  {
  }

  /**
   A terminated varint of at most ten bytes: the value agrees with the raw sum modulo 2^32,
   and its sign says whether the sum fitted into 63 bits.
   */
  lemma {:induction false} DecodedValue(bs: seq<byte>, last: byte, rest: seq<byte>)
    requires |bs| < 10 && last < 128 && forall i :: 0 <= i < |bs| ==> bs[i] >= 128
    ensures var raw := Raw(bs + [last]);
            var v := DecodeVarint(bs + [last] + rest);
            && v.Value? && v.used == |bs| + 1
            && v.value % TWO32 == raw % TWO32
            && (raw <= MAX63 ==> 0 <= v.value < TWO32)
            && (raw > MAX63 ==> -TWO32 <= v.value < 0)
  {
    var s := bs + [last] + rest;
    assert s[..|bs| + 1] == bs + [last];
    DecodeTerminated(s, |bs|);
    WrapRange(Raw(bs + [last]));
  }

  lemma {:induction false} WrapRange(raw: nat)
    ensures Wrap(raw) % TWO32 == raw % TWO32
    ensures raw <= MAX63 ==> 0 <= Wrap(raw) < TWO32
    ensures raw > MAX63 ==> -TWO32 <= Wrap(raw) < 0
  {
    ModOfMultiple(raw % TWO32, -1, TWO32);
  }

  // ---------------------------------------------------------------- message framing

  /** A payload behind its length. */
  function Frame(p: seq<byte>): seq<byte> {
    EncodeVarint(|p|) + p
  }

  function Frames(ps: seq<seq<byte>>): seq<byte> {
    if ps == [] then [] else Frame(ps[0]) + Frames(ps[1..])
  }

  datatype Next = Stop | Raises | Next(payload: seq<byte>, rest: seq<byte>)

  /**
   One `decodeMessage`: a size of zero, the end of the file and a bad length all stop; a size
   below -1 makes `read` raise an exception that is not caught.
   */
  function ReadFrame(s: seq<byte>): (r: Next)
    ensures r.Next? ==> |r.rest| < |s|
  {
    match DecodeVarint(s)
    case Value(size, used) =>
      var rest := s[used..];
      if size == 0 then Stop
      else if size < -1 then Raises
      else if size < 0 || size > |rest| then Next(rest, [])
      else Next(rest[..size], rest[size..])
    case _ => Stop
  }

  /** Where the file stands after one `decodeMessage`, also when it returned False. */
  function AfterFrame(s: seq<byte>): seq<byte> {
    var r := ReadFrame(s);
    if r.Next? then r.rest
    else
      match DecodeVarint(s)
      case Value(_, used) => s[used..]
      case TooLong => s[10..]
      case EndOfFile => []
  }

  /** Messages until `decodeMessage` returns False; None if it raises before that. */
  function ReadFrames(s: seq<byte>): Option<seq<seq<byte>>>
    decreases |s|
  {
    match ReadFrame(s)
    case Stop => Some([])
    case Raises => None
    case Next(payload, rest) =>
      var more := ReadFrames(rest);
      if more == None then None else Some([payload] + more.value)
  }

  /** `encodeMessage`, after serialisation. */
  method EncodeMessage(f: OutFile, payload: seq<byte>)
    modifies f
    ensures f.data == old(f.data) + Frame(payload)
  {
    EncodeVarint32(f, |payload|);
    f.Write(payload);
    ConcatAssociative(old(f.data), EncodeVarint(|payload|), payload);
  }

  /** `decodeMessage`, before parsing: a payload, or None for its False; `raised` if it does not return. */
  method DecodeMessage(f: InFile) returns (payload: Option<seq<byte>>, raised: bool)
    requires f.Valid()
    modifies f
    ensures f.Valid()
    ensures var r := ReadFrame(old(f.Rest()));
            raised == r.Raises? && payload == if r.Next? then Some(r.payload) else None
    ensures f.Rest() == AfterFrame(old(f.Rest()))
  {
    var v := DecodeVarint32(f);
    if !v.Value? || v.value == 0 {
      return None, false;
    }
    ghost var rest := f.Rest();
    assert rest[..|rest|] == rest && rest[|rest|..] == [];
    payload := f.Read(v.value);
    raised := payload == None;
  }

  lemma {:induction false} ReadFrameOf(p: seq<byte>, rest: seq<byte>)
    requires |p| <= MAX63
    ensures var size := |p| % TWO32;
            ReadFrame(Frame(p) + rest) == if size == 0 then Stop else Next(p[..size], p[size..] + rest)
  {
    var e := EncodeVarint(|p|);
    var size := |p| % TWO32;
    Pow2Constants();
    ConcatAssociative(e, p, rest);
    DecodeOfEncode(|p|, p + rest);
    DropFront(e, p + rest);
    CutFront(p, rest, size);
  }

  lemma {:induction false} DropFront(e: seq<byte>, s: seq<byte>)
    ensures (e + s)[|e|..] == s
  {
  }

  lemma {:induction false} CutFront(p: seq<byte>, rest: seq<byte>, size: nat)
    requires size <= |p|
    ensures (p + rest)[..size] == p[..size] && (p + rest)[size..] == p[size..] + rest
  {
  }

  lemma {:induction false} WholeFrame(r: Next, p: seq<byte>, rest: seq<byte>)
    requires 0 < |p| < TWO32
    requires var size := |p| % TWO32;
             r == if size == 0 then Stop else Next(p[..size], p[size..] + rest)
    ensures r == Next(p, rest)
  {
    assert p[..|p|] == p && p[|p|..] + rest == rest;
  }

  lemma {:induction false} FrameReads(p: seq<byte>, rest: seq<byte>)
    requires 0 < |p| < TWO32
    ensures ReadFrame(Frame(p) + rest) == Next(p, rest)
  {
    ReadFrameOf(p, rest);
    WholeFrame(ReadFrame(Frame(p) + rest), p, rest);
  }

  /** Every frame can be read back from the front of what follows it. */
  lemma {:induction false} FramesReadBack(ps: seq<seq<byte>>)
    requires forall i :: 0 <= i < |ps| ==> 0 < |ps[i]| < TWO32
    ensures ReadFrames(Frames(ps)) == Some(ps)
  {
    if ps != [] {
      FrameReads(ps[0], Frames(ps[1..]));
      FramesReadBack(ps[1..]);
      assert ps == [ps[0]] + ps[1..];
    }
  }

  /**
   Exactly which message lists survive a file: those whose payloads are non-empty and
   shorter than 2^32 bytes. (A Python length never exceeds 2^63 - 1.)
   */
  lemma {:induction false} FramesRoundTripIff(ps: seq<seq<byte>>)
    requires forall i :: 0 <= i < |ps| ==> |ps[i]| <= MAX63
    ensures ReadFrames(Frames(ps)) == Some(ps) <==> forall i :: 0 <= i < |ps| ==> 0 < |ps[i]| < TWO32
  {
    if forall i :: 0 <= i < |ps| ==> 0 < |ps[i]| < TWO32 {
      FramesReadBack(ps);
    } else {
      FramesGoWrong(ps);
    }
  }

  lemma {:induction false} FramesGoWrong(ps: seq<seq<byte>>)
    requires forall i :: 0 <= i < |ps| ==> |ps[i]| <= MAX63
    requires exists i :: 0 <= i < |ps| && !(0 < |ps[i]| < TWO32)
    ensures ReadFrames(Frames(ps)) != Some(ps)
  {
    var rest := Frames(ps[1..]);
    if 0 < |ps[0]| < TWO32 {
      FrameReads(ps[0], rest);
      FramesGoWrong(ps[1..]);
    } else {
      ReadFrameOf(ps[0], rest);
      assert |ps[0]| % TWO32 < |ps[0]| || ps[0] == [];
    }
  }
}
