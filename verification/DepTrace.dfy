/**
 Whole dependency traces: the protobuf file written by util/encode_inst_dep_trace.py and
 the text written by util/decode_inst_dep_trace.py. Serialisation of a message is any pair
 of functions that are inverse on the records at hand; module Wire gives one.
 */
module DepTrace {
  import opened DepRecord
  import opened Protolib
  import opened Results
  import opened Sequences
  import opened Text

  /** "gem5" in four bytes. */
  const MAGIC: seq<byte> := [0x67, 0x65, 0x6D, 0x35]

  // ---------------------------------------------------------------- files and texts as functions

  function Serialized(rs: seq<Record>, ser: Record -> seq<byte>): (ps: seq<seq<byte>>)
    ensures |ps| == |rs| && forall i :: 0 <= i < |rs| ==> ps[i] == ser(rs[i])
  {
    seq(|rs|, i requires 0 <= i < |rs| => ser(rs[i]))
  }

  function Parsed(ps: seq<seq<byte>>, parse: seq<byte> -> Record): (rs: seq<Record>)
    ensures |rs| == |ps| && forall i :: 0 <= i < |ps| ==> rs[i] == parse(ps[i])
  {
    seq(|ps|, i requires 0 <= i < |ps| => parse(ps[i]))
  }

  /** The file the encoder writes. */
  function FileOf(header: seq<byte>, rs: seq<Record>, ser: Record -> seq<byte>): seq<byte> {
    MAGIC + (Frame(header) + Frames(Serialized(rs, ser)))
  }

  /** The records the decoder reads, or None for a file it does not recognise or fails on. */
  function RecordsIn(file: seq<byte>, parse: seq<byte> -> Record): Option<seq<Record>> {
    if |file| < 4 || file[..4] != MAGIC || ReadFrame(file[4..]).Raises? then None
    else ParsedFrames(AfterFrame(file[4..]), parse)
  }

  /** The records of the frames of a stream, or None if reading them fails. */
  function ParsedFrames(s: seq<byte>, parse: seq<byte> -> Record): Option<seq<Record>> {
    var ps := ReadFrames(s);
    if ps == None then None else Some(Parsed(ps.value, parse))
  }

  function TextOf(rs: seq<Record>): string {
    if rs == [] then [] else Line(rs[0]) + TextOf(rs[1..])
  }

  /** Iterating over a text file: lines with their newline, the last one possibly without. */
  function LinesOf(text: string): seq<string> {
    if text == [] then []
    else if text[0] == '\n' then ["\n"] + LinesOf(text[1..])
    else
      var rest := LinesOf(text[1..]);
      if rest == [] then [[text[0]]] else [[text[0]] + rest[0]] + rest[1..]
  }

  /** The records of a text, or None at the first line that does not parse. */
  function RecordsOf(lines: seq<string>): Option<seq<Record>> {
    if lines == [] then Some([])
    else
      var first, rest := ParseLine(lines[0]), RecordsOf(lines[1..]);
      if first.Some? && rest.Some? then Some([first.value] + rest.value) else None
  }

  function AllDefaulted(rs: seq<Record>): seq<Record> {
    if rs == [] then [] else [Defaulted(rs[0])] + AllDefaulted(rs[1..])
  }

  // ---------------------------------------------------------------- text round trip

  lemma {:induction false} LinesOfFirst(body: string, rest: string)
    requires '\n' !in body
    ensures LinesOf(body + ("\n" + rest)) == [body + "\n"] + LinesOf(rest)
  {
    var s := body + ("\n" + rest);
    if body == [] {
      assert s == "\n" + rest && s[1..] == rest && body + "\n" == "\n";
    } else {
      assert s[0] == body[0] && s[1..] == body[1..] + ("\n" + rest);
      LinesOfFirst(body[1..], rest);
      assert [body[0]] + (body[1..] + "\n") == body + "\n";
    }
  }

  lemma {:induction false} BodyHasNoNewline(r: Record)
    ensures '\n' !in Body(r)
  {
    FieldsWithout(r, '\n');
    JoinWithout(Fields(r), ',', '\n');
    DepTextShape(r.robDep);
    DepTextShape(r.regDep);
  }

  function Lines(rs: seq<Record>): seq<string> {
    if rs == [] then [] else [Line(rs[0])] + Lines(rs[1..])
  }

  lemma {:induction false} LinesOfText(rs: seq<Record>)
    ensures LinesOf(TextOf(rs)) == Lines(rs)
  {
    if rs != [] {
      BodyHasNoNewline(rs[0]);
      LinesOfText(rs[1..]);
      LinesOfFirst(Body(rs[0]), TextOf(rs[1..]));
      ConcatAssociative(Body(rs[0]), "\n", TextOf(rs[1..]));
    }
  }

  /** A trace survives printing and parsing exactly if each of its records does. */
  lemma {:induction false} TextRoundTripIff(rs: seq<Record>)
    ensures RecordsOf(LinesOf(TextOf(rs))) == Some(AllDefaulted(rs))
            <==> forall i :: 0 <= i < |rs| ==> Printable(rs[i])
  {
    LinesOfText(rs);
    RecordsOfLinesIff(rs);
  }

  lemma {:induction false} RecordsOfLinesIff(rs: seq<Record>)
    ensures RecordsOf(Lines(rs)) == Some(AllDefaulted(rs)) <==> forall i :: 0 <= i < |rs| ==> Printable(rs[i])
  {
    if rs != [] {
      LineRoundTripIff(rs[0]);
      RecordsOfLinesIff(rs[1..]);
      RecordsOfStep(Lines(rs), AllDefaulted(rs));
      AllPrintableStep(rs);
    }
  }

  lemma {:induction false} AllPrintableStep(rs: seq<Record>)
    requires rs != []
    ensures (forall i :: 0 <= i < |rs| ==> Printable(rs[i]))
       <==> Printable(rs[0]) && forall i :: 0 <= i < |rs[1..]| ==> Printable(rs[1..][i])
  {
    if Printable(rs[0]) && forall i :: 0 <= i < |rs[1..]| ==> Printable(rs[1..][i]) {
      forall i | 0 <= i < |rs| ensures Printable(rs[i]) {
        assert i > 0 ==> rs[i] == rs[1..][i - 1];
      }
    }
  }

  lemma {:induction false} RecordsOfStep(lines: seq<string>, rs: seq<Record>)
    requires lines != [] && rs != []
    ensures RecordsOf(lines) == Some(rs)
       <==> ParseLine(lines[0]) == Some(rs[0]) && RecordsOf(lines[1..]) == Some(rs[1..])
  {
    assert rs == [rs[0]] + rs[1..];
  }

  // ---------------------------------------------------------------- file round trip

  /**
   Serialising and parsing are inverse on these records, and no serialised record is empty or
   over 4 GB.
   */
  ghost predicate Carries(rs: seq<Record>, ser: Record -> seq<byte>, parse: seq<byte> -> Record) {
    forall i :: 0 <= i < |rs| ==> parse(ser(rs[i])) == rs[i] && 0 < |ser(rs[i])| < TWO32
  }

  lemma {:induction false} FileRoundTrip(header: seq<byte>, rs: seq<Record>,
                                         ser: Record -> seq<byte>, parse: seq<byte> -> Record)
    requires Carries(rs, ser, parse) && 0 < |header| < TWO32
    ensures RecordsIn(FileOf(header, rs, ser), parse) == Some(rs)
  {
    var ps := Serialized(rs, ser);
    var file := FileOf(header, rs, ser);
    assert file[..4] == MAGIC && file[4..] == Frame(header) + Frames(ps);
    FrameReads(header, Frames(ps));
    FramesReadBack(ps);
    assert Parsed(ps, parse) == rs;
  }

  /**
   The tools together. Decoding a trace file to text, encoding the text again and decoding
   the result gives the original records in order, with pc and weight defaulted and both
   dependency lists intact; and from then on text and file no longer change.
   */
  lemma {:induction false} TraceRoundTrip(header: seq<byte>, header': seq<byte>, rs: seq<Record>,
                                          ser: Record -> seq<byte>, parse: seq<byte> -> Record)
    requires Carries(rs, ser, parse) && Carries(AllDefaulted(rs), ser, parse)
    requires 0 < |header| < TWO32 && 0 < |header'| < TWO32
    requires forall i :: 0 <= i < |rs| ==> Printable(rs[i])
    ensures RecordsIn(FileOf(header, rs, ser), parse) == Some(rs)
    ensures RecordsOf(LinesOf(TextOf(rs))) == Some(AllDefaulted(rs))
    ensures RecordsIn(FileOf(header', AllDefaulted(rs), ser), parse) == Some(AllDefaulted(rs))
    ensures TextOf(AllDefaulted(rs)) == TextOf(rs)
  {
    FileRoundTrip(header, rs, ser, parse);
    TextRoundTripIff(rs);
    FileRoundTrip(header', AllDefaulted(rs), ser, parse);
    DefaultedText(rs);
  }

  lemma {:induction false} DefaultedText(rs: seq<Record>)
    ensures TextOf(AllDefaulted(rs)) == TextOf(rs)
  {
    if rs != [] {
      DefaultedText(rs[1..]);
      assert Fields(Defaulted(rs[0])) == Fields(rs[0]);
      assert AllDefaulted(rs)[1..] == AllDefaulted(rs[1..]);
    }
  }

  // ---------------------------------------------------------------- the tools as written

  /** The decoder's main loop; None where it does not recognise the file or raises. */
  method Decode(f: InFile, parse: seq<byte> -> Record) returns (text: Option<string>)
    requires f.Valid()
    modifies f
    ensures var rs := RecordsIn(old(f.Rest()), parse);
            text == if rs == None then None else Some(TextOf(rs.value))
  {
    var magic := f.Read(4);
    if magic.value != MAGIC {
      return None;
    }
    var header, raised := DecodeMessage(f);
    if raised {
      return None;
    }
    ghost var rs := ParsedFrames(f.Rest(), parse);
    var out := "";
    ghost var done := [];
    ThenEnds(done, rs);
    while true
      invariant f.Valid()
      invariant rs == Then(done, ParsedFrames(f.Rest(), parse))
      invariant out == TextOf(done)
      decreases |f.Rest()|
    {
      ghost var before := f.Rest();
      var payload;
      payload, raised := DecodeMessage(f);
      if raised {
        return None;
      }
      if payload == None {
        ThenEnds(done, rs);
        return Some(out);
      }
      ParsedFirst(done, before, parse);
      var line := PrintRecord(parse(payload.value));
      TextOfAppend(done, parse(payload.value));
      out := out + line;
      done := done + [parse(payload.value)];
    }
  }

  lemma {:induction false} ParsedFirst(done: seq<Record>, s: seq<byte>, parse: seq<byte> -> Record)
    requires ReadFrame(s).Next?
    ensures var r := ReadFrame(s);
            Then(done, ParsedFrames(s, parse)) == Then(done + [parse(r.payload)], ParsedFrames(r.rest, parse))
  {
    var r := ReadFrame(s);
    var more := ReadFrames(r.rest);
    if more.Some? {
      assert Parsed([r.payload] + more.value, parse) == [parse(r.payload)] + Parsed(more.value, parse);
      ConcatAssociative(done, [parse(r.payload)], Parsed(more.value, parse));
    }
  }

  lemma {:induction false} TextOfAppend(rs: seq<Record>, r: Record)
    ensures TextOf(rs + [r]) == TextOf(rs) + Line(r)
  {
    if rs == [] {
      assert [r][1..] == [] && rs + [r] == [r];
    } else {
      assert (rs + [r])[1..] == rs[1..] + [r];
      TextOfAppend(rs[1..], r);
      ConcatAssociative(Line(rs[0]), TextOf(rs[1..]), Line(r));
    }
  }

  ghost function Then(done: seq<Record>, rest: Option<seq<Record>>): Option<seq<Record>> {
    if rest.Some? then Some(done + rest.value) else None
  }

  lemma {:induction false} ThenStep(done: seq<Record>, lines: seq<string>, i: nat)
    requires i < |lines|
    ensures var r := ParseLine(lines[i]);
            Then(done, RecordsOf(lines[i..]))
            == if r.Some? then Then(done + [r.value], RecordsOf(lines[i + 1..])) else None
  {
    assert lines[i..][1..] == lines[i + 1..];
    if ParseLine(lines[i]).Some? && RecordsOf(lines[i + 1..]).Some? {
      ConcatAssociative(done, [ParseLine(lines[i]).value], RecordsOf(lines[i + 1..]).value);
    }
  }

  lemma {:induction false} ThenEnds(done: seq<Record>, rest: Option<seq<Record>>)
    ensures Then([], rest) == rest && Then(done, Some([])) == Some(done)
  {
    assert rest.Some? ==> [] + rest.value == rest.value;
    assert done + [] == done;
  }

  /** The records of the lines, appended to the file one frame at a time. */
  method EncodeLines(lines: seq<string>, ser: Record -> seq<byte>, f: OutFile) returns (ok: bool)
    modifies f
    ensures ok <==> RecordsOf(lines).Some?
    ensures ok ==> f.data == old(f.data) + Frames(Serialized(RecordsOf(lines).value, ser))
  {
    ghost var start, goal := f.data, RecordsOf(lines);
    ghost var done: seq<Record> := [];
    assert lines[0..] == lines;
    ThenEnds(done, goal);
    var i := 0;
    while i < |lines|
      invariant 0 <= i <= |lines|
      invariant goal == Then(done, RecordsOf(lines[i..]))
      invariant f.data == start + Frames(Serialized(done, ser))
    {
      ThenStep(done, lines, i);
      var r := ParseLine(lines[i]);
      if r == None {
        return false;
      }
      FramesAppend(done, r.value, ser);
      ConcatAssociative(start, Frames(Serialized(done, ser)), Frame(ser(r.value)));
      EncodeMessage(f, ser(r.value));
      done := done + [r.value];
      i := i + 1;
    }
    assert lines[i..] == [];
    ThenEnds(done, goal);
    return true;
  }

  /** The encoder: the magic number, the header and the records; it stops at the first bad line. */
  method Encode(lines: seq<string>, header: seq<byte>, ser: Record -> seq<byte>, f: OutFile) returns (ok: bool)
    requires f.data == []
    modifies f
    ensures ok <==> RecordsOf(lines).Some?
    ensures ok ==> f.data == FileOf(header, RecordsOf(lines).value, ser)
  {
    f.Write(MAGIC);
    EncodeMessage(f, header);
    ok := EncodeLines(lines, ser, f);
    if ok {
      ConcatAssociative(MAGIC, Frame(header), Frames(Serialized(RecordsOf(lines).value, ser)));
    }
  }

  /** The file starts with "gem5". */
  lemma {:induction false} FileStarts(header: seq<byte>, rs: seq<Record>, ser: Record -> seq<byte>)
    ensures |FileOf(header, rs, ser)| >= 4 && FileOf(header, rs, ser)[..4] == [0x67, 0x65, 0x6D, 0x35]
  {
  }

  lemma {:induction false} FramesAppend(rs: seq<Record>, r: Record, ser: Record -> seq<byte>)
    ensures Frames(Serialized(rs + [r], ser)) == Frames(Serialized(rs, ser)) + Frame(ser(r))
  {
    assert Serialized(rs + [r], ser) == Serialized(rs, ser) + [ser(r)];
    FramesAppendOne(Serialized(rs, ser), ser(r));
  }

  lemma {:induction false} FramesAppendOne(ps: seq<seq<byte>>, p: seq<byte>)
    ensures Frames(ps + [p]) == Frames(ps) + Frame(p)
  {
    if ps == [] {
      assert [p][1..] == [] && ps + [p] == [p];
    } else {
      assert (ps + [p])[1..] == ps[1..] + [p];
      FramesAppendOne(ps[1..], p);
      ConcatAssociative(Frame(ps[0]), Frames(ps[1..]), Frame(p));
    }
  }
}
