/**
 The trace reader of the O3 pipeline viewer (util/o3-pipeview.py, `process_trace`):
 skip ahead to the region of interest, collect one instruction from the lines of each
 fetch-to-retire group, stop early, and print through the bounded queue.
 */
module PipeView {
  import opened Sequences
  import opened Sorting
  import opened PipeQueue

  /** A trace line after splitting at ':'; `Other` is any line that is not O3PipeView. */
  datatype Line =
    | Other
    | FetchLine(tick: int, pc: string, upc: string, sn: int, disasm: string)
    | StageLine(stage: Stage, tick: int)
    | RetireLine(tick: int, storeTick: int)

  /** A start or stop that is not positive means "no bound". `drift` is in ticks. */
  datatype Options = Options(startTick: int, stopTick: int, startSn: int, stopSn: int,
                             drift: nat, minThreshold: nat, maxThreshold: nat,
                             onlyCommitted: bool, storeCompletions: bool)

  // ---------------------------------------------------------------- the filter

  predicate Passes(i: Inst, o: Options) {
    && !(o.startSn > 0 && i.sn < o.startSn)
    && !(o.stopSn > 0 && i.sn > o.stopSn)
    && !(o.startTick > 0 && i.fetch < o.startTick)
    && !(o.stopTick > 0 && i.fetch > o.stopTick)
    && !(o.onlyCommitted && i.retire == 0)
  }

  function Select(s: seq<Inst>, o: Options): seq<Inst> {
    if s == [] then []
    else if Passes(s[0], o) then [s[0]] + Select(s[1..], o)
    else Select(s[1..], o)
  }

  lemma {:induction false} SelectConcat(a: seq<Inst>, b: seq<Inst>, o: Options)
    ensures Select(a + b, o) == Select(a, o) + Select(b, o)
  {
    if a == [] {
      assert a + b == b;
    } else {
      assert (a + b)[0] == a[0] && (a + b)[1..] == a[1..] + b;
      SelectConcat(a[1..], b, o);
      ConcatAssociative([a[0]], Select(a[1..], o), Select(b, o));
    }
  }

  lemma {:induction false} SelectAppend(s: seq<Inst>, x: Inst, o: Options)
    ensures Select(s + [x], o) == if Passes(x, o) then Select(s, o) + [x] else Select(s, o)
  {
    SelectConcat(s, [x], o);
    assert [x][1..] == [];
  }

  lemma {:induction false} SelectNone(s: seq<Inst>, o: Options)
    requires forall i :: 0 <= i < |s| ==> !Passes(s[i], o)
    ensures Select(s, o) == []
  {
    if s != [] {
      SelectNone(s[1..], o);
    }
  }

  lemma {:induction false} SelectMembers(s: seq<Inst>, o: Options)
    ensures forall x :: x in Select(s, o) <==> x in s && Passes(x, o)
  {
    if s != [] {
      SelectMembers(s[1..], o);
    }
  }

  lemma {:induction false} SelectFirst(x: Inst, s: seq<Inst>, o: Options)
    ensures Select([x] + s, o) == if Passes(x, o) then [x] + Select(s, o) else Select(s, o)
  {
    assert ([x] + s)[1..] == s;
  }

  lemma {:induction false} SelectByKey(s: seq<Inst>, o: Options, k: int)
    ensures WithKey(Select(s, o), Sn, k) == Select(WithKey(s, Sn, k), o)
  {
    if s != [] {
      SelectByKey(s[1..], o, k);
      WithKeyFirst(s[0], Select(s[1..], o), Sn, k);
      SelectFirst(s[0], WithKey(s[1..], Sn, k), o);
    }
  }

  lemma {:induction false} SelectSorted(s: seq<Inst>, o: Options)
    requires SortedBy(s, Sn)
    ensures SortedBy(Select(s, o), Sn)
  {
    if s != [] {
      SelectSorted(s[1..], o);
      SelectMembers(s[1..], o);
      var t := Select(s[1..], o);
      forall j | 0 <= j < |t| ensures s[0].sn <= t[j].sn {
        assert t[j] in s[1..];
      }
    }
  }

  /** Filtering commutes with the stable sort. */
  lemma {:induction false} SelectOfSort(s: seq<Inst>, o: Options)
    ensures Select(Sort(s, Sn), o) == Sort(Select(s, o), Sn)
  {
    SortSorted(s, Sn);
    SelectSorted(Sort(s, Sn), o);
    SortSorted(Select(s, o), Sn);
    forall k
      ensures WithKey(Select(Sort(s, Sn), o), Sn, k) == WithKey(Sort(Select(s, o), Sn), Sn, k)
    {
      SelectByKey(Sort(s, Sn), o, k);
      SelectByKey(s, o, k);
      SortByKey(s, Sn, k);
      SortByKey(Select(s, o), Sn, k);
    }
    SortIsUnique(Select(Sort(s, Sn), o), Sort(Select(s, o), Sn), Sn);
  }

  // ---------------------------------------------------------------- the reader as functions

  /** The test that ends the skip-ahead loop. */
  predicate Starts(l: Line, o: Options) {
    if o.startTick != 0 then !l.Other? && l.tick >= o.startTick
    else if o.startSn != 0 then l.FetchLine? && l.sn >= o.startSn
    else true
  }

  function SkipAhead(trace: seq<Line>, o: Options): seq<Line> {
    if trace == [] || Starts(trace[0], o) then trace else SkipAhead(trace[1..], o)
  }

  function SkipToFetch(trace: seq<Line>): seq<Line> {
    if trace == [] || trace[0].FetchLine? then trace else SkipToFetch(trace[1..])
  }

  /** The early-stop test on a fetch line. */
  predicate Stops(l: Line, o: Options)
    requires l.FetchLine?
  {
    || (o.stopTick > 0 && l.tick > o.stopTick + o.drift)
    || (o.stopSn > 0 && l.sn > o.stopSn + o.maxThreshold)
  }

  const Blank := Inst(0, "", "", "", 0, 0, map[])

  /** The update of `curr_inst` by one line. */
  function Update(cur: Inst, l: Line, o: Options): Inst {
    match l
    case Other => cur
    case FetchLine(tick, pc, upc, sn, disasm) => cur.(fetch := tick, pc := pc, upc := upc, sn := sn, disasm := disasm)
    case StageLine(stage, tick) => cur.(mids := cur.mids[stage := tick])
    case RetireLine(tick, storeTick) =>
      cur.(retire := tick,
           disasm := if tick == 0 then "-----" + cur.disasm else cur.disasm,
           mids := if o.storeCompletions then cur.mids[Store := storeTick] else cur.mids)
  }

  /** The instructions handed to the queue, in order. */
  function Arrivals(trace: seq<Line>, cur: Inst, o: Options): seq<Inst> {
    if trace == [] then []
    else
      var l := trace[0];
      var cur' := Update(cur, l, o);
      if l.FetchLine? && Stops(l, o) then []
      else (if l.RetireLine? then [cur'] else []) + Arrivals(trace[1..], cur', o)
  }

  /** Reading starts at the first line from the start tick on, or at the first fetch from the start number on. */
  lemma {:induction false} ReadingStarts(ls: seq<Line>, l: Line, rest: seq<Line>, o: Options)
    requires o.startTick != 0 ==>
               (forall i :: 0 <= i < |ls| ==> ls[i].Other? || ls[i].tick < o.startTick)
               && !l.Other? && l.tick >= o.startTick
    requires o.startTick == 0 && o.startSn != 0 ==>
               (forall i :: 0 <= i < |ls| ==> ls[i].FetchLine? ==> ls[i].sn < o.startSn)
               && l.FetchLine? && l.sn >= o.startSn
    requires o.startTick == 0 && o.startSn == 0 ==> ls == []
    ensures SkipAhead(ls + ([l] + rest), o) == [l] + rest
  {
    if ls == [] {
      assert ls + ([l] + rest) == [l] + rest;
    } else {
      assert (ls + ([l] + rest))[1..] == ls[1..] + ([l] + rest);
      ReadingStarts(ls[1..], l, rest, o);
    }
  }

  /** Nothing from a fetch line on counts that is beyond the stop tick by the drift, or beyond the stop number. */
  lemma {:induction false} ReadingEnds(ls: seq<Line>, l: Line, rest: seq<Line>, cur: Inst, o: Options)
    requires l.FetchLine?
    requires (o.stopTick > 0 && l.tick > o.stopTick + o.drift) || (o.stopSn > 0 && l.sn > o.stopSn + o.maxThreshold)
    ensures Arrivals(ls + ([l] + rest), cur, o) == Arrivals(ls, cur, o)
  {
    if ls == [] {
      assert ls + ([l] + rest) == [l] + rest;
    } else {
      assert (ls + ([l] + rest))[1..] == ls[1..] + ([l] + rest);
      ReadingEnds(ls[1..], l, rest, Update(cur, ls[0], o), o);
    }
  }

  lemma {:induction false} ArrivalsStep(trace: seq<Line>, cur: Inst, seen: seq<Inst>, o: Options)
    requires trace != [] && !(trace[0].FetchLine? && Stops(trace[0], o))
    ensures var cur' := Update(cur, trace[0], o);
            seen + Arrivals(trace, cur, o)
            == (if trace[0].RetireLine? then seen + [cur'] else seen) + Arrivals(trace[1..], cur', o)
  {
  }

  lemma {:induction false} FeedStep(seen: seq<Inst>, x: Inst, lo: nat, hi: nat)
    ensures Feed(seen + [x], lo, hi) == Push(Feed(seen, lo, hi), x, lo, hi)
  {
    assert (seen + [x])[..|seen|] == seen;
  }

  function Printed(trace: seq<Line>, o: Options): seq<Inst> {
    Select(Drain(Arrivals(SkipToFetch(SkipAhead(trace, o)), Blank, o), o.minThreshold, o.maxThreshold), o)
  }

  // ---------------------------------------------------------------- the reader as written

  class Viewer {
    const o: Options
    var queue: seq<Inst>
    var printed: seq<Inst>
    ghost var popped: seq<Inst>

    constructor (o: Options)
      ensures this.o == o && queue == [] && printed == [] && popped == []
    {
      this.o := o;
      queue, printed, popped := [], [], [];
    }

    ghost predicate Valid()
      reads this
    {
      printed == Select(popped, o)
    }

    ghost function State(): Buffer
      reads this
    {
      Buffer(popped, queue)
    }

    /** The popping loop of `print_insts`, on a queue that is already sorted. */
    method PopAndPrint(lower: nat)
      requires Valid()
      modifies this
      ensures Valid()
      ensures var n := if |old(queue)| > lower then |old(queue)| - lower else 0;
              queue == old(queue)[n..] && popped == old(popped) + old(queue)[..n]
    {
      ghost var sorted := queue;
      ghost var n := 0;
      while |queue| > lower
        invariant 0 <= n <= |sorted|
        invariant n > 0 ==> |queue| >= lower
        invariant queue == sorted[n..]
        invariant popped == old(popped) + sorted[..n]
        invariant Valid()
        decreases |queue|
      {
        ConcatAssociative(old(popped), sorted[..n], [queue[0]]);
        assert sorted[..n + 1] == sorted[..n] + [queue[0]];
        PopOne();
        n := n + 1;
      }
    }

    /** Popping one instruction and printing it if it passes the filter. */
    method PopOne()
      requires Valid() && queue != []
      modifies this
      ensures Valid()
      ensures queue == old(queue)[1..] && popped == old(popped) + [old(queue)[0]]
    {
      var item := queue[0];
      queue := queue[1..];
      SelectAppend(popped, item, o);
      popped := popped + [item];
      if Passes(item, o) {
        printed := printed + [item];
      }
    }

    method PrintInsts(lower: nat)
      requires Valid()
      modifies this
      ensures Valid()
      ensures State() == Flush(old(State()), lower)
    {
      queue := Sort(queue, Sn);
      PopAndPrint(lower);
    }

    method QueueInst(inst: Inst)
      requires Valid()
      modifies this
      ensures Valid()
      ensures State() == Push(old(State()), inst, o.minThreshold, o.maxThreshold)
    {
      queue := queue + [inst];
      if |queue| > o.maxThreshold {
        PrintInsts(o.minThreshold);
      }
    }

    /** The two skipping loops: the position where the region of interest begins. */
    method FindRegion(trace: seq<Line>) returns (pos: nat)
      ensures pos <= |trace| && trace[pos..] == SkipToFetch(SkipAhead(trace, o))
    {
      pos := 0;
      assert trace[0..] == trace;
      while pos < |trace| && !Starts(trace[pos], o)
        invariant pos <= |trace|
        invariant SkipAhead(trace[pos..], o) == SkipAhead(trace, o)
      {
        pos := pos + 1;
      }
      while pos < |trace| && !trace[pos].FetchLine?
        invariant pos <= |trace|
        invariant SkipToFetch(trace[pos..]) == SkipToFetch(SkipAhead(trace, o))
      {
        pos := pos + 1;
      }
    }

    /** The whole run on a fresh viewer; `trace` is read front to back through `pos`. */
    method ProcessTrace(trace: seq<Line>)
      requires queue == [] && printed == [] && popped == []
      modifies this
      ensures printed == Printed(trace, o)
    {
      var pos := FindRegion(trace);
      ghost var lo, hi := o.minThreshold, o.maxThreshold;
      ghost var all := Arrivals(trace[pos..], Blank, o);
      if pos == |trace| {
        return;
      }
      var cur := Blank;
      ghost var seen := [];
      while pos < |trace|
        invariant pos <= |trace|
        invariant Valid() && State() == Feed(seen, lo, hi)
        invariant all == seen + Arrivals(trace[pos..], cur, o)
      {
        var line := trace[pos];
        if line.FetchLine? && Stops(line, o) {
          assert all == seen;
          PrintInsts(0);
          return;
        }
        ArrivalsStep(trace[pos..], cur, seen, o);
        cur := Update(cur, line, o);
        if line.RetireLine? {
          FeedStep(seen, cur, lo, hi);
          QueueInst(cur);
          seen := seen + [cur];
        }
        pos := pos + 1;
      }
      assert trace[pos..] == [] && all == seen;
      PrintInsts(0);
    }
  }
}
