/**
 What the O3 pipeline viewer prints for a well-formed trace (util/o3-pipeview.py).

 A well-formed trace is a sequence of groups, one per instruction: a fetch line, the
 stage lines, a retire line, with unrelated lines anywhere. The results below say that
 skip-ahead, early stop and thresholded flushing together print exactly the records
 that pass the range filters.
 */
module PipeTrace {
  import opened Sequences
  import opened Sorting
  import opened PipeQueue
  import opened PipeView
  import Timeline

  datatype Group = Group(fetch: Line, mids: seq<Line>, retire: Line, gap: seq<Line>)

  /** The last tick given for each stage. */
  function StageMap(mids: seq<Line>): map<Stage, int> {
    if mids == [] then map[]
    else (if mids[0].StageLine? then map[mids[0].stage := mids[0].tick] else map[]) + StageMap(mids[1..])
  }

  predicate Quiet(ls: seq<Line>) {
    forall i :: 0 <= i < |ls| ==> ls[i].Other? || (ls[i].StageLine? && ls[i].stage != Store)
  }

  predicate AllOther(ls: seq<Line>) {
    forall i :: 0 <= i < |ls| ==> ls[i].Other?
  }

  predicate WellFormed(g: Group) {
    && g.fetch.FetchLine? && g.retire.RetireLine? && g.fetch.tick >= 0 && g.fetch.sn >= 0
    && Quiet(g.mids) && AllOther(g.gap)
    && StageMap(g.mids).Keys == {Decode, Rename, Dispatch, Issue, Complete}
  }

  predicate AllWellFormed(gs: seq<Group>) {
    forall i :: 0 <= i < |gs| ==> WellFormed(gs[i])
  }

  function Body(g: Group): seq<Line> {
    [g.fetch] + (g.mids + ([g.retire] + g.gap))
  }

  function Lines(gs: seq<Group>): seq<Line> {
    if gs == [] then [] else Body(gs[0]) + Lines(gs[1..])
  }

  /** An instruction whose retire line never made it into the trace. */
  predicate Unfinished(tail: seq<Line>) {
    tail == [] || (tail[0].FetchLine? && Quiet(tail[1..]))
  }

  /** Lines in front of the first group: no fetch among them. */
  predicate NoFetch(lead: seq<Line>) {
    forall i :: 0 <= i < |lead| ==> !lead[i].FetchLine?
  }

  /** The record of one instruction, from its own group alone. */
  function Record(g: Group, o: Options): Inst
    requires WellFormed(g)
  {
    Inst(g.fetch.sn, g.fetch.pc, g.fetch.upc,
         if g.retire.tick == 0 then "-----" + g.fetch.disasm else g.fetch.disasm,
         g.fetch.tick, g.retire.tick,
         StageMap(g.mids) + (if o.storeCompletions then map[Store := g.retire.storeTick] else map[]))
  }

  function Records(gs: seq<Group>, o: Options): (r: seq<Inst>)
    requires AllWellFormed(gs)
    ensures |r| == |gs|
    ensures forall i :: 0 <= i < |gs| ==> r[i] == Record(gs[i], o)
  {
    if gs == [] then [] else [Record(gs[0], o)] + Records(gs[1..], o)
  }

  /** Fetch ticks run back by at most the drift, sequence numbers by at most the upper threshold. */
  ghost predicate RunsBackWithin(gs: seq<Group>, o: Options)
    requires AllWellFormed(gs)
  {
    && (o.stopTick > 0 ==> forall i, j :: 0 <= i < j < |gs| ==> gs[i].fetch.tick <= gs[j].fetch.tick + o.drift)
    && (o.stopSn > 0 ==> forall i, j :: 0 <= i < j < |gs| ==> gs[i].fetch.sn <= gs[j].fetch.sn + o.maxThreshold)
  }

  // ---------------------------------------------------------------- one group

  lemma {:induction false} LineThrough(l: Line, rest: seq<Line>, cur: Inst, o: Options)
    requires l.FetchLine? ==> !Stops(l, o)
    requires !l.RetireLine?
    ensures Arrivals([l] + rest, cur, o) == Arrivals(rest, Update(cur, l, o), o)
  {
    assert ([l] + rest)[1..] == rest;
  }

  lemma {:induction false} StageMapStep(ls: seq<Line>, cur: Inst, o: Options)
    requires Quiet(ls) && ls != []
    ensures Update(cur, ls[0], o).mids + StageMap(ls[1..]) == cur.mids + StageMap(ls)
    ensures Update(cur, ls[0], o) == cur.(mids := Update(cur, ls[0], o).mids)
  {
  }

  /** Reading stage lines adds their ticks to the dictionary and queues nothing. */
  lemma {:induction false} ArrivalsQuiet(ls: seq<Line>, rest: seq<Line>, cur: Inst, o: Options)
    requires Quiet(ls)
    ensures Arrivals(ls + rest, cur, o) == Arrivals(rest, cur.(mids := cur.mids + StageMap(ls)), o)
  {
    if ls == [] {
      assert ls + rest == rest;
      assert cur.mids + StageMap(ls) == cur.mids;
    } else {
      assert ls + rest == [ls[0]] + (ls[1..] + rest);
      LineThrough(ls[0], ls[1..] + rest, cur, o);
      ArrivalsQuiet(ls[1..], rest, Update(cur, ls[0], o), o);
      StageMapStep(ls, cur, o);
    }
  }

  lemma {:induction false} StageMapOther(ls: seq<Line>)
    requires AllOther(ls)
    ensures StageMap(ls) == map[]
  {
    if ls != [] {
      StageMapOther(ls[1..]);
    }
  }

  predicate Stages(m: map<Stage, int>, o: Options) {
    m.Keys <= {Decode, Rename, Dispatch, Issue, Complete} + (if o.storeCompletions then {Store} else {})
  }

  /** The dictionary is reused, and still a group leaves behind its own record and nothing older. */
  lemma {:induction false} RecordOverwrites(g: Group, cur: Inst, o: Options)
    requires WellFormed(g) && Stages(cur.mids, o)
    ensures var c := Update(cur, g.fetch, o);
            Update(c.(mids := c.mids + StageMap(g.mids)), g.retire, o) == Record(g, o)
    ensures Stages(Record(g, o).mids, o)
  {
    var c := Update(cur, g.fetch, o);
    var got := Update(c.(mids := c.mids + StageMap(g.mids)), g.retire, o);
    assert got.mids == Record(g, o).mids;
  }

  /** The lines of a group, after its fetch line was let through, queue the group's record. */
  lemma {:induction false} GroupArrives(g: Group, rest: seq<Line>, cur: Inst, o: Options)
    requires WellFormed(g) && Stages(cur.mids, o)
    requires !Stops(g.fetch, o)
    ensures Arrivals(Body(g) + rest, cur, o) == [Record(g, o)] + Arrivals(rest, Record(g, o), o)
  {
    var after := [g.retire] + g.gap + rest;
    assert Body(g) + rest == [g.fetch] + (g.mids + after);
    var c := Update(cur, g.fetch, o);
    var c' := c.(mids := c.mids + StageMap(g.mids));
    LineThrough(g.fetch, g.mids + after, cur, o);
    ArrivalsQuiet(g.mids, after, c, o);
    RecordOverwrites(g, cur, o);
    RetireThrough(g, rest, c', o);
  }

  lemma {:induction false} RetireThrough(g: Group, rest: seq<Line>, cur: Inst, o: Options)
    requires WellFormed(g)
    ensures var r := Update(cur, g.retire, o);
            Arrivals([g.retire] + g.gap + rest, cur, o) == [r] + Arrivals(rest, r, o)
  {
    var r := Update(cur, g.retire, o);
    assert ([g.retire] + g.gap + rest)[1..] == g.gap + rest;
    ArrivalsQuiet(g.gap, rest, r, o);
    StageMapOther(g.gap);
    assert r.mids + map[] == r.mids;
  }

  // ---------------------------------------------------------------- the region of interest

  lemma {:induction false} RecordsFirst(gs: seq<Group>, n: nat, o: Options)
    requires AllWellFormed(gs) && 0 < n <= |gs|
    ensures Records(gs[..n], o) == [Record(gs[0], o)] + Records(gs[1..][..n - 1], o)
  {
    assert gs[..n][1..] == gs[1..][..n - 1];
  }

  lemma {:induction false} RecordsSplit(gs: seq<Group>, n: nat, o: Options)
    requires AllWellFormed(gs) && n <= |gs|
    ensures Records(gs, o) == Records(gs[..n], o) + Records(gs[n..], o)
  {
    if n == 0 {
      assert gs[..n] == [] && gs[n..] == gs;
    } else {
      RecordsFirst(gs, n, o);
      RecordsSplit(gs[1..], n - 1, o);
      DropOfDrop(gs, 1, n - 1);
      ConcatAssociative([Record(gs[0], o)], Records(gs[1..][..n - 1], o), Records(gs[n..], o));
    }
  }

  /** The reader collects whole records, up to the first fetch line that stops it. */
  lemma {:induction false} GroupsArrive(gs: seq<Group>, tail: seq<Line>, cur: Inst, o: Options) returns (n: nat)
    requires AllWellFormed(gs) && Unfinished(tail) && Stages(cur.mids, o)
    ensures n <= |gs|
    ensures n < |gs| ==> Stops(gs[n].fetch, o)
    ensures Arrivals(Lines(gs) + tail, cur, o) == Records(gs[..n], o)
  {
    if gs == [] {
      n := 0;
      TailArrivesNot(tail, cur, o);
      assert Lines(gs) + tail == tail;
    } else if Stops(gs[0].fetch, o) {
      n := 0;
      assert (Lines(gs) + tail)[0] == gs[0].fetch;
    } else {
      ConcatAssociative(Body(gs[0]), Lines(gs[1..]), tail);
      GroupArrives(gs[0], Lines(gs[1..]) + tail, cur, o);
      RecordOverwrites(gs[0], cur, o);
      var m := GroupsArrive(gs[1..], tail, Record(gs[0], o), o);
      n := m + 1;
      RecordsFirst(gs, n, o);
    }
  }

  lemma {:induction false} TailArrivesNot(tail: seq<Line>, cur: Inst, o: Options)
    requires Unfinished(tail)
    ensures Arrivals(tail, cur, o) == []
  {
    if tail != [] && !Stops(tail[0], o) {
      ArrivalsQuiet(tail[1..], [], Update(cur, tail[0], o), o);
      assert tail[1..] + [] == tail[1..];
    }
  }

  lemma {:induction false} AfterStopFails(gs: seq<Group>, n: nat, i: nat, o: Options)
    requires AllWellFormed(gs) && RunsBackWithin(gs, o)
    requires n <= i < |gs| && Stops(gs[n].fetch, o)
    ensures !Passes(Record(gs[i], o), o)
  {
  }

  /** Nothing from the stopping point on could have been printed. */
  lemma {:induction false} StopLosesNothing(gs: seq<Group>, n: nat, o: Options)
    requires AllWellFormed(gs) && RunsBackWithin(gs, o)
    requires n <= |gs| && (n < |gs| ==> Stops(gs[n].fetch, o))
    ensures Select(Records(gs, o), o) == Select(Records(gs[..n], o), o)
  {
    RecordsSplit(gs, n, o);
    SelectConcat(Records(gs[..n], o), Records(gs[n..], o), o);
    NothingAfterStop(gs, n, o);
  }

  lemma {:induction false} NothingAfterStop(gs: seq<Group>, n: nat, o: Options)
    requires AllWellFormed(gs) && RunsBackWithin(gs, o)
    requires n <= |gs| && (n < |gs| ==> Stops(gs[n].fetch, o))
    ensures Select(Records(gs[n..], o), o) == []
  {
    forall i | 0 <= i < |gs[n..]| ensures !Passes(Record(gs[n..][i], o), o) {
      AfterStopFails(gs, n, n + i, o);
    }
    SelectNone(Records(gs[n..], o), o);
  }

  // ---------------------------------------------------------------- skipping ahead

  lemma {:induction false} SkipToFetchQuiet(ls: seq<Line>, rest: seq<Line>)
    requires NoFetch(ls)
    ensures SkipToFetch(ls + rest) == SkipToFetch(rest)
  {
    if ls == [] {
      assert ls + rest == rest;
    } else {
      assert (ls + rest)[0] == ls[0] && (ls + rest)[1..] == ls[1..] + rest;
      SkipToFetchQuiet(ls[1..], rest);
    }
  }

  /** Skipping through lines without a fetch ends at or after `rest`, as far as fetches go. */
  lemma {:induction false} SkipThrough(ls: seq<Line>, rest: seq<Line>, o: Options)
    requires NoFetch(ls)
    ensures || SkipToFetch(SkipAhead(ls + rest, o)) == SkipToFetch(rest)
            || SkipToFetch(SkipAhead(ls + rest, o)) == SkipToFetch(SkipAhead(rest, o))
  {
    if ls == [] {
      assert ls + rest == rest;
    } else if Starts((ls + rest)[0], o) {
      SkipToFetchQuiet(ls, rest);
    } else {
      assert (ls + rest)[1..] == ls[1..] + rest;
      SkipThrough(ls[1..], rest, o);
    }
  }

  lemma {:induction false} LinesStartWithFetch(gs: seq<Group>, tail: seq<Line>)
    requires AllWellFormed(gs) && Unfinished(tail)
    ensures SkipToFetch(Lines(gs) + tail) == Lines(gs) + tail
  {
    if gs == [] {
      assert Lines(gs) + tail == tail;
    } else {
      assert (Lines(gs) + tail)[0] == gs[0].fetch;
    }
  }

  /** What is left of a trace once the first `j` groups, or also the tail, have been skipped. */
  ghost predicate Left(r: seq<Line>, gs: seq<Group>, j: nat, tail: seq<Line>)
    requires j <= |gs|
  {
    r == Lines(gs[j..]) + tail || (j == |gs| && r == [])
  }

  lemma {:induction false} SkipTail(tail: seq<Line>, o: Options)
    requires Unfinished(tail)
    ensures SkipToFetch(SkipAhead(tail, o)) == tail || SkipToFetch(SkipAhead(tail, o)) == []
  {
    if tail != [] && !Starts(tail[0], o) {
      assert NoFetch(tail[1..]);
      assert tail[1..] + [] == tail[1..];
      SkipThrough(tail[1..], [], o);
    }
  }

  lemma {:induction false} LeftShift(r: seq<Line>, gs: seq<Group>, k: nat, tail: seq<Line>)
    requires gs != [] && k <= |gs| - 1
    requires Left(r, gs[1..], k, tail)
    ensures Left(r, gs, k + 1, tail)
  {
    DropOfDrop(gs, 1, k);
  }

  /** Skipping a group whose fetch line does not start the region. */
  lemma {:induction false} SkipFirst(g: Group, rest: seq<Line>, o: Options)
    requires WellFormed(g) && !Starts(g.fetch, o)
    ensures || SkipToFetch(SkipAhead(Body(g) + rest, o)) == SkipToFetch(rest)
            || SkipToFetch(SkipAhead(Body(g) + rest, o)) == SkipToFetch(SkipAhead(rest, o))
  {
    var inner := g.mids + ([g.retire] + g.gap);
    assert (Body(g) + rest)[0] == g.fetch && (Body(g) + rest)[1..] == inner + rest;
    SkipThrough(inner, rest, o);
  }

  lemma {:induction false} SkipNoGroup(tail: seq<Line>, o: Options)
    requires Unfinished(tail)
    ensures Left(SkipToFetch(SkipAhead(Lines([]) + tail, o)), [], 0, tail)
  {
    assert Lines([]) + tail == tail;
    SkipTail(tail, o);
  }

  lemma {:induction false} StartHere(gs: seq<Group>, tail: seq<Line>, o: Options)
    requires AllWellFormed(gs) && Unfinished(tail) && gs != [] && Starts(gs[0].fetch, o)
    ensures Left(SkipToFetch(SkipAhead(Lines(gs) + tail, o)), gs, 0, tail)
  {
    assert gs[0..] == gs;
    assert (Lines(gs) + tail)[0] == gs[0].fetch;
    LinesStartWithFetch(gs, tail);
  }

  /** Skipping the first group either ends the skipping or goes on with the others. */
  lemma {:induction false} SkipOne(gs: seq<Group>, tail: seq<Line>, o: Options)
    requires AllWellFormed(gs) && Unfinished(tail) && gs != [] && !Starts(gs[0].fetch, o)
    ensures || SkipToFetch(SkipAhead(Lines(gs) + tail, o)) == Lines(gs[1..]) + tail
            || SkipToFetch(SkipAhead(Lines(gs) + tail, o)) == SkipToFetch(SkipAhead(Lines(gs[1..]) + tail, o))
  {
    ConcatAssociative(Body(gs[0]), Lines(gs[1..]), tail);
    SkipFirst(gs[0], Lines(gs[1..]) + tail, o);
    LinesStartWithFetch(gs[1..], tail);
  }

  /** Skip-ahead lands on the start of a group, and drops only groups the filter rejects. */
  lemma {:induction false} SkipGroups(gs: seq<Group>, tail: seq<Line>, o: Options) returns (j: nat)
    requires AllWellFormed(gs) && Unfinished(tail)
    ensures j <= |gs|
    ensures Left(SkipToFetch(SkipAhead(Lines(gs) + tail, o)), gs, j, tail)
    ensures forall i :: 0 <= i < j ==> !Passes(Record(gs[i], o), o)
  {
    if gs == [] {
      j := 0;
      SkipNoGroup(tail, o);
    } else if Starts(gs[0].fetch, o) {
      j := 0;
      StartHere(gs, tail, o);
    } else {
      SkipOne(gs, tail, o);
      FirstFails(gs[0], o);
      var k := SkipGroups(gs[1..], tail, o);
      j := SkipBoth(gs, tail, o, SkipToFetch(SkipAhead(Lines(gs) + tail, o)),
                    SkipToFetch(SkipAhead(Lines(gs[1..]) + tail, o)), k);
    }
  }

  lemma {:induction false} SkipBoth(gs: seq<Group>, tail: seq<Line>, o: Options, r: seq<Line>, s: seq<Line>, k: nat)
    returns (j: nat)
    requires AllWellFormed(gs) && gs != [] && !Passes(Record(gs[0], o), o)
    requires r == Lines(gs[1..]) + tail || r == s
    requires k < |gs| && Left(s, gs[1..], k, tail)
    requires forall i :: 0 <= i < k ==> !Passes(Record(gs[1..][i], o), o)
    ensures j <= |gs| && Left(r, gs, j, tail)
    ensures forall i :: 0 <= i < j ==> !Passes(Record(gs[i], o), o)
  {
    if r == Lines(gs[1..]) + tail {
      j := 1;
    } else {
      LeftShift(s, gs, k, tail);
      FailuresShift(gs, k, o);
      j := k + 1;
    }
  }

  lemma {:induction false} FailuresShift(gs: seq<Group>, k: nat, o: Options)
    requires AllWellFormed(gs) && k < |gs| && !Passes(Record(gs[0], o), o)
    requires forall i :: 0 <= i < k ==> !Passes(Record(gs[1..][i], o), o)
    ensures forall i :: 0 <= i < k + 1 ==> !Passes(Record(gs[i], o), o)
  {
    forall i | 0 <= i < k + 1 ensures !Passes(Record(gs[i], o), o) {
      if i > 0 {
        assert gs[i] == gs[1..][i - 1];
      }
    }
  }

  lemma {:induction false} FirstFails(g: Group, o: Options)
    requires WellFormed(g)
    requires !Starts(g.fetch, o)
    ensures !Passes(Record(g, o), o)
  {
  }

  lemma {:induction false} SkipLosesNothing(gs: seq<Group>, j: nat, o: Options)
    requires AllWellFormed(gs) && j <= |gs|
    requires forall i :: 0 <= i < j ==> !Passes(Record(gs[i], o), o)
    ensures Select(Records(gs, o), o) == Select(Records(gs[j..], o), o)
  {
    RecordsSplit(gs, j, o);
    SelectConcat(Records(gs[..j], o), Records(gs[j..], o), o);
    SelectNone(Records(gs[..j], o), o);
  }

  // ---------------------------------------------------------------- the whole run

  lemma {:induction false} SkipTrace(lead: seq<Line>, gs: seq<Group>, tail: seq<Line>, o: Options) returns (j: nat)
    requires NoFetch(lead) && AllWellFormed(gs) && Unfinished(tail)
    ensures j <= |gs|
    ensures Left(SkipToFetch(SkipAhead(lead + (Lines(gs) + tail), o)), gs, j, tail)
    ensures forall i :: 0 <= i < j ==> !Passes(Record(gs[i], o), o)
  {
    SkipThrough(lead, Lines(gs) + tail, o);
    LinesStartWithFetch(gs, tail);
    j := SkipGroups(gs, tail, o);
    if SkipToFetch(SkipAhead(lead + (Lines(gs) + tail), o)) == Lines(gs) + tail {
      j := 0;
      assert gs[0..] == gs;
    }
  }

  lemma {:induction false} RunsBackSuffix(gs: seq<Group>, j: nat, o: Options)
    requires AllWellFormed(gs) && RunsBackWithin(gs, o) && j <= |gs|
    ensures RunsBackWithin(gs[j..], o)
  {
  }

  lemma {:induction false} RegionArrivals(region: seq<Line>, gs: seq<Group>, j: nat, tail: seq<Line>, o: Options)
    returns (n: nat)
    requires AllWellFormed(gs) && Unfinished(tail) && j <= |gs|
    requires Left(region, gs, j, tail)
    requires RunsBackWithin(gs, o)
    ensures j + n <= |gs|
    ensures Arrivals(region, Blank, o) == Records(gs[j..j + n], o)
    ensures Select(Records(gs[j..], o), o) == Select(Records(gs[j..j + n], o), o)
  {
    if region == Lines(gs[j..]) + tail {
      n := SuffixArrives(gs, j, tail, o);
    } else {
      n := 0;
      assert gs[j..] == gs[j..j + n] == [];
    }
  }

  lemma {:induction false} SuffixArrives(gs: seq<Group>, j: nat, tail: seq<Line>, o: Options) returns (n: nat)
    requires AllWellFormed(gs) && Unfinished(tail) && j <= |gs|
    requires RunsBackWithin(gs, o)
    ensures j + n <= |gs|
    ensures Arrivals(Lines(gs[j..]) + tail, Blank, o) == Records(gs[j..j + n], o)
    ensures Select(Records(gs[j..], o), o) == Select(Records(gs[j..j + n], o), o)
  {
    RunsBackSuffix(gs, j, o);
    n := GroupsArrive(gs[j..], tail, Blank, o);
    StopLosesNothing(gs[j..], n, o);
    TakeOfDrop(gs, j, n);
  }

  /** The queue receives a contiguous run of the records, and none outside it passes the filter. */
  lemma {:induction false} RunArrivals(lead: seq<Line>, gs: seq<Group>, tail: seq<Line>, o: Options)
    returns (j: nat, n: nat)
    requires NoFetch(lead) && AllWellFormed(gs) && Unfinished(tail)
    requires RunsBackWithin(gs, o)
    ensures j + n <= |gs|
    ensures Arrivals(SkipToFetch(SkipAhead(lead + (Lines(gs) + tail), o)), Blank, o) == Records(gs[j..j + n], o)
    ensures Select(Records(gs, o), o) == Select(Records(gs[j..j + n], o), o)
  {
    j := SkipTrace(lead, gs, tail, o);
    SkipLosesNothing(gs, j, o);
    n := RegionArrivals(SkipToFetch(SkipAhead(lead + (Lines(gs) + tail), o)), gs, j, tail, o);
  }

  /**
   Completeness: on a trace that runs back no further than the drift and the upper
   threshold, exactly the completed records that pass the filters are printed, each once,
   whatever the order they arrive in.
   */
  lemma {:induction false} PrintsExactly(lead: seq<Line>, gs: seq<Group>, tail: seq<Line>, o: Options)
    requires NoFetch(lead) && AllWellFormed(gs) && Unfinished(tail)
    requires RunsBackWithin(gs, o)
    ensures SameByKey(Printed(lead + (Lines(gs) + tail), o), Select(Records(gs, o), o), Sn)
  {
    var j, n := RunArrivals(lead, gs, tail, o);
    var a := Records(gs[j..j + n], o);
    forall k
      ensures WithKey(Printed(lead + (Lines(gs) + tail), o), Sn, k) == WithKey(Select(Records(gs, o), o), Sn, k)
    {
      DrainConserves(a, o.minThreshold, o.maxThreshold, k);
      SelectByKey(Drain(a, o.minThreshold, o.maxThreshold), o, k);
      SelectByKey(a, o, k);
    }
  }

  lemma {:induction false} RecordsWithin(gs: seq<Group>, j: nat, n: nat, o: Options)
    requires AllWellFormed(gs) && j + n <= |gs| && OutOfOrderWithin(Records(gs, o), o.minThreshold)
    ensures OutOfOrderWithin(Records(gs[j..j + n], o), o.minThreshold)
  {
    var a := Records(gs[j..j + n], o);
    forall i | 0 <= i < n ensures a[i] == Records(gs, o)[j + i] {}
  }

  lemma {:induction false} SelectedInOrder(a: seq<Inst>, o: Options)
    requires OutOfOrderWithin(a, o.minThreshold)
    ensures Select(Drain(a, o.minThreshold, o.maxThreshold), o) == Sort(Select(a, o), Sn)
  {
    DrainIsFullSort(a, o.minThreshold, o.maxThreshold);
    SelectOfSort(a, o);
  }

  /**
   The whole viewer: if moreover the records are out of order by at most the lower
   threshold, the output is the stable sort by sequence number of the records that pass.
   */
  lemma {:induction false} PrintsInOrder(lead: seq<Line>, gs: seq<Group>, tail: seq<Line>, o: Options)
    requires NoFetch(lead) && AllWellFormed(gs) && Unfinished(tail)
    requires RunsBackWithin(gs, o)
    requires OutOfOrderWithin(Records(gs, o), o.minThreshold)
    ensures Printed(lead + (Lines(gs) + tail), o) == Sort(Select(Records(gs, o), o), Sn)
  {
    var j, n := RunArrivals(lead, gs, tail, o);
    RecordsWithin(gs, j, n, o);
    SelectedInOrder(Records(gs[j..j + n], o), o);
  }

  /** Which instructions are printed, in terms of the lines of their groups and the options alone. */
  lemma {:induction false} PrintedIff(lead: seq<Line>, gs: seq<Group>, tail: seq<Line>, o: Options, i: nat)
    requires NoFetch(lead) && AllWellFormed(gs) && Unfinished(tail)
    requires RunsBackWithin(gs, o) && i < |gs|
    ensures Record(gs[i], o) in Printed(lead + (Lines(gs) + tail), o)
       <==> && (o.startSn <= 0 || gs[i].fetch.sn >= o.startSn) && (o.stopSn <= 0 || gs[i].fetch.sn <= o.stopSn)
            && (o.startTick <= 0 || gs[i].fetch.tick >= o.startTick)
            && (o.stopTick <= 0 || gs[i].fetch.tick <= o.stopTick)
            && (o.onlyCommitted ==> gs[i].retire.tick != 0)
  {
    var x := Record(gs[i], o);
    PrintsExactly(lead, gs, tail, o);
    WithKeyMembers(Printed(lead + (Lines(gs) + tail), o), Sn, x.sn);
    WithKeyMembers(Select(Records(gs, o), o), Sn, x.sn);
    SelectMembers(Records(gs, o), o);
    assert Records(gs, o)[i] == x;
  }

  /** What the reader prints can be drawn: no stage the timeline looks up is missing. */
  lemma {:induction false} PrintedAreDrawable(lead: seq<Line>, gs: seq<Group>, tail: seq<Line>, o: Options, x: Inst)
    requires NoFetch(lead) && AllWellFormed(gs) && Unfinished(tail)
    requires RunsBackWithin(gs, o)
    requires x in Printed(lead + (Lines(gs) + tail), o)
    ensures exists i :: 0 <= i < |gs| && x == Record(gs[i], o)
    ensures Timeline.Drawable(x, o.storeCompletions)
  {
    PrintsExactly(lead, gs, tail, o);
    WithKeyMembers(Printed(lead + (Lines(gs) + tail), o), Sn, x.sn);
    WithKeyMembers(Select(Records(gs, o), o), Sn, x.sn);
    assert x in WithKey(Select(Records(gs, o), o), Sn, x.sn);
    SelectMembers(Records(gs, o), o);
    var i :| 0 <= i < |gs| && x == Record(gs[i], o);
  }

  // ---------------------------------------------------------------- the picture of a group

  /** Line `i` is the last one that the group has for its stage. */
  ghost predicate LastOf(mids: seq<Line>, i: int) {
    && 0 <= i < |mids| && mids[i].StageLine?
    && forall j :: i < j < |mids| ==> mids[j].StageLine? ==> mids[j].stage != mids[i].stage
  }

  lemma {:induction false} NoLineNoStage(mids: seq<Line>, st: Stage)
    requires forall j :: 0 <= j < |mids| ==> mids[j].StageLine? ==> mids[j].stage != st
    ensures st !in StageMap(mids)
  {
    if mids != [] {
      NoLineNoStage(mids[1..], st);
    }
  }

  lemma {:induction false} LastLineCounts(mids: seq<Line>, i: int)
    requires LastOf(mids, i)
    ensures mids[i].stage in StageMap(mids) && StageMap(mids)[mids[i].stage] == mids[i].tick
  {
    if i == 0 {
      NoLineNoStage(mids[1..], mids[0].stage);
    } else {
      assert mids[1..][i - 1] == mids[i];
      LastLineCounts(mids[1..], i - 1);
    }
  }

  lemma {:induction false} StageHasLast(mids: seq<Line>, st: Stage) returns (i: nat)
    requires st in StageMap(mids)
    ensures LastOf(mids, i) && mids[i].stage == st
  {
    if st in StageMap(mids[1..]) {
      var k := StageHasLast(mids[1..], st);
      i := k + 1;
    } else {
      i := 0;
      forall j | 0 < j < |mids| && mids[j].StageLine? ensures mids[j].stage != st {
        LineHasStage(mids[1..], j - 1);
      }
    }
  }

  lemma {:induction false} LineHasStage(mids: seq<Line>, i: nat)
    requires i < |mids| && mids[i].StageLine?
    ensures mids[i].stage in StageMap(mids)
  {
    if i > 0 {
      LineHasStage(mids[1..], i - 1);
    }
  }

  ghost function Picture(g: Group, o: Options): Timeline.Ticks
    requires WellFormed(g)
  {
    Timeline.TicksOf(Record(g, o), o.storeCompletions)
  }

  lemma {:induction false} StageTick(g: Group, o: Options, i: nat, k: nat)
    requires WellFormed(g) && LastOf(g.mids, i)
    requires var st := g.mids[i].stage;
             || (st == Decode && k == 1) || (st == Rename && k == 2) || (st == Dispatch && k == 3)
             || (st == Issue && k == 4) || (st == Complete && k == 5)
    ensures k < |Picture(g, o)| && Picture(g, o)[k] == g.mids[i].tick
  {
    LastLineCounts(g.mids, i);
  }

  lemma {:induction false} DispatchIsDrawn(g: Group, o: Options, x: int)
    requires WellFormed(g) && forall j :: LastOf(g.mids, j) && g.mids[j].stage == Issue ==> g.mids[j].tick != x
    ensures Timeline.Drawn(Picture(g, o), Timeline.Event(3, x)) || Picture(g, o)[3] != x
  {
    var j := StageHasLast(g.mids, Issue);
    StageTick(g, o, j, 4);
  }

  /**
   The stage lines of a group in its picture: the tick of the last line of each stage shows the
   letter of that stage, except that a dispatch in the tick of the issue is not drawn.
   */
  lemma {:induction false} StageLineShows(g: Group, o: Options, width: int, cycle: int, tw: int, i: nat, letter: char)
    requires WellFormed(g) && width > 0 && cycle > 0 && 0 < tw == width * cycle
    requires LastOf(g.mids, i) && Timeline.HasColumn(Picture(g, o), cycle, tw, g.mids[i].tick)
    requires var st := g.mids[i].stage;
             || (st == Decode && letter == 'd') || (st == Rename && letter == 'n') || (st == Dispatch && letter == 'p')
             || (st == Issue && letter == 'i') || (st == Complete && letter == 'c')
    requires g.mids[i].stage == Dispatch ==>
               forall j :: LastOf(g.mids, j) && g.mids[j].stage == Issue ==> g.mids[j].tick != g.mids[i].tick
    ensures Timeline.ShowsAt(Picture(g, o), width, cycle, tw, g.mids[i].tick, letter)
  {
    var k := match g.mids[i].stage
      case Decode => 1 case Rename => 2 case Dispatch => 3 case Issue => 4 case Complete => 5 case Store => 0;
    StageTick(g, o, i, k);
    if k == 3 {
      DispatchIsDrawn(g, o, g.mids[i].tick);
    }
    Timeline.StageReads(Picture(g, o), k, width, cycle, tw);
  }

  /** Its fetch line in the same picture. */
  lemma {:induction false} FetchShows(g: Group, o: Options, width: int, cycle: int, tw: int)
    requires WellFormed(g) && width > 0 && cycle > 0 && 0 < tw == width * cycle
    requires Timeline.HasColumn(Picture(g, o), cycle, tw, g.fetch.tick)
    ensures Timeline.ShowsAt(Picture(g, o), width, cycle, tw, g.fetch.tick, 'f')
  {
    Timeline.StageReads(Picture(g, o), 0, width, cycle, tw);
  }

  /** Its retire line. */
  lemma {:induction false} RetireShows(g: Group, o: Options, width: int, cycle: int, tw: int)
    requires WellFormed(g) && width > 0 && cycle > 0 && 0 < tw == width * cycle
    requires Timeline.HasColumn(Picture(g, o), cycle, tw, g.retire.tick)
    ensures Timeline.ShowsAt(Picture(g, o), width, cycle, tw, g.retire.tick, 'r')
  {
    Timeline.StageReads(Picture(g, o), 6, width, cycle, tw);
  }

  /** The completion of a store. */
  lemma {:induction false} StoreShows(g: Group, o: Options, width: int, cycle: int, tw: int)
    requires WellFormed(g) && width > 0 && cycle > 0 && 0 < tw == width * cycle
    requires o.storeCompletions && Timeline.HasColumn(Picture(g, o), cycle, tw, g.retire.storeTick)
    ensures Timeline.ShowsAt(Picture(g, o), width, cycle, tw, g.retire.storeTick, 's')
  {
    Timeline.StageReads(Picture(g, o), 7, width, cycle, tw);
  }

  /** Stage `k` is drawn on the line. */
  predicate DrawnOn(t: Timeline.Ticks, tw: int, line: int, k: nat)
    requires tw > 0 && k < |t|
  {
    t[k] != 0 && Timeline.InWindow(t, tw, line, t[k]) && Timeline.Drawn(t, Timeline.Event(k, t[k]))
  }

  /** Every other cell of the picture is '=' exactly if the instruction was abandoned, and '.' otherwise. */
  lemma {:induction false} OtherCellsShow(g: Group, o: Options, width: int, cycle: int, line: int, c: int)
    requires WellFormed(g) && width > 0 && cycle > 0 && 0 <= c < width
    requires var t, tw := Picture(g, o), Timeline.LineTicks(width, cycle);
             && Timeline.Render(t, width, cycle).Some? && 0 <= line < Timeline.NumLines(t, tw)
             && Timeline.DistinctColumns(Timeline.DrawnIn(t, tw, line), cycle, tw)
             && forall k :: 0 <= k < |t| && DrawnOn(t, tw, line, k) ==> t[k] % tw / cycle != c
    ensures Timeline.Reads(Timeline.Render(Picture(g, o), width, cycle).value, line, c,
                           if g.retire.tick == 0 then '=' else '.')
  {
    var t := Picture(g, o);
    Timeline.RestIsDots(t, line, c, width, cycle);
    Timeline.RowReads(t, width, cycle, line, c, if g.retire.tick == 0 then '=' else '.');
  }

  /** Every printed record is drawn, unless it has neither a fetch tick nor a later one. */
  lemma {:induction false} PrintedAreDrawn(lead: seq<Line>, gs: seq<Group>, tail: seq<Line>, o: Options, x: Inst,
                                           width: int, cycle: int)
    requires NoFetch(lead) && AllWellFormed(gs) && Unfinished(tail)
    requires RunsBackWithin(gs, o)
    requires x in Printed(lead + (Lines(gs) + tail), o) && width > 0 && cycle > 0
    ensures Timeline.Drawable(x, o.storeCompletions)
    ensures var t := Timeline.TicksOf(x, o.storeCompletions);
            Timeline.Render(t, width, cycle).None? <==> x.fetch == 0 && forall k :: 0 <= k < |t| ==> t[k] <= 0
  {
    PrintedAreDrawable(lead, gs, tail, o, x);
    Timeline.RenderFailsIff(Timeline.TicksOf(x, o.storeCompletions), width, cycle);
  }
}
