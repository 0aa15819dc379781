/**
 The print queue of the O3 pipeline viewer (util/o3-pipeview.py, `queue_inst` and
 `print_insts`): a buffer that reorders a stream of instructions by sequence number
 while holding only a bounded part of it.

 The main results compare what the bounded buffer emits with one stable sort of the
 whole stream.
 */
module PipeQueue {
  import opened Sequences
  import opened Sorting

  datatype Stage = Decode | Rename | Dispatch | Issue | Complete | Store

  /** One `curr_inst` dictionary; `mids` holds the stages other than fetch and retire. */
  datatype Inst = Inst(sn: int, pc: string, upc: string, disasm: string,
                       fetch: int, retire: int, mids: map<Stage, int>)

  function Sn(i: Inst): int { i.sn }

  /** What has left the queue so far, before any filter, and what is still in it. */
  datatype Buffer = Buffer(popped: seq<Inst>, queue: seq<Inst>)

  /** `print_insts`: sort, then pop from the front while more than `lower` remain. */
  function Flush(b: Buffer, lower: nat): Buffer {
    var s := Sort(b.queue, Sn);
    var n := if |s| > lower then |s| - lower else 0;
    Buffer(b.popped + s[..n], s[n..])
  }

  /** `queue_inst`: append, and flush down to `lo` once more than `hi` are waiting. */
  function Push(b: Buffer, x: Inst, lo: nat, hi: nat): Buffer {
    var b' := Buffer(b.popped, b.queue + [x]);
    if |b'.queue| > hi then Flush(b', lo) else b'
  }

  function Feed(arrivals: seq<Inst>, lo: nat, hi: nat): Buffer {
    if arrivals == [] then Buffer([], [])
    else Push(Feed(arrivals[..|arrivals| - 1], lo, hi), arrivals[|arrivals| - 1], lo, hi)
  }

  /** Everything that leaves the queue: the stream is fed, then flushed down to zero. */
  function Drain(arrivals: seq<Inst>, lo: nat, hi: nat): seq<Inst> {
    Flush(Feed(arrivals, lo, hi), 0).popped
  }

  /** Every pair that arrives in the wrong order is at most `d` places apart. */
  ghost predicate OutOfOrderWithin(s: seq<Inst>, d: nat) {
    forall i, j :: 0 <= i < j < |s| && s[i].sn > s[j].sn ==> j - i <= d
  }

  // ---------------------------------------------------------------- conservation

  /** For each sequence number: what was popped, followed by what is queued. */
  function Content(b: Buffer, k: int): seq<Inst> {
    WithKey(b.popped, Sn, k) + WithKey(b.queue, Sn, k)
  }

  function ContentAbove(b: Buffer, k: int): nat {
    CountAbove(b.popped, Sn, k) + CountAbove(b.queue, Sn, k)
  }

  /** Moving the front of the queue, `front`, over to the popped side. */
  lemma {:induction false} MoveConserves(popped: seq<Inst>, front: seq<Inst>, back: seq<Inst>, k: int)
    ensures Content(Buffer(popped + front, back), k)
         == WithKey(popped, Sn, k) + (WithKey(front, Sn, k) + WithKey(back, Sn, k))
    ensures ContentAbove(Buffer(popped + front, back), k)
         == CountAbove(popped, Sn, k) + (CountAbove(front, Sn, k) + CountAbove(back, Sn, k))
  {
    WithKeyConcat(popped, front, Sn, k);
    CountAboveConcat(popped, front, Sn, k);
    ConcatAssociative(WithKey(popped, Sn, k), WithKey(front, Sn, k), WithKey(back, Sn, k));
  }

  lemma {:induction false} FlushConserves(b: Buffer, lower: nat, k: int)
    ensures Content(Flush(b, lower), k) == Content(b, k)
    ensures ContentAbove(Flush(b, lower), k) == ContentAbove(b, k)
  {
    var s := Sort(b.queue, Sn);
    var n := if |s| > lower then |s| - lower else 0;
    SortSplit(b.queue, n, Sn, k);
    MoveConserves(b.popped, s[..n], s[n..], k);
  }

  lemma {:induction false} AppendConserves(b: Buffer, x: Inst, k: int)
    ensures Content(Buffer(b.popped, b.queue + [x]), k) == Content(b, k) + WithKey([x], Sn, k)
    ensures ContentAbove(Buffer(b.popped, b.queue + [x]), k) == ContentAbove(b, k) + CountAbove([x], Sn, k)
  {
    WithKeyConcat(b.queue, [x], Sn, k);
    CountAboveConcat(b.queue, [x], Sn, k);
    ConcatAssociative(WithKey(b.popped, Sn, k), WithKey(b.queue, Sn, k), WithKey([x], Sn, k));
  }

  lemma {:induction false} PushConserves(b: Buffer, x: Inst, lo: nat, hi: nat, k: int)
    ensures Content(Push(b, x, lo, hi), k) == Content(b, k) + WithKey([x], Sn, k)
    ensures ContentAbove(Push(b, x, lo, hi), k) == ContentAbove(b, k) + CountAbove([x], Sn, k)
  {
    AppendConserves(b, x, k);
    FlushConserves(Buffer(b.popped, b.queue + [x]), lo, k);
  }

  /**
   Nothing is lost or repeated while the stream is fed, whatever the thresholds: for
   each sequence number, what was popped followed by what is queued is what arrived.
   */
  lemma {:induction false} FeedConserves(s: seq<Inst>, lo: nat, hi: nat, k: int)
    ensures Content(Feed(s, lo, hi), k) == WithKey(s, Sn, k)
  {
    if s != [] {
      var init, x := s[..|s| - 1], s[|s| - 1];
      FeedConserves(init, lo, hi, k);
      PushConserves(Feed(init, lo, hi), x, lo, hi, k);
      assert s == init + [x];
      WithKeyConcat(init, [x], Sn, k);
    }
  }

  lemma {:induction false} FeedCounts(s: seq<Inst>, lo: nat, hi: nat, k: int)
    ensures ContentAbove(Feed(s, lo, hi), k) == CountAbove(s, Sn, k)
  {
    if s != [] {
      var init, x := s[..|s| - 1], s[|s| - 1];
      FeedCounts(init, lo, hi, k);
      PushConserves(Feed(init, lo, hi), x, lo, hi, k);
      assert s == init + [x];
      CountAboveConcat(init, [x], Sn, k);
    }
  }

  /** The drained stream holds every arrival once, equal sequence numbers in arrival order. */
  lemma {:induction false} DrainConserves(s: seq<Inst>, lo: nat, hi: nat, k: int)
    ensures WithKey(Drain(s, lo, hi), Sn, k) == WithKey(s, Sn, k)
  {
    FeedConserves(s, lo, hi, k);
    FlushConserves(Feed(s, lo, hi), 0, k);
    assert Flush(Feed(s, lo, hi), 0).queue == [];
  }

  // ---------------------------------------------------------------- ordering

  /** A step of the stream keeps this: nothing already popped has to wait for `later`. */
  ghost predicate Settled(b: Buffer, later: seq<Inst>) {
    && SortedBy(b.popped, Sn)
    && (forall i, j :: 0 <= i < |b.popped| && 0 <= j < |b.queue| ==> b.popped[i].sn <= b.queue[j].sn)
    && (forall i, j :: 0 <= i < |b.popped| && 0 <= j < |later| ==> b.popped[i].sn <= later[j].sn)
  }

  /** Few of the first `n` arrivals lie above a later one: those that do are close to it. */
  lemma {:induction false} FewAbove(s: seq<Inst>, n: nat, k: nat, lo: nat)
    requires n <= k < |s|
    requires OutOfOrderWithin(s, lo)
    ensures CountAbove(s[..n], Sn, s[k].sn) <= lo
  {
    var m := if k - lo < 0 then 0 else if k - lo < n then k - lo else n;
    var far, near := s[..m], s[m..n];
    assert s[..n] == far + near;
    CountAboveConcat(far, near, Sn, s[k].sn);
    forall i | 0 <= i < |far| ensures Sn(far[i]) <= s[k].sn {
      assert far[i] == s[i];
    }
    CountAboveBounds(far, Sn, s[k].sn);
    CountAboveBounds(near, Sn, s[k].sn);
  }

  /**
   The pigeonhole step. Popping leaves `lo` instructions behind, none below the popped
   one; a later arrival below it would be below more than `lo` earlier ones, and the
   earliest of those would be more than `lo` places away.
   */
  lemma {:induction false} PoppedBelowLater(s: seq<Inst>, n: nat, b: Buffer, i: nat, k: nat, lo: nat)
    requires n <= k < |s|
    requires OutOfOrderWithin(s, lo)
    requires ContentAbove(b, s[k].sn) == CountAbove(s[..n], Sn, s[k].sn)
    requires i < |b.popped| && |b.queue| >= lo
    requires forall j :: 0 <= j < |b.queue| ==> b.popped[i].sn <= b.queue[j].sn
    ensures b.popped[i].sn <= s[k].sn
  {
    FewAbove(s, n, k, lo);
    var x := s[k].sn;
    CountAboveBounds(b.queue, Sn, x);
    CountAboveMember(b.popped, i, Sn, x);
  }

  lemma {:induction false} FlushOrders(b: Buffer, lower: nat)
    requires Settled(b, b.queue)
    ensures var f := Flush(b, lower);
            && SortedBy(f.popped, Sn)
            && (forall i, j :: 0 <= i < |f.popped| && 0 <= j < |f.queue| ==> f.popped[i].sn <= f.queue[j].sn)
  {
    var s := Sort(b.queue, Sn);
    SortSorted(b.queue, Sn);
    forall i, j | 0 <= i < |b.popped| && 0 <= j < |s|
      ensures b.popped[i].sn <= s[j].sn
    {
      assert s[j] in multiset(s);
      assert s[j] in b.queue;
    }
  }

  lemma {:induction false} FeedSettles(s: seq<Inst>, n: nat, lo: nat, hi: nat)
    requires n <= |s|
    requires OutOfOrderWithin(s, lo)
    ensures Settled(Feed(s[..n], lo, hi), s[n..])
  {
    if n > 0 {
      assert s[..n][..n - 1] == s[..n - 1];
      var b := Feed(s[..n - 1], lo, hi);
      FeedSettles(s, n - 1, lo, hi);
      var b' := Buffer(b.popped, b.queue + [s[n - 1]]);
      assert s[n - 1] == s[n - 1..][0];
      forall j | 0 <= j < |s[n..]| ensures s[n..][j] == s[n - 1..][j + 1] {}
      assert Settled(b', b'.queue);
      assert Settled(b', s[n..]);
      if |b'.queue| > hi {
        FlushStaysSettled(s, n, b', lo, hi);
      }
    }
  }

  lemma {:induction false} FlushShape(b: Buffer, lower: nat)
    ensures var f := Flush(b, lower);
            b.popped <= f.popped && (|f.popped| > |b.popped| ==> |f.queue| == lower)
  {
  }

  lemma {:induction false} PoppedFits(s: seq<Inst>, n: nat, b: Buffer, f: Buffer, i: nat, k: nat, lo: nat)
    requires n <= k < |s| && i < |f.popped|
    requires OutOfOrderWithin(s, lo)
    requires ContentAbove(f, s[k].sn) == CountAbove(s[..n], Sn, s[k].sn)
    requires b.popped <= f.popped && (|f.popped| > |b.popped| ==> |f.queue| == lo)
    requires forall j :: 0 <= j < |f.queue| ==> f.popped[i].sn <= f.queue[j].sn
    requires forall j :: 0 <= j < |b.popped| ==> b.popped[j].sn <= s[k].sn
    ensures f.popped[i].sn <= s[k].sn
  {
    if i < |b.popped| {
      assert f.popped[i] == b.popped[i];
    } else {
      PoppedBelowLater(s, n, f, i, k, lo);
    }
  }

  lemma {:induction false} FlushStaysSettled(s: seq<Inst>, n: nat, b: Buffer, lo: nat, hi: nat)
    requires 0 < n <= |s|
    requires OutOfOrderWithin(s, lo)
    requires Feed(s[..n], lo, hi) == Flush(b, lo)
    requires Settled(b, b.queue) && Settled(b, s[n..])
    ensures Settled(Flush(b, lo), s[n..])
  {
    FlushOrders(b, lo);
    FlushShape(b, lo);
    forall k | n <= k < |s| { FeedCounts(s[..n], lo, hi, s[k].sn); }
    FlushedFit(s, n, b, Flush(b, lo), lo);
  }

  lemma {:induction false} FlushedFit(s: seq<Inst>, n: nat, b: Buffer, f: Buffer, lo: nat)
    requires n <= |s| && OutOfOrderWithin(s, lo)
    requires SortedBy(f.popped, Sn)
    requires forall k :: n <= k < |s| ==> ContentAbove(f, s[k].sn) == CountAbove(s[..n], Sn, s[k].sn)
    requires b.popped <= f.popped && (|f.popped| > |b.popped| ==> |f.queue| == lo)
    requires forall i, j :: 0 <= i < |f.popped| && 0 <= j < |f.queue| ==> f.popped[i].sn <= f.queue[j].sn
    requires Settled(b, s[n..])
    ensures Settled(f, s[n..])
  {
    forall i, j | 0 <= i < |f.popped| && 0 <= j < |s[n..]|
      ensures f.popped[i].sn <= s[n..][j].sn
    {
      assert s[n..][j] == s[n + j];
      PoppedFits(s, n, b, f, i, n + j, lo);
    }
  }

  /**
   The promise of the queue: if no two instructions arrive out of order by more than
   `lo` places, the bounded buffer emits the stable sort of the whole stream. It holds
   for every pair of thresholds, also when `lo` exceeds `hi`.
   */
  lemma {:induction false} DrainIsFullSort(s: seq<Inst>, lo: nat, hi: nat)
    requires OutOfOrderWithin(s, lo)
    ensures Drain(s, lo, hi) == Sort(s, Sn)
  {
    assert s[..|s|] == s;
    FeedSettles(s, |s|, lo, hi);
    FlushOrders(Feed(s, lo, hi), 0);
    SortSorted(s, Sn);
    forall k ensures WithKey(Drain(s, lo, hi), Sn, k) == WithKey(Sort(s, Sn), Sn, k) {
      DrainConserves(s, lo, hi, k);
      SortByKey(s, Sn, k);
    }
    SortIsUnique(Drain(s, lo, hi), Sort(s, Sn), Sn);
  }

  // ---------------------------------------------------------------- the bound is tight

  function Numbered(sn: int): Inst {
    Inst(sn, "", "", "", 0, 0, map[])
  }

  lemma {:induction false} FeedHolds(s: seq<Inst>, lo: nat, hi: nat)
    requires SortedBy(s, Sn)
    requires |s| <= lo || |s| <= hi
    ensures Feed(s, lo, hi) == Buffer([], s)
  {
    if s != [] {
      var init := s[..|s| - 1];
      FeedHolds(init, lo, hi);
      assert init + [s[|s| - 1]] == s;
      SortOfSorted(s, Sn);
    }
  }

  lemma {:induction false} FlushOfSorted(s: seq<Inst>, lo: nat)
    requires SortedBy(s, Sn) && lo <= |s|
    ensures Flush(Buffer([], s), lo) == Buffer(s[..|s| - lo], s[|s| - lo..])
  {
    SortOfSorted(s, Sn);
  }

  lemma {:induction false} FeedOverflows(s: seq<Inst>, lo: nat, hi: nat)
    requires SortedBy(s, Sn)
    requires |s| == (if lo < hi then hi else lo) + 1
    ensures Feed(s, lo, hi) == Buffer(s[..|s| - lo], s[|s| - lo..])
  {
    var init := s[..|s| - 1];
    FeedHolds(init, lo, hi);
    assert init + [s[|s| - 1]] == s;
    FlushOfSorted(s, lo);
  }

  lemma {:induction false} DrainExtends(s: seq<Inst>, x: Inst, lo: nat, hi: nat)
    ensures Feed(s, lo, hi).popped <= Drain(s + [x], lo, hi)
  {
    assert (s + [x])[..|s|] == s;
  }

  /** Increasing even numbers, then one that belongs in front of the `m - lo`-th of them. */
  function Rising(m: nat): (up: seq<Inst>)
    ensures |up| == m + 1
    ensures forall i :: 0 <= i <= m ==> up[i].sn == 2 * i + 2
  {
    seq(m + 1, i => Numbered(2 * i + 2))
  }

  lemma {:induction false} LateComesOut(s: seq<Inst>, j: nat, lo: nat, hi: nat) returns (i: nat)
    requires j < |s|
    ensures i < |Drain(s, lo, hi)| && Drain(s, lo, hi)[i] == s[j]
  {
    DrainConserves(s, lo, hi, s[j].sn);
    WithKeyMembers(s, Sn, s[j].sn);
    WithKeyMembers(Drain(s, lo, hi), Sn, s[j].sn);
    assert s[j] in Drain(s, lo, hi);
    i :| 0 <= i < |Drain(s, lo, hi)| && Drain(s, lo, hi)[i] == s[j];
  }

  function TightStream(lo: nat, hi: nat): seq<Inst> {
    var m := if lo < hi then hi else lo;
    Rising(m) + [Numbered(2 * (m - lo) + 1)]
  }

  /** Overflowing an ordered queue settles all but its last `lo` members, whatever comes next. */
  lemma {:induction false} OverflowPops(s: seq<Inst>, m: nat, lo: nat, hi: nat)
    requires |s| == m + 2 && m == (if lo < hi then hi else lo)
    requires SortedBy(s[..m + 1], Sn)
    ensures s[..m - lo + 1] <= Drain(s, lo, hi)
  {
    var up, x := s[..m + 1], s[m + 1];
    assert s == up + [x];
    FeedOverflows(up, lo, hi);
    DrainExtends(up, x, lo, hi);
    assert up[..m - lo + 1] == s[..m - lo + 1];
  }

  lemma {:induction false} LateIsMisplaced(front: seq<Inst>, out: seq<Inst>, j: nat)
    requires front != [] && front <= out && j < |out|
    requires forall i :: 0 <= i < |front| ==> front[i].sn != out[j].sn
    requires front[|front| - 1].sn > out[j].sn
    ensures !SortedBy(out, Sn)
  {
    assert forall i :: 0 <= i < |front| ==> out[i] == front[i];
    assert Sn(out[|front| - 1]) > Sn(out[j]);
  }

  lemma {:induction false} TightStreamWithin(lo: nat, hi: nat)
    ensures OutOfOrderWithin(TightStream(lo, hi), lo + 1)
    ensures var m := if lo < hi then hi else lo;
            && |TightStream(lo, hi)| == m + 2
            && (forall i :: 0 <= i <= m ==> TightStream(lo, hi)[i].sn == 2 * i + 2)
            && TightStream(lo, hi)[m + 1].sn == 2 * (m - lo) + 1
  {
    var m := if lo < hi then hi else lo;
    var s := TightStream(lo, hi);
    assert |s| == m + 2;
    assert forall i :: 0 <= i <= m ==> s[i].sn == 2 * i + 2;
    assert s[m + 1].sn == 2 * (m - lo) + 1;
  }

  /**
   The window cannot be widened: for every pair of thresholds some stream that is out of
   order by at most `lo + 1` places is printed out of order.
   */
  lemma {:induction false} WindowIsTight(lo: nat, hi: nat) returns (s: seq<Inst>)
    ensures OutOfOrderWithin(s, lo + 1)
    ensures !SortedBy(Drain(s, lo, hi), Sn)
  {
    var m := if lo < hi then hi else lo;
    s := TightStream(lo, hi);
    TightStreamWithin(lo, hi);
    OverflowPops(s, m, lo, hi);
    var j := LateComesOut(s, m + 1, lo, hi);
    LateIsMisplaced(s[..m - lo + 1], Drain(s, lo, hi), j);
  }
}
