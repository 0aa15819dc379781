/**
 The run-control loops of configs/common/Simulation.py, `scriptCheckpoints` in tick mode and
 `repeatSwitch`, against a simulator that may stop early for reasons of its own, and whose
 clock runs on while it drains for a checkpoint or a switch.
 */
module Simulation {
  import opened Arithmetic
  import opened Results

  /** Why `m5.simulate` returned. `Rejected` is the error for a negative number of ticks. */
  datatype Cause = Limit | Checkpoint | Exit | Rejected

  /**
   What the simulator will do on a request: run to the limit, or stop after at most `ticks`
   ticks because the guest asks for a checkpoint or because the simulation ends.
   */
  datatype Reply = Reach | Guest(ticks: nat) | Quit(ticks: nat)

  datatype Request = Request(at: int, ticks: int)

  /**
   The simulator: its clock, its future replies (when they run out it simulates to the limit),
   how long it will take to drain (when they run out, no time), and what has been asked of it
   and written so far.
   */
  datatype Sim = Sim(tick: int, replies: seq<Reply>, drains: seq<nat>, requests: seq<Request>, dropped: seq<int>)

  function Min(a: int, b: int): int {
    if a < b then a else b
  }

  function Tail<T>(s: seq<T>): seq<T> {
    if s == [] then [] else s[1..]
  }

  /** `m5.simulate(d)`: at most `d` ticks, and exactly `d` when the limit is reached. */
  function Ask(s: Sim, d: int): (r: (Sim, Cause))
    ensures r.1 == Limit ==> d >= 0 && r.0.tick == s.tick + d
    ensures d >= 0 ==> s.tick <= r.0.tick <= s.tick + d && r.1 != Rejected
    ensures r.1 == Checkpoint ==> |r.0.replies| < |s.replies|
    ensures r.0.dropped == s.dropped && r.0.drains == s.drains && r.0.requests == s.requests + [Request(s.tick, d)]
  {
    var asked := s.(requests := s.requests + [Request(s.tick, d)]);
    if d < 0 then (asked, Rejected)
    else if s.replies == [] || s.replies[0].Reach? then (asked.(tick := s.tick + d, replies := Tail(s.replies)), Limit)
    else
      (asked.(tick := s.tick + Min(s.replies[0].ticks, d), replies := s.replies[1..]),
       if s.replies[0].Guest? then Checkpoint else Exit)
  }

  /** Ask for the ticks left until `target`, again and again while the guest asks for checkpoints. */
  function AskUntil(s: Sim, target: int): (r: (Sim, Cause))
    ensures r.1 == Limit ==> r.0.tick == target
    ensures r.1 != Checkpoint
    ensures r.0.dropped == s.dropped && r.0.drains == s.drains
    decreases |s.replies|
  {
    var (s', cause) := Ask(s, target - s.tick);
    if cause == Checkpoint then AskUntil(s', target) else (s', cause)
  }

  // ---------------------------------------------------------------- draining

  /** How long the `i`-th drain takes. */
  function DrainAt(drains: seq<nat>, i: nat): nat {
    if i < |drains| then drains[i] else 0
  }

  /** How long the first `n` drains take. */
  function DrainSum(drains: seq<nat>, n: nat): nat
    decreases n
  {
    if n == 0 then 0 else DrainAt(drains, 0) + DrainSum(Tail(drains), n - 1)
  }

  /** `drain()`: simulation without a limit until all objects are drained. */
  function Drained(s: Sim): Sim {
    s.(tick := s.tick + DrainAt(s.drains, 0), drains := Tail(s.drains))
  }

  /** `m5.checkpoint`: the checkpoint is written once the simulator has drained. */
  function Drop(s: Sim): Sim {
    var s' := Drained(s);
    s'.(dropped := s'.dropped + [s'.tick])
  }

  lemma {:induction false} DrainTail(drains: seq<nat>, i: nat)
    ensures DrainAt(Tail(drains), i) == DrainAt(drains, i + 1)
  {
  }

  lemma {:induction false} DrainSumLast(drains: seq<nat>, n: nat)
    ensures DrainSum(drains, n + 1) == DrainSum(drains, n) + DrainAt(drains, n)
    decreases n
  {
    if n == 0 {
      assert DrainSum(Tail(drains), 0) == 0;
    } else {
      DrainSumLast(Tail(drains), n - 1);
      DrainTail(drains, n - 1);
    }
  }

  lemma {:induction false} NoDrainsSum(drains: seq<nat>, n: nat)
    requires forall i :: 0 <= i < n ==> DrainAt(drains, i) == 0
    ensures DrainSum(drains, n) == 0
  {
    if n > 0 {
      NoDrainsSum(drains, n - 1);
      DrainSumLast(drains, n - 1);
    }
  }

  /** The clock at the start of turn `j` of a loop that simulates `step` ticks and drains on every turn. */
  function Clock(t: int, step: int, drains: seq<nat>, j: nat): int
    decreases j
  {
    if j == 0 then t else Clock(t + step + DrainAt(drains, 0), step, Tail(drains), j - 1)
  }

  lemma {:induction false} OneMore(j: int, x: int)
    ensures (j + 1) * x == j * x + x
  {
  }

  lemma {:induction false} ClockIs(t: int, step: int, drains: seq<nat>, j: nat)
    ensures Clock(t, step, drains, j) == t + j * step + DrainSum(drains, j)
    decreases j
  {
    if j > 0 {
      ClockIs(t + step + DrainAt(drains, 0), step, Tail(drains), j - 1);
      OneMore(j - 1, step);
    }
  }

  // ---------------------------------------------------------------- scripted checkpoints

  datatype Plan = Plan(when: int, period: int, maxCheckpoints: int, maxtick: int)

  /** The loop goes on to another period. */
  predicate GoesOn(p: Plan, simTicks: int, n: int) {
    n < p.maxCheckpoints && simTicks + p.period <= p.maxtick
  }

  /** The next reply, if any, lets the request reach its limit. */
  predicate ReachesNext(replies: seq<Reply>) {
    replies == [] || replies[0].Reach?
  }

  /** A period that reaches its limit, and its checkpoint. */
  function FullPeriod(s: Sim, p: Plan): Sim {
    Drop(s.(tick := s.tick + p.period, replies := Tail(s.replies),
            requests := s.requests + [Request(s.tick, p.period)]))
  }

  /**
   A period that does not reach its limit at once, with `goal` the tick at which the loop
   believes it to end. It may still get its checkpoint, but the loop tests the first cause.
   */
  function BrokenPeriod(s: Sim, p: Plan, goal: int): (Sim, Cause) {
    var (s1, first) := Ask(s, p.period);
    if first != Checkpoint then (s1, first)
    else
      var (s2, last) := AskUntil(s1, goal);
      (if last == Limit then Drop(s2) else s2, last)
  }

  /** The end of the loop: the ticks that remain, unless the maximum number has been written. */
  function Leftover(s: Sim, p: Plan, simTicks: int, n: int): (Sim, Cause) {
    if n >= p.maxCheckpoints then (s, Limit) else Ask(s, p.maxtick - simTicks)
  }

  /** The main loop, with `n` checkpoints dropped and `simTicks` where the last one was due. */
  function Periods(s: Sim, p: Plan, simTicks: int, n: int): (Sim, Cause)
    decreases p.maxCheckpoints - n
  {
    if !GoesOn(p, simTicks, n) then Leftover(s, p, simTicks, n)
    else if p.period >= 0 && ReachesNext(s.replies) then Periods(FullPeriod(s, p), p, simTicks + p.period, n + 1)
    else BrokenPeriod(s, p, simTicks + p.period)
  }

  function Script(s: Sim, p: Plan): (Sim, Cause) {
    var (s', cause) := AskUntil(s, p.when);
    if cause == Limit then Periods(Drop(s'), p, p.when, 1) else (s', cause)
  }

  // ---------------------------------------------------------------- what the replies decide

  /** The number of requests that reach their limit before the first that does not. */
  function FirstStop(replies: seq<Reply>): (k: nat)
    ensures k <= |replies|
  {
    if ReachesNext(replies) then (if replies == [] then 0 else 1 + FirstStop(replies[1..])) else 0
  }

  /** The first reply that is not a guest checkpoint reaches its limit. */
  predicate Recovers(replies: seq<Reply>) {
    replies == [] || replies[0].Reach? || (replies[0].Guest? && Recovers(replies[1..]))
  }

  /** The replies after that one. */
  function Remaining(replies: seq<Reply>): seq<Reply> {
    if replies == [] then [] else if replies[0].Guest? then Remaining(replies[1..]) else replies[1..]
  }

  lemma {:induction false} AskUntilOutcome(s: Sim, target: int)
    ensures s.tick > target ==> AskUntil(s, target).1 == Rejected
    ensures s.tick <= target ==>
              && (AskUntil(s, target).1 == Limit <==> Recovers(s.replies))
              && AskUntil(s, target).0.replies == Remaining(s.replies)
    decreases |s.replies|
  {
    if s.tick <= target && s.replies != [] && s.replies[0].Guest? {
      AskUntilOutcome(Ask(s, target - s.tick).0, target);
    }
  }

  // ---------------------------------------------------------------- when checkpoints are written

  /**
   Due time plus drains; after a guest checkpoint the loop asks for the due time itself, and only
   its own drain is added.
   */
  function TickOf(first: int, period: int, replies: seq<Reply>, drains: seq<nat>, late: int, j: nat): int {
    first + (j + 1) * period
    + (if j < |replies| && replies[j].Guest? then DrainAt(drains, j) else late + DrainSum(drains, j + 1))
  }

  lemma {:induction false} TickOfShift(first: int, period: int, replies: seq<Reply>, drains: seq<nat>,
                                       late: int, j: nat)
    requires j > 0
    ensures TickOf(first, period, replies, drains, late, j)
         == TickOf(first + period, period, Tail(replies), Tail(drains), late + DrainAt(drains, 0), j - 1)
  {
    DrainTail(drains, j - 1);
    OneMore(j, period);
  }

  lemma {:induction false} PeriodsKeepDropped(s: Sim, p: Plan, simTicks: int, n: int)
    ensures s.dropped <= Periods(s, p, simTicks, n).0.dropped
    ensures |Periods(s, p, simTicks, n).0.dropped|
         <= |s.dropped| + (if n < p.maxCheckpoints then p.maxCheckpoints - n else 0)
    decreases p.maxCheckpoints - n
  {
    if GoesOn(p, simTicks, n) {
      if p.period >= 0 && ReachesNext(s.replies) {
        PeriodsKeepDropped(FullPeriod(s, p), p, simTicks + p.period, n + 1);
      }
    }
  }

  lemma {:induction false} PeriodsTick(s: Sim, p: Plan, simTicks: int, n: int, j: nat)
    requires |s.dropped| + j < |Periods(s, p, simTicks, n).0.dropped|
    ensures Periods(s, p, simTicks, n).0.dropped[|s.dropped| + j]
         == TickOf(simTicks, p.period, s.replies, s.drains, s.tick - simTicks, j)
    decreases p.maxCheckpoints - n
  {
    if p.period >= 0 && ReachesNext(s.replies) {
      FullPeriodGoesOn(s, p, simTicks, n);
      if j == 0 {
        FirstPeriodTick(s, p, simTicks, n);
      } else {
        PeriodsTick(FullPeriod(s, p), p, simTicks + p.period, n + 1, j - 1);
        FullPeriodShift(s, p, simTicks, j);
      }
    } else {
      LastPeriodTick(s, p, simTicks, n, j);
    }
  }

  lemma {:induction false} FullPeriodGoesOn(s: Sim, p: Plan, simTicks: int, n: int)
    requires p.period >= 0 && ReachesNext(s.replies)
    requires GoesOn(p, simTicks, n) || |s.dropped| < |Periods(s, p, simTicks, n).0.dropped|
    ensures n < p.maxCheckpoints
    ensures Periods(s, p, simTicks, n) == Periods(FullPeriod(s, p), p, simTicks + p.period, n + 1)
    ensures var s' := FullPeriod(s, p);
            && s'.dropped == s.dropped + [s.tick + p.period + DrainAt(s.drains, 0)]
            && s'.tick == s.tick + p.period + DrainAt(s.drains, 0)
            && s'.drains == Tail(s.drains) && s'.replies == Tail(s.replies)
  {
  }

  lemma {:induction false} FullPeriodShift(s: Sim, p: Plan, simTicks: int, j: nat)
    requires j > 0
    ensures var s' := FullPeriod(s, p);
            && |s'.dropped| + (j - 1) == |s.dropped| + j
            && TickOf(simTicks, p.period, s.replies, s.drains, s.tick - simTicks, j)
               == TickOf(simTicks + p.period, p.period, s'.replies, s'.drains, s'.tick - (simTicks + p.period), j - 1)
  {
    TickOfShift(simTicks, p.period, s.replies, s.drains, s.tick - simTicks, j);
  }

  lemma {:induction false} FirstPeriodTick(s: Sim, p: Plan, simTicks: int, n: int)
    requires p.period >= 0 && ReachesNext(s.replies)
    requires |s.dropped| < |Periods(s, p, simTicks, n).0.dropped|
    ensures Periods(s, p, simTicks, n).0.dropped[|s.dropped|]
         == TickOf(simTicks, p.period, s.replies, s.drains, s.tick - simTicks, 0)
  {
    FullPeriodGoesOn(s, p, simTicks, n);
    PeriodsKeepDropped(FullPeriod(s, p), p, simTicks + p.period, n + 1);
    assert DrainSum(s.drains, 1) == DrainAt(s.drains, 0);
  }

  lemma {:induction false} LastPeriodTick(s: Sim, p: Plan, simTicks: int, n: int, j: nat)
    requires |s.dropped| + j < |Periods(s, p, simTicks, n).0.dropped|
    requires !(p.period >= 0 && ReachesNext(s.replies))
    ensures Periods(s, p, simTicks, n).0.dropped[|s.dropped| + j]
         == TickOf(simTicks, p.period, s.replies, s.drains, s.tick - simTicks, j)
  {
  }

  /** The tick of checkpoint `i` of a whole run. */
  function CheckpointTick(s: Sim, p: Plan, i: nat): int {
    var replies := Remaining(s.replies);
    p.when + i * p.period
    + (if 0 < i <= |replies| && replies[i - 1].Guest? then DrainAt(s.drains, i) else DrainSum(s.drains, i + 1))
  }

  /**
   Whatever the simulator does, checkpoint `i` is due at when + i * period and is written late by
   all the drains up to its own; only a checkpoint after a guest's checkpoint instruction, which
   is the last, is late by its own drain alone. There are at most the maximum (or one).
   */
  lemma {:induction false} CheckpointTicks(s: Sim, p: Plan, i: nat)
    requires s.dropped == []
    ensures |Script(s, p).0.dropped| <= (if p.maxCheckpoints > 1 then p.maxCheckpoints else 1)
    ensures i < |Script(s, p).0.dropped| ==> Script(s, p).0.dropped[i] == CheckpointTick(s, p, i)
  {
    var (s', cause) := AskUntil(s, p.when);
    AskUntilOutcome(s, p.when);
    if cause == Limit {
      PeriodsKeepDropped(Drop(s'), p, p.when, 1);
      assert DrainSum(s.drains, 1) == DrainAt(s.drains, 0);
      if 0 < i < |Script(s, p).0.dropped| {
        PeriodsTick(Drop(s'), p, p.when, 1, i - 1);
        DrainTail(s.drains, i - 1);
      }
    }
  }

  ghost predicate OnSchedule(dropped: seq<int>, p: Plan) {
    forall i :: 0 <= i < |dropped| ==> dropped[i] == p.when + i * p.period
  }

  /** The checkpoints are on schedule exactly if none of the drains took any time. */
  lemma {:induction false} OnScheduleIff(s: Sim, p: Plan)
    requires s.dropped == []
    ensures var d := Script(s, p).0.dropped;
            OnSchedule(d, p) <==> forall i :: 0 <= i < |d| ==> DrainAt(s.drains, i) == 0
  {
    var d := Script(s, p).0.dropped;
    forall i | 0 <= i < |d| ensures d[i] == CheckpointTick(s, p, i) {
      CheckpointTicks(s, p, i);
    }
    if OnSchedule(d, p) {
      forall i | 0 <= i < |d| ensures DrainAt(s.drains, i) == 0 {
        assert d[i] == CheckpointTick(s, p, i) == p.when + i * p.period;
        DrainSumLast(s.drains, i);
      }
    }
    if forall i :: 0 <= i < |d| ==> DrainAt(s.drains, i) == 0 {
      forall i | 0 <= i < |d| ensures d[i] == p.when + i * p.period {
        NoDrainsSum(s.drains, i + 1);
      }
    }
  }

  /** A run that is late from its first checkpoint on. */
  lemma {:induction false} DrainDelaysCheckpoint()
    ensures var p := Plan(10, 10, 5, 100);
            var d := Script(Sim(0, [], [1], [], []), p).0.dropped;
            |d| == 5 && d[0] == 11 && d[4] == 51 && !OnSchedule(d, p)
  {
    var s, p := Sim(0, [], [1], [], []), Plan(10, 10, 5, 100);
    UndisturbedSeries(s, p);
    CheckpointTicks(s, p, 0);
    CheckpointTicks(s, p, 4);
    assert DrainSum([], 4) == 0 by {
      NoDrainsSum([], 4);
    }
    assert DrainSum([1], 5) == DrainAt([1], 0) + DrainSum(Tail([1]), 4) && DrainSum([1], 1) == 1 + DrainSum([], 0);
    assert Tail([1]) == [];
  }

  /** With a simulator that is always drained, checkpoints are written at when, when + period, ... with no gap. */
  lemma {:induction false} DropsOnSchedule(s: Sim, p: Plan)
    requires s.dropped == [] && s.drains == []
    ensures OnSchedule(Script(s, p).0.dropped, p)
  {
    OnScheduleIff(s, p);
  }

  // ---------------------------------------------------------------- how many checkpoints

  /** The periods that still fit: limited by the maximum count and by maxtick. */
  function PeriodsLeft(p: Plan, simTicks: int, n: int): nat
    requires p.period >= 0
  {
    if n >= p.maxCheckpoints || simTicks > p.maxtick then 0
    else if p.period == 0 then p.maxCheckpoints - n
    else Min((p.maxtick - simTicks) / p.period, p.maxCheckpoints - n)
  }

  lemma {:induction false} PeriodsLeftStep(p: Plan, simTicks: int, n: int)
    requires p.period >= 0
    ensures GoesOn(p, simTicks, n) ==> PeriodsLeft(p, simTicks, n) == PeriodsLeft(p, simTicks + p.period, n + 1) + 1
    ensures !GoesOn(p, simTicks, n) ==> PeriodsLeft(p, simTicks, n) == 0
  {
    if simTicks <= p.maxtick && p.period > 0 {
      ModOfMultiple(p.maxtick - simTicks - p.period, 1, p.period);
      DivIsTheOnly(p.maxtick - simTicks, p.period, 0);
    }
  }

  /** The period of the first reply that is not a limit gets its checkpoint. */
  predicate LastIsWritten(p: Plan, replies: seq<Reply>, drains: seq<nat>, late: int)
    requires FirstStop(replies) < |replies|
  {
    var k := FirstStop(replies);
    && replies[k].Guest?
    && late + DrainSum(drains, k) + Min(replies[k].ticks, p.period) <= p.period
    && Recovers(replies[k + 1..])
  }

  /** How many checkpoints the loop writes when `left` periods fit and the clock is `late` ticks behind. */
  function Series(p: Plan, replies: seq<Reply>, drains: seq<nat>, late: int, left: nat): nat {
    var k := FirstStop(replies);
    if k == |replies| || left <= k then left
    else if LastIsWritten(p, replies, drains, late) then k + 1
    else k
  }

  lemma {:induction false} SeriesShift(p: Plan, replies: seq<Reply>, drains: seq<nat>, late: int, left: nat)
    requires ReachesNext(replies)
    ensures Series(p, replies, drains, late, left + 1)
         == Series(p, Tail(replies), Tail(drains), late + DrainAt(drains, 0), left) + 1
  {
    if FirstStop(replies) < |replies| {
      var k := FirstStop(replies);
      assert replies[k + 1..] == replies[1..][k..];
      assert replies[k] == replies[1..][k - 1];
    }
  }

  /**
   What the guest can do to the series, for every run. As long as every request reaches its
   limit, all checkpoints that fit are written, however long draining takes. The first request
   that does not reach its limit is the last one: an exit ends the series at once; a checkpoint
   instruction of the guest ends it too, although it is meant to be skipped, because the cause
   that the loop tests is not the last one. Its own period still gets a checkpoint exactly if
   the clock has not passed the due time and the replies after it recover.
   */
  lemma {:induction false} GuestEndsSeries(s: Sim, p: Plan, simTicks: int, n: int)
    requires p.period >= 0 && s.tick >= simTicks
    ensures |Periods(s, p, simTicks, n).0.dropped|
         == |s.dropped| + Series(p, s.replies, s.drains, s.tick - simTicks, PeriodsLeft(p, simTicks, n))
    decreases p.maxCheckpoints - n
  {
    PeriodsLeftStep(p, simTicks, n);
    if GoesOn(p, simTicks, n) {
      if ReachesNext(s.replies) {
        GuestEndsSeries(FullPeriod(s, p), p, simTicks + p.period, n + 1);
        FullPeriodCounts(s, p, simTicks, n, PeriodsLeft(p, simTicks + p.period, n + 1));
      } else {
        StopEndsSeries(s, p, simTicks, n);
      }
    }
  }

  lemma {:induction false} FullPeriodCounts(s: Sim, p: Plan, simTicks: int, n: int, left: nat)
    requires p.period >= 0 && GoesOn(p, simTicks, n) && ReachesNext(s.replies)
    requires var s' := FullPeriod(s, p);
             |Periods(s', p, simTicks + p.period, n + 1).0.dropped|
             == |s'.dropped| + Series(p, s'.replies, s'.drains, s'.tick - (simTicks + p.period), left)
    ensures |Periods(s, p, simTicks, n).0.dropped|
         == |s.dropped| + Series(p, s.replies, s.drains, s.tick - simTicks, left + 1)
  {
    FullPeriodGoesOn(s, p, simTicks, n);
    SeriesShift(p, s.replies, s.drains, s.tick - simTicks, left);
  }

  lemma {:induction false} StopEndsSeries(s: Sim, p: Plan, simTicks: int, n: int)
    requires p.period >= 0 && s.tick >= simTicks && GoesOn(p, simTicks, n) && !ReachesNext(s.replies)
    ensures |Periods(s, p, simTicks, n).0.dropped|
         == |s.dropped| + Series(p, s.replies, s.drains, s.tick - simTicks, PeriodsLeft(p, simTicks, n))
  {
    PeriodsLeftStep(p, simTicks, n);
    AskUntilOutcome(Ask(s, p.period).0, simTicks + p.period);
    assert DrainSum(s.drains, 0) == 0;
  }

  /** The number of checkpoints of a whole run. */
  lemma {:induction false} ScriptLength(s: Sim, p: Plan)
    requires s.dropped == [] && p.period >= 0
    ensures |Script(s, p).0.dropped|
         == if s.tick > p.when || !Recovers(s.replies) then 0
            else 1 + Series(p, Remaining(s.replies), Tail(s.drains), DrainAt(s.drains, 0), PeriodsLeft(p, p.when, 1))
  {
    var (s', cause) := AskUntil(s, p.when);
    AskUntilOutcome(s, p.when);
    if cause == Limit {
      GuestEndsSeries(Drop(s'), p, p.when, 1);
    }
  }

  /**
   All checkpoints that fit are written exactly if the first one is reached and no later request
   stops early, except possibly the last one, for a guest checkpoint from which it recovers.
   */
  lemma {:induction false} FullSeriesIff(s: Sim, p: Plan)
    requires s.dropped == [] && p.period >= 0
    ensures var left, replies := PeriodsLeft(p, p.when, 1), Remaining(s.replies);
            var k := FirstStop(replies);
            |Script(s, p).0.dropped| == 1 + left
            <==> && s.tick <= p.when && Recovers(s.replies)
                 && (|| k == |replies| || left <= k
                     || (left == k + 1 && LastIsWritten(p, replies, Tail(s.drains), DrainAt(s.drains, 0))))
  {
    ScriptLength(s, p);
  }

  /** A run in which five checkpoints fit and one guest checkpoint leaves two of them. */
  lemma {:induction false} GuestCheckpointLoses()
    ensures var p := Plan(10, 10, 5, 100);
            && 1 + PeriodsLeft(p, 10, 1) == 5
            && |Script(Sim(0, [Reach, Guest(3), Reach], [], [], []), p).0.dropped| == 2
  {
    ScriptLength(Sim(0, [Reach, Guest(3), Reach], [], [], []), Plan(10, 10, 5, 100));
    assert Remaining([Reach, Guest(3), Reach]) == [Guest(3), Reach];
    assert [Guest(3), Reach][1..] == [Reach];
    assert DrainSum([], 0) == 0;
  }

  /** Undisturbed, exactly the checkpoints that fit before maxtick are written, however long draining takes. */
  lemma {:induction false} UndisturbedSeries(s: Sim, p: Plan)
    requires s.replies == [] && s.dropped == [] && s.tick <= p.when && p.period >= 0
    ensures |Script(s, p).0.dropped| == 1 + PeriodsLeft(p, p.when, 1)
  {
    ScriptLength(s, p);
  }

  // ---------------------------------------------------------------- where the run ends

  /** The first request that does not reach its limit is one of the `left` periods. */
  predicate StopsInPeriod(replies: seq<Reply>, left: nat) {
    FirstStop(replies) < |replies| && FirstStop(replies) < left
  }

  /** The loop ends by reaching a limit: of a period, or of the request for the remaining ticks. */
  predicate LimitEnds(p: Plan, replies: seq<Reply>, drains: seq<nat>, late: int, left: nat, simTicks: int, n: int) {
    if StopsInPeriod(replies, left) then LastIsWritten(p, replies, drains, late)
    else n + left >= p.maxCheckpoints
         || (simTicks <= p.maxtick && (FirstStop(replies) == |replies| || FirstStop(replies) > left))
  }

  ghost predicate EndsAtLast(s: Sim) {
    s.dropped != [] && s.tick == s.dropped[|s.dropped| - 1]
  }

  lemma {:induction false} StopsShift(replies: seq<Reply>, left: nat)
    requires ReachesNext(replies)
    ensures StopsInPeriod(replies, left + 1) <==> StopsInPeriod(Tail(replies), left)
    ensures FirstStop(replies) == |replies| <==> FirstStop(Tail(replies)) == |Tail(replies)|
    ensures FirstStop(replies) < |replies| ==> FirstStop(replies) == FirstStop(Tail(replies)) + 1
  {
  }

  lemma {:induction false} LimitEndsShift(p: Plan, replies: seq<Reply>, drains: seq<nat>, late: int, left: nat,
                                          simTicks: int, n: int)
    requires ReachesNext(replies) && p.period >= 0 && GoesOn(p, simTicks, n)
    ensures LimitEnds(p, replies, drains, late, left + 1, simTicks, n)
       <==> LimitEnds(p, Tail(replies), Tail(drains), late + DrainAt(drains, 0), left, simTicks + p.period, n + 1)
  {
    StopsShift(replies, left);
    if FirstStop(replies) < |replies| {
      var k := FirstStop(replies);
      assert replies[k + 1..] == replies[1..][k..];
      assert replies[k] == replies[1..][k - 1];
    }
  }

  /** What the end of the loop is when `left` periods fit: whether it is a limit, and then the tick. */
  ghost predicate EndsAs(r: (Sim, Cause), s: Sim, p: Plan, simTicks: int, n: int, left: nat) {
    && (r.1 == Limit <==> LimitEnds(p, s.replies, s.drains, s.tick - simTicks, left, simTicks, n))
    && (r.1 == Limit && (StopsInPeriod(s.replies, left) || n + left >= p.maxCheckpoints) ==> EndsAtLast(r.0))
    && (r.1 == Limit && !StopsInPeriod(s.replies, left) && n + left < p.maxCheckpoints ==>
          r.0.tick == p.maxtick + (s.tick - simTicks) + DrainSum(s.drains, left))
  }

  lemma {:induction false} PeriodsEnd(s: Sim, p: Plan, simTicks: int, n: int)
    requires p.period >= 0 && s.tick >= simTicks && EndsAtLast(s)
    ensures EndsAs(Periods(s, p, simTicks, n), s, p, simTicks, n, PeriodsLeft(p, simTicks, n))
    decreases p.maxCheckpoints - n
  {
    PeriodsLeftStep(p, simTicks, n);
    if !GoesOn(p, simTicks, n) {
      LeftoverEnd(s, p, simTicks, n);
    } else if ReachesNext(s.replies) {
      FullPeriodGoesOn(s, p, simTicks, n);
      PeriodsEnd(FullPeriod(s, p), p, simTicks + p.period, n + 1);
      FullPeriodEnd(Periods(s, p, simTicks, n), s, p, simTicks, n, PeriodsLeft(p, simTicks + p.period, n + 1));
    } else {
      BrokenEnd(s, p, simTicks, n, PeriodsLeft(p, simTicks, n));
    }
  }

  lemma {:induction false} FullPeriodEnd(r: (Sim, Cause), s: Sim, p: Plan, simTicks: int, n: int, left: nat)
    requires p.period >= 0 && GoesOn(p, simTicks, n) && ReachesNext(s.replies)
    requires EndsAs(r, FullPeriod(s, p), p, simTicks + p.period, n + 1, left)
    ensures EndsAs(r, s, p, simTicks, n, left + 1)
  {
    StopsShift(s.replies, left);
    LimitEndsShift(p, s.replies, s.drains, s.tick - simTicks, left, simTicks, n);
  }

  lemma {:induction false} LeftoverEnd(s: Sim, p: Plan, simTicks: int, n: int)
    requires p.period >= 0 && !GoesOn(p, simTicks, n) && EndsAtLast(s)
    ensures EndsAs(Periods(s, p, simTicks, n), s, p, simTicks, n, 0)
  {
    assert DrainSum(s.drains, 0) == 0;
  }

  lemma {:induction false} BrokenEnd(s: Sim, p: Plan, simTicks: int, n: int, left: nat)
    requires p.period >= 0 && s.tick >= simTicks && GoesOn(p, simTicks, n) && !ReachesNext(s.replies) && left > 0
    ensures EndsAs(Periods(s, p, simTicks, n), s, p, simTicks, n, left)
  {
    AskUntilOutcome(Ask(s, p.period).0, simTicks + p.period);
    assert DrainSum(s.drains, 0) == 0;
  }

  /**
   Where `scriptCheckpoints` leaves the clock when its last request reached its limit, for every
   run. With the maximum number written, or with a guest checkpoint as the end of the series, it
   is the tick of the last checkpoint. Otherwise the remaining ticks have been simulated, and
   it is maxtick plus all the drains.
   */
  lemma {:induction false} ScriptEnds(s: Sim, p: Plan)
    requires s.dropped == [] && p.period >= 0
    ensures var r, replies, left := Script(s, p), Remaining(s.replies), PeriodsLeft(p, p.when, 1);
            && (r.1 == Limit <==>
                  && s.tick <= p.when && Recovers(s.replies)
                  && LimitEnds(p, replies, Tail(s.drains), DrainAt(s.drains, 0), left, p.when, 1))
            && (r.1 == Limit && (StopsInPeriod(replies, left) || |r.0.dropped| >= p.maxCheckpoints) ==>
                  r.0.dropped != [] && r.0.tick == r.0.dropped[|r.0.dropped| - 1])
            && (r.1 == Limit && !StopsInPeriod(replies, left) && |r.0.dropped| < p.maxCheckpoints ==>
                  r.0.tick == p.maxtick + DrainSum(s.drains, |r.0.dropped|))
  {
    var (s', cause) := AskUntil(s, p.when);
    AskUntilOutcome(s, p.when);
    if cause == Limit {
      PeriodsEnd(Drop(s'), p, p.when, 1);
      ScriptLength(s, p);
    }
  }

  /** Undisturbed and always drained, a run that may write more checkpoints than fit ends exactly at maxtick. */
  lemma {:induction false} UndisturbedEnds(s: Sim, p: Plan)
    requires s.replies == [] && s.drains == [] && s.dropped == [] && s.tick <= p.when <= p.maxtick && p.period >= 0
    ensures Script(s, p).1 == Limit
    ensures |Script(s, p).0.dropped| < p.maxCheckpoints ==> Script(s, p).0.tick == p.maxtick
    ensures |Script(s, p).0.dropped| >= p.maxCheckpoints ==>
              Script(s, p).0.tick == p.when + PeriodsLeft(p, p.when, 1) * p.period
  {
    ScriptEnds(s, p);
    UndisturbedSeries(s, p);
    NoDrainsSum([], |Script(s, p).0.dropped|);
    CheckpointTicks(s, p, PeriodsLeft(p, p.when, 1));
  }

  /** Two checkpoints, and the five ticks that remain. */
  lemma {:induction false} RemainingTicksRun()
    ensures var r := Script(Sim(0, [], [], [], []), Plan(10, 10, 5, 25));
            r.1 == Limit && |r.0.dropped| == 2 && r.0.tick == 25
  {
    UndisturbedSeries(Sim(0, [], [], [], []), Plan(10, 10, 5, 25));
    UndisturbedEnds(Sim(0, [], [], [], []), Plan(10, 10, 5, 25));
  }

  // ---------------------------------------------------------------- requests within maxtick

  predicate RequestWithin(r: Request, maxtick: int) {
    r.ticks >= 0 && r.at + r.ticks <= maxtick
  }

  ghost predicate Within(requests: seq<Request>, maxtick: int) {
    forall i :: 0 <= i < |requests| ==> RequestWithin(requests[i], maxtick)
  }

  lemma {:induction false} WithinOneMore(requests: seq<Request>, r: Request, maxtick: int)
    ensures Within(requests + [r], maxtick) <==> Within(requests, maxtick) && RequestWithin(r, maxtick)
  {
    if Within(requests + [r], maxtick) {
      assert (requests + [r])[|requests|] == r;
      forall i | 0 <= i < |requests| ensures RequestWithin(requests[i], maxtick) {
        assert (requests + [r])[i] == requests[i];
      }
    }
  }

  /** Asking until a target stays within maxtick exactly if the target is neither past nor beyond it. */
  lemma {:induction false} AskUntilWithinIff(s: Sim, target: int, maxtick: int)
    requires Within(s.requests, maxtick)
    ensures Within(AskUntil(s, target).0.requests, maxtick) <==> s.tick <= target <= maxtick
    decreases |s.replies|
  {
    var (s', cause) := Ask(s, target - s.tick);
    WithinOneMore(s.requests, Request(s.tick, target - s.tick), maxtick);
    if cause == Checkpoint {
      if Within(s'.requests, maxtick) {
        AskUntilWithinIff(s', target, maxtick);
      } else {
        AskUntilKeeps(s', target);
        WithinPrefix(s'.requests, AskUntil(s', target).0.requests, maxtick);
      }
    }
  }

  lemma {:induction false} WithinPrefix(a: seq<Request>, b: seq<Request>, maxtick: int)
    requires a <= b
    ensures Within(b, maxtick) ==> Within(a, maxtick)
  {
    if Within(b, maxtick) {
      forall i | 0 <= i < |a| ensures RequestWithin(a[i], maxtick) {
        assert a[i] == b[i];
      }
    }
  }

  lemma {:induction false} AskUntilKeeps(s: Sim, target: int)
    ensures s.requests <= AskUntil(s, target).0.requests
    decreases |s.replies|
  {
    var (s', cause) := Ask(s, target - s.tick);
    if cause == Checkpoint {
      AskUntilKeeps(s', target);
    }
  }

  lemma {:induction false} PeriodsKeepRequests(s: Sim, p: Plan, simTicks: int, n: int)
    requires p.period >= 0
    ensures s.requests <= Periods(s, p, simTicks, n).0.requests
    decreases p.maxCheckpoints - n
  {
    if GoesOn(p, simTicks, n) {
      if ReachesNext(s.replies) {
        PeriodsKeepRequests(FullPeriod(s, p), p, simTicks + p.period, n + 1);
      } else {
        AskUntilKeeps(Ask(s, p.period).0, simTicks + p.period);
      }
    }
  }

  /** The `j`-th period of the loop is simulated. */
  predicate Asked(replies: seq<Reply>, left: nat, j: nat) {
    j < left && (FirstStop(replies) < |replies| ==> j <= FirstStop(replies))
  }

  /** Each period asked for ends by maxtick. */
  ghost predicate EndsWithin(p: Plan, replies: seq<Reply>, drains: seq<nat>, tick: int, left: nat) {
    forall j: nat :: Asked(replies, left, j) ==> Clock(tick, p.period, drains, j) + p.period <= p.maxtick
  }

  /**
   What keeps the requests of the loop within maxtick, in terms of the drains: each period asked
   for ends by maxtick; the remaining ticks are asked for only if no drain has taken time; and
   a guest checkpoint comes before its period is over by the loop's own count.
   */
  ghost predicate StaysWithin(p: Plan, replies: seq<Reply>, drains: seq<nat>, tick: int, simTicks: int, n: int)
    requires p.period >= 0
  {
    var left, k := PeriodsLeft(p, simTicks, n), FirstStop(replies);
    && EndsWithin(p, replies, drains, tick, left)
    && ((k == |replies| || left <= k) && n + left < p.maxCheckpoints ==> tick + DrainSum(drains, left) == simTicks)
    && (k < |replies| && k < left && replies[k].Guest?
        ==> tick - simTicks + DrainSum(drains, k) + Min(replies[k].ticks, p.period) <= p.period)
  }

  lemma {:induction false} AskedShift(replies: seq<Reply>, left: nat, j: nat)
    requires ReachesNext(replies)
    ensures Asked(replies, left + 1, j + 1) <==> Asked(Tail(replies), left, j)
    ensures Asked(replies, left + 1, 0)
  {
  }

  lemma {:induction false} StaysWithinShift(p: Plan, replies: seq<Reply>, drains: seq<nat>, tick: int,
                                            simTicks: int, n: int)
    requires p.period >= 0 && GoesOn(p, simTicks, n) && ReachesNext(replies)
    ensures StaysWithin(p, replies, drains, tick, simTicks, n)
       <==> && tick + p.period <= p.maxtick
            && StaysWithin(p, Tail(replies), Tail(drains),
                           tick + p.period + DrainAt(drains, 0), simTicks + p.period, n + 1)
  {
    var left := PeriodsLeft(p, simTicks + p.period, n + 1);
    PeriodsLeftStep(p, simTicks, n);
    EndsShift(p, replies, drains, tick, left);
    assert Tail(replies) != [] ==> FirstStop(replies) == FirstStop(Tail(replies)) + 1;
  }

  lemma {:induction false} EndsShift(p: Plan, replies: seq<Reply>, drains: seq<nat>, tick: int, left: nat)
    requires ReachesNext(replies)
    ensures EndsWithin(p, replies, drains, tick, left + 1)
       <==> && tick + p.period <= p.maxtick
            && EndsWithin(p, Tail(replies), Tail(drains), tick + p.period + DrainAt(drains, 0), left)
  {
    var t := tick + p.period + DrainAt(drains, 0);
    if EndsWithin(p, replies, drains, tick, left + 1) {
      AskedShift(replies, left, 0);
      assert Clock(tick, p.period, drains, 0) + p.period <= p.maxtick;
      forall j: nat | Asked(Tail(replies), left, j)
        ensures Clock(t, p.period, Tail(drains), j) + p.period <= p.maxtick
      {
        AskedShift(replies, left, j);
        assert Clock(tick, p.period, drains, j + 1) + p.period <= p.maxtick;
      }
    }
    if tick + p.period <= p.maxtick && EndsWithin(p, Tail(replies), Tail(drains), t, left) {
      forall j: nat | Asked(replies, left + 1, j) ensures Clock(tick, p.period, drains, j) + p.period <= p.maxtick {
        if j > 0 {
          AskedShift(replies, left, j - 1);
        }
      }
    }
  }

  lemma {:induction false} StaysWithinAtStop(p: Plan, replies: seq<Reply>, drains: seq<nat>, tick: int,
                                             simTicks: int, n: int)
    requires p.period >= 0 && GoesOn(p, simTicks, n) && !ReachesNext(replies)
    ensures StaysWithin(p, replies, drains, tick, simTicks, n)
       <==> && tick + p.period <= p.maxtick
            && (replies[0].Guest? ==> tick + Min(replies[0].ticks, p.period) <= simTicks + p.period)
  {
    PeriodsLeftStep(p, simTicks, n);
    assert FirstStop(replies) == 0 && DrainSum(drains, 0) == 0;
    assert Clock(tick, p.period, drains, 0) == tick;
    assert Asked(replies, PeriodsLeft(p, simTicks, n), 0);
    assert forall j: nat :: Asked(replies, PeriodsLeft(p, simTicks, n), j) ==> j == 0;
  }

  lemma {:induction false} StaysWithinAtEnd(p: Plan, replies: seq<Reply>, drains: seq<nat>, tick: int,
                                            simTicks: int, n: int)
    requires p.period >= 0 && !GoesOn(p, simTicks, n)
    ensures StaysWithin(p, replies, drains, tick, simTicks, n) <==> (n < p.maxCheckpoints ==> tick == simTicks)
  {
    PeriodsLeftStep(p, simTicks, n);
    assert DrainSum(drains, 0) == 0;
  }

  lemma {:induction false} PeriodsWithinIff(s: Sim, p: Plan, simTicks: int, n: int)
    requires Within(s.requests, p.maxtick) && simTicks <= s.tick && simTicks <= p.maxtick && p.period >= 0
    ensures Within(Periods(s, p, simTicks, n).0.requests, p.maxtick)
       <==> StaysWithin(p, s.replies, s.drains, s.tick, simTicks, n)
    decreases p.maxCheckpoints - n
  {
    if !GoesOn(p, simTicks, n) {
      StaysWithinAtEnd(p, s.replies, s.drains, s.tick, simTicks, n);
      WithinOneMore(s.requests, Request(s.tick, p.maxtick - simTicks), p.maxtick);
    } else {
      WithinOneMore(s.requests, Request(s.tick, p.period), p.maxtick);
      if ReachesNext(s.replies) {
        FullPeriodWithinIff(s, p, simTicks, n);
      } else {
        LastPeriodWithinIff(s, p, simTicks, n);
      }
    }
  }

  lemma {:induction false} FullPeriodWithinIff(s: Sim, p: Plan, simTicks: int, n: int)
    requires Within(s.requests, p.maxtick) && simTicks <= s.tick && p.period >= 0
    requires GoesOn(p, simTicks, n) && ReachesNext(s.replies)
    requires Within(s.requests + [Request(s.tick, p.period)], p.maxtick) <==> s.tick + p.period <= p.maxtick
    ensures Within(Periods(s, p, simTicks, n).0.requests, p.maxtick)
       <==> StaysWithin(p, s.replies, s.drains, s.tick, simTicks, n)
    decreases p.maxCheckpoints - n, 0
  {
    var s' := FullPeriod(s, p);
    StaysWithinShift(p, s.replies, s.drains, s.tick, simTicks, n);
    if s.tick + p.period <= p.maxtick {
      PeriodsWithinIff(s', p, simTicks + p.period, n + 1);
    } else {
      PeriodsKeepRequests(s', p, simTicks + p.period, n + 1);
      WithinPrefix(s'.requests, Periods(s', p, simTicks + p.period, n + 1).0.requests, p.maxtick);
    }
  }

  lemma {:induction false} LastPeriodWithinIff(s: Sim, p: Plan, simTicks: int, n: int)
    requires Within(s.requests, p.maxtick) && p.period >= 0
    requires GoesOn(p, simTicks, n) && !ReachesNext(s.replies)
    requires Within(s.requests + [Request(s.tick, p.period)], p.maxtick) <==> s.tick + p.period <= p.maxtick
    ensures Within(Periods(s, p, simTicks, n).0.requests, p.maxtick)
       <==> StaysWithin(p, s.replies, s.drains, s.tick, simTicks, n)
  {
    var s1, goal := Ask(s, p.period).0, simTicks + p.period;
    StaysWithinAtStop(p, s.replies, s.drains, s.tick, simTicks, n);
    if s.tick + p.period <= p.maxtick {
      AskUntilWithinIff(s1, goal, p.maxtick);
    } else {
      AskUntilKeeps(s1, goal);
      WithinPrefix(s1.requests, AskUntil(s1, goal).0.requests, p.maxtick);
    }
  }

  /**
   Exactly when no request of a run goes past maxtick, or backwards: the first checkpoint is due
   between now and maxtick, and if it is reached the drains let the loop stay within.
   */
  lemma {:induction false} ScriptWithinIff(s: Sim, p: Plan)
    requires s.requests == [] && p.period >= 0
    ensures Within(Script(s, p).0.requests, p.maxtick)
       <==> && s.tick <= p.when <= p.maxtick
            && (Recovers(s.replies) ==> StaysWithin(p, Remaining(s.replies), Tail(s.drains),
                                                    p.when + DrainAt(s.drains, 0), p.when, 1))
  {
    var (s', cause) := AskUntil(s, p.when);
    AskUntilOutcome(s, p.when);
    AskUntilWithinIff(s, p.when, p.maxtick);
    if cause == Limit {
      if p.when <= p.maxtick {
        PeriodsWithinIff(Drop(s'), p, p.when, 1);
      } else {
        PeriodsKeepRequests(Drop(s'), p, p.when, 1);
        WithinPrefix(s'.requests, Periods(Drop(s'), p, p.when, 1).0.requests, p.maxtick);
      }
    }
  }

  lemma {:induction false} NoDrainsStays(p: Plan, replies: seq<Reply>, simTicks: int, n: int)
    requires p.period >= 0
    ensures StaysWithin(p, replies, [], simTicks, simTicks, n)
    decreases p.maxCheckpoints - n
  {
    if !GoesOn(p, simTicks, n) {
      StaysWithinAtEnd(p, replies, [], simTicks, simTicks, n);
    } else if ReachesNext(replies) {
      StaysWithinShift(p, replies, [], simTicks, simTicks, n);
      NoDrainsStays(p, Tail(replies), simTicks + p.period, n + 1);
    } else {
      StaysWithinAtStop(p, replies, [], simTicks, simTicks, n);
    }
  }

  /** With a simulator that is always drained, exactly the first due time decides. */
  lemma {:induction false} ScriptWithinNoDrains(s: Sim, p: Plan)
    requires s.requests == [] && p.period >= 0 && s.drains == []
    ensures Within(Script(s, p).0.requests, p.maxtick) <==> s.tick <= p.when <= p.maxtick
  {
    ScriptWithinIff(s, p);
    NoDrainsStays(p, Remaining(s.replies), p.when, 1);
  }

  /** Draining breaks the promise: with the first checkpoints well before maxtick, the last request goes past it. */
  lemma {:induction false} DrainPassesMaxtick()
    ensures !Within(Script(Sim(0, [], [1], [], []), Plan(10, 10, 5, 25)).0.requests, 25)
  {
    var p := Plan(10, 10, 5, 25);
    ScriptWithinIff(Sim(0, [], [1], [], []), p);
    StaysWithinShift(p, [], [], 11, 10, 1);
    StaysWithinAtEnd(p, [], [], 21, 20, 2);
  }

  // ---------------------------------------------------------------- switching CPUs

  type Cpu = nat

  datatype Pair = Pair(current: Cpu, standby: Cpu)

  function Olds(pairs: seq<Pair>): set<Cpu> {
    set i | 0 <= i < |pairs| :: pairs[i].current
  }

  function News(pairs: seq<Pair>): set<Cpu> {
    set i | 0 <= i < |pairs| :: pairs[i].standby
  }

  predicate MayHandOver(active: set<Cpu>, pairs: seq<Pair>, p: Pair) {
    p.standby !in Olds(pairs) && p.standby !in active && p.current in active
  }

  /** `m5.switchCpus`, apart from draining: the checks on activity, then the handover. None is an error. */
  function SwitchCpus(active: set<Cpu>, pairs: seq<Pair>): Option<set<Cpu>> {
    if pairs != [] && forall i :: 0 <= i < |pairs| ==> MayHandOver(active, pairs, pairs[i])
    then Some((active - Olds(pairs)) + News(pairs))
    else None
  }

  /** When a switch is refused, and which CPUs are active after one that is not. */
  lemma {:induction false} SwitchRefusedIff(active: set<Cpu>, pairs: seq<Pair>)
    ensures SwitchCpus(active, pairs) == None
       <==> || pairs == []
            || (exists i :: 0 <= i < |pairs| && (pairs[i].standby in active || pairs[i].current !in active))
            || (exists i, j :: 0 <= i < |pairs| && 0 <= j < |pairs| && pairs[i].standby == pairs[j].current)
    ensures SwitchCpus(active, pairs).Some? ==>
              forall c :: c in SwitchCpus(active, pairs).value
                     <==> || (exists i :: 0 <= i < |pairs| && c == pairs[i].standby)
                          || (c in active && forall i :: 0 <= i < |pairs| ==> c != pairs[i].current)
  {
    if SwitchCpus(active, pairs) == None && pairs != [] {
      var i :| 0 <= i < |pairs| && !MayHandOver(active, pairs, pairs[i]);
    }
    if i, j :| 0 <= i < |pairs| && 0 <= j < |pairs| && pairs[i].standby == pairs[j].current {
      assert pairs[i].standby in Olds(pairs) && !MayHandOver(active, pairs, pairs[i]);
    }
    if i :| 0 <= i < |pairs| && (pairs[i].standby in active || pairs[i].current !in active) {
      assert !MayHandOver(active, pairs, pairs[i]);
    }
  }

  function Swapped(pairs: seq<Pair>): (r: seq<Pair>)
    ensures |r| == |pairs| && forall i :: 0 <= i < |pairs| ==> r[i] == Pair(pairs[i].standby, pairs[i].current)
  {
    seq(|pairs|, i requires 0 <= i < |pairs| => Pair(pairs[i].standby, pairs[i].current))
  }

  datatype Board = Board(sim: Sim, active: set<Cpu>, pairs: seq<Pair>)

  /** What the loop of `repeatSwitch` decreases. */
  ghost function TicksLeft(b: Board, maxtick: int, freq: int): nat {
    if freq > 0 && b.sim.tick <= maxtick then maxtick - b.sim.tick + 1 else 0
  }

  /** The board after a period that reaches its limit, the drain and the handover. */
  function Handed(b: Board, s: Sim, active: set<Cpu>): Board {
    Board(Drained(s), active, Swapped(b.pairs))
  }

  /** The loop of `repeatSwitch`; None where a switch fails. A frequency of zero is never used. */
  function RepeatSwitch(b: Board, maxtick: int, freq: int): Option<(Board, Cause)>
    requires freq != 0
    decreases TicksLeft(b, maxtick, freq)
  {
    var (s, cause) := Ask(b.sim, freq);
    if cause != Limit then Some((b.(sim := s), cause))
    else
      var active := SwitchCpus(b.active, b.pairs);
      if active == None then None
      else
        var b' := Handed(b, s, active.value);
        if maxtick - b'.sim.tick <= freq then
          var (s', cause') := Ask(b'.sim, maxtick - b'.sim.tick);
          Some((b'.(sim := s'), cause'))
        else RepeatSwitch(b', maxtick, freq)
  }

  /** Of every pair the first CPU runs and the second does not; no CPU is in two pairs. */
  ghost predicate InTurn(active: set<Cpu>, pairs: seq<Pair>) {
    && pairs != []
    && (forall i :: 0 <= i < |pairs| ==> pairs[i].current in active && pairs[i].standby !in active)
    && (forall i, j :: 0 <= i < j < |pairs| ==>
          pairs[i].current != pairs[j].current && pairs[i].standby != pairs[j].standby)
  }

  /** A switch hands each pair over, and swapping the list makes the active CPU the first again. */
  lemma {:induction false} SwitchKeepsTurn(active: set<Cpu>, pairs: seq<Pair>)
    requires InTurn(active, pairs)
    ensures SwitchCpus(active, pairs).Some? && InTurn(SwitchCpus(active, pairs).value, Swapped(pairs))
    ensures SwitchCpus(active, pairs).value - Olds(pairs) - News(pairs) == active - Olds(pairs) - News(pairs)
  {
    var r := Swapped(pairs);
    forall i | 0 <= i < |pairs| ensures pairs[i].standby !in Olds(pairs) && pairs[i].current !in News(pairs) {}
    forall i | 0 <= i < |pairs| ensures pairs[i].standby in News(pairs) && pairs[i].current in Olds(pairs) {}
  }

  /** The board after one whole period of a loop whose pairs are in turn. */
  function NextBoard(b: Board, freq: int): Board
    requires SwitchCpus(b.active, b.pairs).Some?
  {
    Handed(b, Ask(b.sim, freq).0, SwitchCpus(b.active, b.pairs).value)
  }

  lemma {:induction false} RepeatSwitchStep(b: Board, maxtick: int, freq: int)
    requires freq > 0 && InTurn(b.active, b.pairs)
    ensures SwitchCpus(b.active, b.pairs).Some?
    ensures var b' := NextBoard(b, freq);
            && InTurn(b'.active, b'.pairs)
            && RepeatSwitch(b, maxtick, freq)
               == if !ReachesNext(b.sim.replies) then
                    Some((b.(sim := Ask(b.sim, freq).0), Ask(b.sim, freq).1))
                  else if maxtick - b'.sim.tick <= freq then
                    Some((b'.(sim := Ask(b'.sim, maxtick - b'.sim.tick).0), Ask(b'.sim, maxtick - b'.sim.tick).1))
                  else RepeatSwitch(b', maxtick, freq)
  {
    SwitchKeepsTurn(b.active, b.pairs);
  }

  /** In every run no switch fails, and one CPU of each pair is active throughout. */
  lemma {:induction false} RepeatSwitchInTurn(b: Board, maxtick: int, freq: int)
    requires freq != 0 && InTurn(b.active, b.pairs)
    ensures var r := RepeatSwitch(b, maxtick, freq);
            r.Some? && InTurn(r.value.0.active, r.value.0.pairs)
    decreases TicksLeft(b, maxtick, freq)
  {
    if freq > 0 {
      RepeatSwitchStep(b, maxtick, freq);
      var b' := NextBoard(b, freq);
      if ReachesNext(b.sim.replies) && maxtick - b'.sim.tick > freq {
        RepeatSwitchInTurn(b', maxtick, freq);
      }
    }
  }

  /** A run that ends at a limit ends exactly at maxtick, however long draining took. */
  lemma {:induction false} RepeatSwitchEnds(b: Board, maxtick: int, freq: int)
    requires freq > 0 && InTurn(b.active, b.pairs)
    ensures var r := RepeatSwitch(b, maxtick, freq);
            r.Some? && (r.value.1 == Limit ==> r.value.0.sim.tick == maxtick)
    decreases TicksLeft(b, maxtick, freq)
  {
    RepeatSwitchStep(b, maxtick, freq);
    var b' := NextBoard(b, freq);
    if ReachesNext(b.sim.replies) && maxtick - b'.sim.tick > freq {
      RepeatSwitchEnds(b', maxtick, freq);
    }
  }

  /** The `j`-th switch of a run takes place. */
  predicate Switches(s: Sim, maxtick: int, freq: int, j: nat) {
    && (FirstStop(s.replies) < |s.replies| ==> j < FirstStop(s.replies))
    && (j == 0 || Clock(s.tick, freq, s.drains, j) + freq < maxtick)
  }

  /** The first period ends by maxtick, and so does the draining for every switch. */
  ghost predicate SwitchesWithin(s: Sim, maxtick: int, freq: int) {
    && s.tick + freq <= maxtick
    && forall j: nat :: Switches(s, maxtick, freq, j) ==> Clock(s.tick, freq, s.drains, j + 1) <= maxtick
  }

  lemma {:induction false} ClockGrows(t: int, step: int, drains: seq<nat>, j: nat)
    requires step >= 0
    ensures Clock(t, step, drains, j) >= t
    decreases j
  {
    if j > 0 {
      ClockGrows(t + step + DrainAt(drains, 0), step, Tail(drains), j - 1);
    }
  }

  /** The simulator after a period that reaches its limit and a drain. */
  function AfterSwitch(s: Sim, freq: int): Sim {
    Drained(Ask(s, freq).0)
  }

  lemma {:induction false} SwitchesShift(s: Sim, maxtick: int, freq: int, j: nat)
    requires freq > 0 && ReachesNext(s.replies)
    ensures Clock(s.tick, freq, s.drains, j + 1)
         == Clock(AfterSwitch(s, freq).tick, freq, AfterSwitch(s, freq).drains, j)
    ensures AfterSwitch(s, freq).tick + freq < maxtick ==>
              (Switches(s, maxtick, freq, j + 1) <==> Switches(AfterSwitch(s, freq), maxtick, freq, j))
  {
  }

  /** If the loop goes on, the condition is that of the rest of the run. */
  lemma {:induction false} SwitchesWithinShift(s: Sim, maxtick: int, freq: int)
    requires freq > 0 && ReachesNext(s.replies) && AfterSwitch(s, freq).tick + freq < maxtick
    ensures SwitchesWithin(s, maxtick, freq) <==> SwitchesWithin(AfterSwitch(s, freq), maxtick, freq)
  {
    var s' := AfterSwitch(s, freq);
    assert Clock(s.tick, freq, s.drains, 1) == s'.tick by {
      SwitchesShift(s, maxtick, freq, 0);
    }
    if SwitchesWithin(s, maxtick, freq) {
      forall j: nat | Switches(s', maxtick, freq, j) ensures Clock(s'.tick, freq, s'.drains, j + 1) <= maxtick {
        SwitchesShift(s, maxtick, freq, j);
        SwitchesShift(s, maxtick, freq, j + 1);
        assert Clock(s.tick, freq, s.drains, j + 2) <= maxtick;
      }
    }
    if SwitchesWithin(s', maxtick, freq) {
      forall j: nat | Switches(s, maxtick, freq, j) ensures Clock(s.tick, freq, s.drains, j + 1) <= maxtick {
        if j > 0 {
          SwitchesShift(s, maxtick, freq, j - 1);
          SwitchesShift(s, maxtick, freq, j);
          assert Clock(s'.tick, freq, s'.drains, j) <= maxtick;
        }
      }
    }
  }

  /** If the loop ends after this switch, only its own drain counts. */
  lemma {:induction false} SwitchesWithinLast(s: Sim, maxtick: int, freq: int)
    requires freq > 0 && ReachesNext(s.replies) && maxtick - AfterSwitch(s, freq).tick <= freq
    ensures SwitchesWithin(s, maxtick, freq) <==> AfterSwitch(s, freq).tick <= maxtick
  {
    var s' := AfterSwitch(s, freq);
    SwitchesShift(s, maxtick, freq, 0);
    assert Switches(s, maxtick, freq, 0);
    forall j: nat | j > 0 ensures !Switches(s, maxtick, freq, j) {
      SwitchesShift(s, maxtick, freq, j - 1);
      ClockGrows(s'.tick, freq, s'.drains, j - 1);
    }
    assert SwitchesWithin(s, maxtick, freq) ==> Clock(s.tick, freq, s.drains, 1) <= maxtick;
  }

  lemma {:induction false} SwitchesWithinStop(s: Sim, maxtick: int, freq: int)
    requires !ReachesNext(s.replies)
    ensures SwitchesWithin(s, maxtick, freq) <==> s.tick + freq <= maxtick
  {
    assert FirstStop(s.replies) == 0;
  }

  lemma {:induction false} RepeatSwitchKeeps(b: Board, maxtick: int, freq: int)
    requires freq > 0 && InTurn(b.active, b.pairs)
    ensures var r := RepeatSwitch(b, maxtick, freq);
            r.Some? && b.sim.requests + [Request(b.sim.tick, freq)] <= r.value.0.sim.requests
    decreases TicksLeft(b, maxtick, freq)
  {
    RepeatSwitchStep(b, maxtick, freq);
    var b' := NextBoard(b, freq);
    if ReachesNext(b.sim.replies) && maxtick - b'.sim.tick > freq {
      RepeatSwitchKeeps(b', maxtick, freq);
    }
  }

  /**
   Exactly when no request of a run goes past maxtick or backwards: a whole switching period is
   left at the start, and no drain for a switch passes maxtick. The caller only compares the
   period with maxtick itself, which is not enough once the clock has advanced.
   */
  lemma {:induction false} RepeatSwitchWithinIff(b: Board, maxtick: int, freq: int)
    requires freq > 0 && InTurn(b.active, b.pairs) && Within(b.sim.requests, maxtick)
    ensures var r := RepeatSwitch(b, maxtick, freq);
            r.Some? && (Within(r.value.0.sim.requests, maxtick) <==> SwitchesWithin(b.sim, maxtick, freq))
    decreases TicksLeft(b, maxtick, freq)
  {
    var first, r := Request(b.sim.tick, freq), RepeatSwitch(b, maxtick, freq);
    WithinOneMore(b.sim.requests, first, maxtick);
    RepeatSwitchKeeps(b, maxtick, freq);
    WithinPrefix(b.sim.requests + [first], r.value.0.sim.requests, maxtick);
    if b.sim.tick + freq <= maxtick {
      RepeatSwitchStep(b, maxtick, freq);
      var b' := NextBoard(b, freq);
      if !ReachesNext(b.sim.replies) {
        SwitchesWithinStop(b.sim, maxtick, freq);
      } else if maxtick - b'.sim.tick <= freq {
        SwitchesWithinLast(b.sim, maxtick, freq);
        WithinOneMore(b'.sim.requests, Request(b'.sim.tick, maxtick - b'.sim.tick), maxtick);
      } else {
        SwitchesWithinShift(b.sim, maxtick, freq);
        RepeatSwitchWithinIff(b', maxtick, freq);
      }
    }
  }

  /**
   Exactly when the clock does not pass maxtick: the same condition, except that a run whose very
   first request stops early only has to stop in time.
   */
  lemma {:induction false} RepeatSwitchStays(b: Board, maxtick: int, freq: int)
    requires freq > 0 && InTurn(b.active, b.pairs)
    ensures var r := RepeatSwitch(b, maxtick, freq);
            && r.Some?
            && (r.value.0.sim.tick <= maxtick
                <==> if ReachesNext(b.sim.replies) then SwitchesWithin(b.sim, maxtick, freq)
                     else b.sim.tick + Min(b.sim.replies[0].ticks, freq) <= maxtick)
    decreases TicksLeft(b, maxtick, freq)
  {
    RepeatSwitchStep(b, maxtick, freq);
    var b' := NextBoard(b, freq);
    if ReachesNext(b.sim.replies) {
      if maxtick - b'.sim.tick <= freq {
        SwitchesWithinLast(b.sim, maxtick, freq);
      } else {
        SwitchesWithinShift(b.sim, maxtick, freq);
        RepeatSwitchStays(b', maxtick, freq);
        if !ReachesNext(b'.sim.replies) {
          SwitchesWithinStop(b'.sim, maxtick, freq);
        }
      }
    }
  }

  /** With CPUs that are always drained, exactly the first period decides. */
  lemma {:induction false} SwitchesWithinNoDrains(s: Sim, maxtick: int, freq: int)
    requires freq > 0 && s.drains == []
    ensures SwitchesWithin(s, maxtick, freq) <==> s.tick + freq <= maxtick
  {
    forall j: nat | s.tick + freq <= maxtick && Switches(s, maxtick, freq, j)
      ensures Clock(s.tick, freq, s.drains, j + 1) <= maxtick
    {
      ClockIs(s.tick, freq, s.drains, j);
      ClockIs(s.tick, freq, s.drains, j + 1);
      DrainSumLast(s.drains, j);
      OneMore(j, freq);
      assert j == 0 ==> DrainSum(s.drains, 0) == 0;
    }
  }

  /** A drain alone can break the promise: the first period ends before maxtick, its switch after it. */
  lemma {:induction false} SwitchPassesMaxtick()
    ensures var r := RepeatSwitch(Board(Sim(0, [], [6], [], []), {0}, [Pair(0, 1)]), 15, 10);
            r.Some? && r.value.0.sim.tick > 15 && r.value.1 == Rejected
  {
    var b := Board(Sim(0, [], [6], [], []), {0}, [Pair(0, 1)]);
    RepeatSwitchStep(b, 15, 10);
    assert NextBoard(b, 10).sim.tick == 16;
  }

  // ---------------------------------------------------------------- as written

  /** `m5`: the stateful simulator that the loops drive. */
  class M5 {
    var sim: Sim
    var active: set<Cpu>

    constructor (sim: Sim, active: set<Cpu>)
      ensures this.sim == sim && this.active == active
    {
      this.sim := sim;
      this.active := active;
    }

    method Simulate(d: int) returns (cause: Cause)
      modifies this`sim
      ensures (sim, cause) == Ask(old(sim), d)
    {
      var r := Ask(sim, d);
      sim := r.0;
      return r.1;
    }

    method Drain()
      modifies this`sim
      ensures sim == Drained(old(sim))
    {
      if sim.drains != [] {
        sim := sim.(tick := sim.tick + sim.drains[0], drains := sim.drains[1..]);
      }
    }

    method WriteCheckpoint()
      modifies this`sim
      ensures sim == Drop(old(sim))
    {
      Drain();
      sim := sim.(dropped := sim.dropped + [sim.tick]);
    }

    /** The loops that skip the guest's checkpoint instructions. */
    method SkipGuest(target: int) returns (cause: Cause)
      modifies this`sim
      ensures (sim, cause) == AskUntil(old(sim), target)
    {
      cause := Simulate(target - sim.tick);
      while cause == Checkpoint
        invariant AskUntil(old(sim), target) == if cause == Checkpoint then AskUntil(sim, target) else (sim, cause)
        decreases |sim.replies|, cause == Checkpoint
      {
        cause := Simulate(target - sim.tick);
      }
    }

    /** One period of the loop: the cause it tests, which is not always the last one. */
    method RunPeriod(p: Plan, simTicks: int, ghost n: int) returns (last: Cause, exitCause: Cause)
      requires GoesOn(p, simTicks, n)
      modifies this`sim
      ensures exitCause == Limit ==>
                last == Limit && Periods(old(sim), p, simTicks, n) == Periods(sim, p, simTicks + p.period, n + 1)
      ensures exitCause != Limit ==> Periods(old(sim), p, simTicks, n) == (sim, last)
    {
      last := Simulate(p.period);
      exitCause := last;
      if last == Checkpoint {
        last := SkipGuest(simTicks + p.period);
      }
      if last == Limit {
        WriteCheckpoint();
      }
    }

    /** The ticks that remain when no further period fits. */
    method RunRest(p: Plan, simTicks: int, ghost n: int) returns (last: Cause)
      requires n < p.maxCheckpoints && !GoesOn(p, simTicks, n)
      modifies this`sim
      ensures Periods(old(sim), p, simTicks, n) == (sim, last)
    {
      last := Simulate(p.maxtick - simTicks);
    }

    /** `scriptCheckpoints` in tick mode; the result is the cause of the last event. */
    method ScriptCheckpoints(p: Plan) returns (last: Cause)
      modifies this`sim
      ensures (sim, last) == Script(old(sim), p)
    {
      ghost var goal := Script(sim, p);
      var numCheckpoints := 0;
      last := SkipGuest(p.when);
      if last == Limit {
        WriteCheckpoint();
        numCheckpoints := numCheckpoints + 1;
      }
      var simTicks, exitCause := p.when, last;
      while numCheckpoints < p.maxCheckpoints && exitCause == Limit
        invariant exitCause == Limit ==> last == Limit && goal == Periods(sim, p, simTicks, numCheckpoints)
        invariant exitCause != Limit ==> goal == (sim, last)
        decreases p.maxCheckpoints - numCheckpoints, exitCause == Limit
      {
        if simTicks + p.period > p.maxtick {
          last := RunRest(p, simTicks, numCheckpoints);
          return;
        }
        last, exitCause := RunPeriod(p, simTicks, numCheckpoints);
        simTicks := simTicks + p.period;
        if last == Limit {
          numCheckpoints := numCheckpoints + 1;
        }
      }
    }

    /** `repeatSwitch`; None where a switch fails. */
    method RepeatSwitching(pairs: seq<Pair>, maxtick: int, freq: int) returns (r: Option<(seq<Pair>, Cause)>)
      requires freq != 0
      modifies this
      ensures var spec := RepeatSwitch(Board(old(sim), old(active), pairs), maxtick, freq);
              if spec == None then r == None
              else
                && r == Some((spec.value.0.pairs, spec.value.1))
                && sim == spec.value.0.sim && active == spec.value.0.active
    {
      ghost var spec := RepeatSwitch(Board(sim, active, pairs), maxtick, freq);
      var list := pairs;
      while true
        invariant spec == RepeatSwitch(Board(sim, active, list), maxtick, freq)
        decreases if freq > 0 && sim.tick <= maxtick then maxtick - sim.tick + 1 else 0
      {
        var cause := Simulate(freq);
        if cause != Limit {
          return Some((list, cause));
        }
        var switched := SwitchCpus(active, list);
        if switched == None {
          return None;
        }
        Drain();
        active, list := switched.value, Swapped(list);
        if maxtick - sim.tick <= freq {
          cause := Simulate(maxtick - sim.tick);
          return Some((list, cause));
        }
      }
    }
  }
}
