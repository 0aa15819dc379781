/**
 The migration loop of the checkpoint upgrader (util/cpt_upgrader.py, `ready`, `update`
 and the rounds of `process_file`): upgraders whose tag is missing and downgraders whose
 tag is present are run in rounds, each as soon as its dependencies are in the tag set.
 */
module CptScheduler {
  import opened Sequences

  type Tag = string

  /**
   The loaded upgraders. `deps` is defined on every known tag; `upgrades` are the tags
   whose script has an upgrader, the other known tags have a downgrader.
   */
  datatype Registry = Registry(tagSet: set<Tag>, untagSet: set<Tag>, deps: map<Tag, set<Tag>>, upgrades: set<Tag>)

  /** A tag is used once: it has an upgrader or a downgrader, never one of each. */
  ghost predicate Valid(r: Registry) {
    && r.tagSet + r.untagSet <= r.deps.Keys
    && r.tagSet <= r.upgrades
    && r.untagSet !! r.upgrades
  }

  function Pending(r: Registry, tags: set<Tag>): set<Tag> {
    (r.tagSet - tags) + (r.untagSet * tags)
  }

  predicate Ready(r: Registry, tags: set<Tag>, t: Tag) {
    t in r.deps && r.deps[t] <= tags
  }

  function ReadyIn(r: Registry, tags: set<Tag>, pending: set<Tag>): set<Tag> {
    set t | t in pending && Ready(r, tags, t)
  }

  /** The tag set after every member of `batch` has been updated, in any order. */
  function After(r: Registry, tags: set<Tag>, batch: set<Tag>): set<Tag> {
    (tags - (batch - r.upgrades)) + batch * r.upgrades
  }

  datatype Outcome =
    | Done(tags: set<Tag>, rounds: seq<set<Tag>>)
    | Aborted(tags: set<Tag>, rounds: seq<set<Tag>>, stuck: set<Tag>)

  /** The rounds as sets; the order inside a round is left to the loop. */
  function Run(r: Registry, tags: set<Tag>, pending: set<Tag>): Outcome
    decreases |pending|
  {
    var ready := ReadyIn(r, tags, pending);
    if pending == {} then Done(tags, [])
    else if ready == {} then Aborted(tags, [], pending)
    else
      RemoveShrinks(pending, ready);
      var rest := Run(r, After(r, tags, ready), pending - ready);
      rest.(rounds := [ready] + rest.rounds)
  }

  lemma {:induction false} RunStep(r: Registry, tags: set<Tag>, pending: set<Tag>)
    requires pending != {} && ReadyIn(r, tags, pending) != {}
    ensures var ready := ReadyIn(r, tags, pending);
            var o, rest := Run(r, tags, pending), Run(r, After(r, tags, ready), pending - ready);
            && o == rest.(rounds := [ready] + rest.rounds)
            && o.rounds[0] == ready && o.rounds[1..] == rest.rounds
  {
  }

  lemma {:induction false} RemoveShrinks<T>(all: set<T>, part: set<T>)
    requires part != {} && part <= all
    ensures |all - part| < |all|
  {
    assert all == (all - part) + part;
  }

  // ---------------------------------------------------------------- the loop as written

  ghost predicate Enumerates(s: seq<Tag>, batch: set<Tag>) {
    && (forall i, j :: 0 <= i < j < |s| ==> s[i] != s[j])
    && (forall t :: t in s <==> t in batch)
  }

  /** The body of the `for tag in ready` loop: every tag once, in an order the caller cannot choose. */
  method ApplyBatch(r: Registry, tags: set<Tag>, batch: set<Tag>) returns (tags': set<Tag>, log: seq<Tag>)
    requires Valid(r)
    requires forall t :: t in batch ==> t in r.upgrades || t in tags
    ensures tags' == After(r, tags, batch)
    ensures Enumerates(log, batch)
  {
    tags', log := tags, [];
    var left := batch;
    while left != {}
      invariant left <= batch
      invariant tags' == After(r, tags, batch - left)
      invariant Enumerates(log, batch - left)
      decreases left
    {
      var tag :| tag in left;
      left := left - {tag};
      log := log + [tag];
      if tag in r.upgrades {
        tags' := tags' + {tag};
      } else {
        assert tag in tags';  // `tags.remove` finds its element
        tags' := tags' - {tag};
      }
    }
    assert batch - left == batch;
  }

  /** `log` lists the members of every round. */
  ghost predicate Logs(log: seq<seq<Tag>>, rounds: seq<set<Tag>>) {
    |log| == |rounds| && forall i :: 0 <= i < |log| ==> Enumerates(log[i], rounds[i])
  }

  lemma {:induction false} LogsAppend(log: seq<seq<Tag>>, rounds: seq<set<Tag>>, s: seq<Tag>, batch: set<Tag>)
    requires Logs(log, rounds) && Enumerates(s, batch)
    ensures Logs(log + [s], rounds + [batch])
  {
  }

  /** `process_file` from the tag set on; `log` lists the updates, one sequence per round. */
  method Migrate(r: Registry, tags: set<Tag>) returns (outcome: Outcome, log: seq<seq<Tag>>)
    requires Valid(r)
    ensures outcome == Run(r, tags, Pending(r, tags))
    ensures Logs(log, outcome.rounds)
  {
    var now, pending := tags, Pending(r, tags);
    var rounds: seq<set<Tag>> := [];
    log := [];
    ghost var goal := Run(r, tags, pending);
    assert rounds + goal.rounds == goal.rounds;
    while pending != {}
      invariant Removable(r, now, pending)
      invariant goal == Prepend(rounds, Run(r, now, pending))
      invariant Logs(log, rounds)
      decreases |pending|
    {
      var ready := ReadyIn(r, now, pending);
      if ready == {} {
        RunStuck(r, now, pending, rounds);
        return Aborted(now, rounds, pending), log;
      }
      RemoveShrinks(pending, ready);
      RemovableAfter(r, now, pending, ready);
      var now', batch := ApplyBatch(r, now, ready);
      RoundAdvances(r, now, pending, rounds);
      LogsAppend(log, rounds, batch, ready);
      log, rounds := log + [batch], rounds + [ready];
      now, pending := now', pending - ready;
    }
    RunEnds(r, now, rounds);
    return Done(now, rounds), log;
  }

  lemma {:induction false} RunEnds(r: Registry, tags: set<Tag>, rounds: seq<set<Tag>>)
    ensures Prepend(rounds, Run(r, tags, {})) == Done(tags, rounds)
  {
    assert rounds + [] == rounds;
  }

  lemma {:induction false} RunStuck(r: Registry, tags: set<Tag>, pending: set<Tag>, rounds: seq<set<Tag>>)
    requires pending != {} && ReadyIn(r, tags, pending) == {}
    ensures Prepend(rounds, Run(r, tags, pending)) == Aborted(tags, rounds, pending)
  {
    assert rounds + [] == rounds;
  }

  ghost function Prepend(rounds: seq<set<Tag>>, o: Outcome): Outcome {
    o.(rounds := rounds + o.rounds)
  }

  lemma {:induction false} RoundAdvances(r: Registry, tags: set<Tag>, pending: set<Tag>, rounds: seq<set<Tag>>)
    requires pending != {} && ReadyIn(r, tags, pending) != {}
    ensures var ready := ReadyIn(r, tags, pending);
            Prepend(rounds, Run(r, tags, pending))
            == Prepend(rounds + [ready], Run(r, After(r, tags, ready), pending - ready))
  {
    var ready := ReadyIn(r, tags, pending);
    RunStep(r, tags, pending);
    ConcatAssociative(rounds, [ready], Run(r, After(r, tags, ready), pending - ready).rounds);
  }

  /** Every pending downgrader finds its tag in the set when its turn comes. */
  ghost predicate Removable(r: Registry, tags: set<Tag>, pending: set<Tag>) {
    forall t :: t in pending ==> t in r.upgrades || t in tags
  }

  lemma {:induction false} RemovableAfter(r: Registry, tags: set<Tag>, pending: set<Tag>, batch: set<Tag>)
    requires Removable(r, tags, pending) && batch <= pending
    ensures Removable(r, After(r, tags, batch), pending - batch)
  {
  }

  // ---------------------------------------------------------------- the final tag set

  lemma {:induction false} RunEffect(r: Registry, tags: set<Tag>, pending: set<Tag>)
    requires Run(r, tags, pending).Done?
    ensures Run(r, tags, pending).tags == After(r, tags, pending)
    decreases |pending|
  {
    if pending != {} {
      var ready := ReadyIn(r, tags, pending);
      RemoveShrinks(pending, ready);
      RunEffect(r, After(r, tags, ready), pending - ready);
    }
  }

  /** Whatever the order, a finished run leaves the checkpoint with exactly the supported tags it should have. */
  lemma {:induction false} FinalTags(r: Registry, tags: set<Tag>)
    requires Valid(r)
    requires Run(r, tags, Pending(r, tags)).Done?
    ensures Run(r, tags, Pending(r, tags)).tags == (tags - r.untagSet) + r.tagSet
  {
    RunEffect(r, tags, Pending(r, tags));
  }

  /** A second run has nothing left to do. */
  lemma {:induction false} NothingLeft(r: Registry, tags: set<Tag>)
    requires Valid(r)
    requires Run(r, tags, Pending(r, tags)).Done?
    ensures Pending(r, Run(r, tags, Pending(r, tags)).tags) == {}
  {
    FinalTags(r, tags);
  }

  // ---------------------------------------------------------------- once, and dependencies first

  function Union(rounds: seq<set<Tag>>): set<Tag> {
    if rounds == [] then {} else rounds[0] + Union(rounds[1..])
  }

  lemma {:induction false} UnionHolds(rounds: seq<set<Tag>>, j: nat)
    requires j < |rounds|
    ensures rounds[j] <= Union(rounds)
  {
    if j > 0 {
      UnionHolds(rounds[1..], j - 1);
    }
  }

  lemma {:induction false} RoundsCover(r: Registry, tags: set<Tag>, pending: set<Tag>)
    ensures var o := Run(r, tags, pending);
            && (o.Done? ==> Union(o.rounds) == pending)
            && (o.Aborted? ==> Union(o.rounds) == pending - o.stuck && {} < o.stuck <= pending)
    decreases |pending|
  {
    var ready := ReadyIn(r, tags, pending);
    if pending != {} && ready != {} {
      RemoveShrinks(pending, ready);
      RoundsCover(r, After(r, tags, ready), pending - ready);
      RunStep(r, tags, pending);
    }
  }

  lemma {:induction false} RoundsDisjoint(r: Registry, tags: set<Tag>, pending: set<Tag>, i: nat, j: nat)
    requires i < j < |Run(r, tags, pending).rounds|
    ensures Run(r, tags, pending).rounds[i] !! Run(r, tags, pending).rounds[j]
    decreases |pending|
  {
    var ready := ReadyIn(r, tags, pending);
    RemoveShrinks(pending, ready);
    RunStep(r, tags, pending);
    var rest := Run(r, After(r, tags, ready), pending - ready);
    if i == 0 {
      RoundsCover(r, After(r, tags, ready), pending - ready);
      UnionHolds(rest.rounds, j - 1);
    } else {
      RoundsDisjoint(r, After(r, tags, ready), pending - ready, i - 1, j - 1);
    }
  }

  /** No update is applied twice, and a finished run has applied each pending one. */
  lemma {:induction false} EachOnce(r: Registry, tags: set<Tag>, pending: set<Tag>)
    ensures var o := Run(r, tags, pending);
            && (forall i, j :: 0 <= i < j < |o.rounds| ==> o.rounds[i] !! o.rounds[j])
            && (o.Done? ==> Union(o.rounds) == pending)
            && (o.Aborted? ==> Union(o.rounds) == pending - o.stuck && {} < o.stuck <= pending)
  {
    RoundsCover(r, tags, pending);
    var o := Run(r, tags, pending);
    forall i, j | 0 <= i < j < |o.rounds| ensures o.rounds[i] !! o.rounds[j] {
      RoundsDisjoint(r, tags, pending, i, j);
    }
  }

  /** The tag set at the start of round `i`. */
  function StartOf(r: Registry, tags: set<Tag>, rounds: seq<set<Tag>>, i: nat): set<Tag>
    requires i <= |rounds|
    decreases i
  {
    if i == 0 then tags else StartOf(r, After(r, tags, rounds[0]), rounds[1..], i - 1)
  }

  /** A round consists of exactly those pending updates whose dependencies are present when it starts. */
  lemma {:induction false} RoundIsReadySet(r: Registry, tags: set<Tag>, pending: set<Tag>, i: nat)
    requires i < |Run(r, tags, pending).rounds|
    ensures var rounds := Run(r, tags, pending).rounds;
            rounds[i] == ReadyIn(r, StartOf(r, tags, rounds, i), pending - Union(rounds[..i]))
    decreases |pending|
  {
    var rounds := Run(r, tags, pending).rounds;
    RunStep(r, tags, pending);
    if i > 0 {
      var ready := ReadyIn(r, tags, pending);
      RemoveShrinks(pending, ready);
      RoundIsReadySet(r, After(r, tags, ready), pending - ready, i - 1);
      LaterStart(r, tags, pending, rounds, i);
    } else {
      assert Union(rounds[..0]) == {};
    }
  }

  lemma {:induction false} LaterStart(r: Registry, tags: set<Tag>, pending: set<Tag>, rounds: seq<set<Tag>>, i: nat)
    requires 0 < i < |rounds|
    ensures StartOf(r, tags, rounds, i) == StartOf(r, After(r, tags, rounds[0]), rounds[1..], i - 1)
    ensures pending - Union(rounds[..i]) == (pending - rounds[0]) - Union(rounds[1..][..i - 1])
  {
    assert rounds[..i][1..] == rounds[1..][..i - 1];
  }

  lemma {:induction false} StartGrows(r: Registry, tags: set<Tag>, rounds: seq<set<Tag>>, i: nat)
    requires i <= |rounds| && Union(rounds) <= r.upgrades
    ensures StartOf(r, tags, rounds, i) == tags + Union(rounds[..i])
    decreases i
  {
    if i > 0 {
      StartGrows(r, After(r, tags, rounds[0]), rounds[1..], i - 1);
      assert rounds[..i][1..] == rounds[1..][..i - 1];
    }
  }

  /**
   When no downgrader applies, every upgrader runs only after all its dependencies: they
   were in the checkpoint or were applied in an earlier round.
   */
  lemma {:induction false} DependenciesFirst(r: Registry, tags: set<Tag>, i: nat, t: Tag)
    requires Valid(r) && r.untagSet !! tags
    requires i < |Run(r, tags, Pending(r, tags)).rounds|
    requires t in Run(r, tags, Pending(r, tags)).rounds[i]
    ensures t in r.deps && r.deps[t] <= tags + Union(Run(r, tags, Pending(r, tags)).rounds[..i])
  {
    var o := Run(r, tags, Pending(r, tags));
    EachOnce(r, tags, Pending(r, tags));
    RoundIsReadySet(r, tags, Pending(r, tags), i);
    StartGrows(r, tags, o.rounds, i);
  }

  /**
   A tag that depends on a tag with a downgrader runs in a round at whose start that tag is still
   there: never after a round that has removed it.
   */
  lemma {:induction false} DowngradedDependencyStays(r: Registry, tags: set<Tag>, i: nat, t: Tag, d: Tag)
    requires Valid(r)
    requires i < |Run(r, tags, Pending(r, tags)).rounds|
    requires t in Run(r, tags, Pending(r, tags)).rounds[i]
    requires t in r.deps && d in r.deps[t] && d in r.untagSet
    ensures d in tags && d !in Union(Run(r, tags, Pending(r, tags)).rounds[..i])
  {
    RoundIsReadySet(r, tags, Pending(r, tags), i);
    StartWithout(r, tags, Run(r, tags, Pending(r, tags)).rounds, i, d);
  }

  lemma {:induction false} StartWithout(r: Registry, tags: set<Tag>, rounds: seq<set<Tag>>, i: nat, d: Tag)
    requires i <= |rounds| && d !in r.upgrades
    ensures d in StartOf(r, tags, rounds, i) <==> d in tags && d !in Union(rounds[..i])
    decreases i
  {
    if i > 0 {
      StartWithout(r, After(r, tags, rounds[0]), rounds[1..], i - 1, d);
      assert rounds[..i][1..] == rounds[1..][..i - 1];
    }
  }

  // ---------------------------------------------------------------- the promise about downgraders

  /** Update `d` comes before update `t` in a log. */
  ghost predicate Before(log: seq<seq<Tag>>, d: Tag, t: Tag) {
    exists i, j, x, y ::
      && 0 <= i <= j < |log| && 0 <= x < |log[i]| && 0 <= y < |log[j]|
      && log[i][x] == d && log[j][y] == t && (i == j ==> x < y)
  }

  /** `t` depends on `d`, which has a downgrader. */
  predicate OnDowngraded(r: Registry, t: Tag, d: Tag) {
    t in r.deps && d in r.deps[t] && d in r.untagSet
  }

  /**
   The header comment: a tag insists on the downgraders of the tags it depends on having run
   before it.
   */
  ghost predicate KeepsPromise(r: Registry, pending: set<Tag>, log: seq<seq<Tag>>) {
    forall t, d :: t in pending && OnDowngraded(r, t, d) ==> Before(log, d, t)
  }

  lemma {:induction false} RoundOf(rounds: seq<set<Tag>>, t: Tag) returns (i: nat)
    requires t in Union(rounds)
    ensures i < |rounds| && t in rounds[i]
  {
    if t in rounds[0] {
      i := 0;
    } else {
      var k := RoundOf(rounds[1..], t);
      i := k + 1;
    }
  }

  /** In a finished run the downgraded tag's round is not earlier than the dependent's. */
  lemma {:induction false} DowngradeNotEarlier(r: Registry, tags: set<Tag>, i: nat, j: nat, t: Tag, d: Tag)
    requires Valid(r) && OnDowngraded(r, t, d)
    requires i < |Run(r, tags, Pending(r, tags)).rounds| && j < |Run(r, tags, Pending(r, tags)).rounds|
    requires t in Run(r, tags, Pending(r, tags)).rounds[i] && d in Run(r, tags, Pending(r, tags)).rounds[j]
    ensures i <= j
  {
    var rounds := Run(r, tags, Pending(r, tags)).rounds;
    DowngradedDependencyStays(r, tags, i, t, d);
    if j < i {
      UnionHolds(rounds[..i], j);
    }
  }

  /** Where a log has `d` before `t`, in rounds that do not overlap. */
  lemma {:induction false} BeforeInRounds(log: seq<seq<Tag>>, rounds: seq<set<Tag>>, i: nat, j: nat, d: Tag, t: Tag)
    requires Logs(log, rounds) && Disjoint(rounds) && i < |rounds| && j < |rounds|
    requires d in rounds[i] && t in rounds[j]
    ensures Before(log, d, t) <==> i < j || (i == j && BeforeIn(log[i], d, t))
  {
    if Before(log, d, t) {
      var a, b, x, y :| && 0 <= a <= b < |log| && 0 <= x < |log[a]| && 0 <= y < |log[b]|
                        && log[a][x] == d && log[b][y] == t && (a == b ==> x < y);
      SameRound(log, rounds, a, x, i);
      SameRound(log, rounds, b, y, j);
    }
    if i < j {
      assert d in log[i] && t in log[j];
      var x :| 0 <= x < |log[i]| && log[i][x] == d;
      var y :| 0 <= y < |log[j]| && log[j][y] == t;
      assert log[i][x] == d && log[j][y] == t;
    }
    if i == j && BeforeIn(log[i], d, t) {
      var x, y :| 0 <= x < y < |log[i]| && log[i][x] == d && log[i][y] == t;
      assert log[i][x] == d && log[j][y] == t;
    }
  }

  ghost predicate Disjoint(rounds: seq<set<Tag>>) {
    forall i, j :: 0 <= i < j < |rounds| ==> rounds[i] !! rounds[j]
  }

  /** How often an update was applied. */
  ghost function Occurrences(log: seq<seq<Tag>>, t: Tag): nat {
    if log == [] then 0 else multiset(log[0])[t] + Occurrences(log[1..], t)
  }

  lemma {:induction false} EnumeratedOnce(s: seq<Tag>, batch: set<Tag>, t: Tag)
    requires Enumerates(s, batch)
    ensures multiset(s)[t] == if t in batch then 1 else 0
  {
    if s == [] || t !in s {
      assert t !in multiset(s);
    } else {
      assert s == [s[0]] + s[1..];
      forall u ensures u in s[1..] <==> u in batch - {s[0]} {
        assert u in s <==> u == s[0] || u in s[1..];
      }
      EnumeratedOnce(s[1..], batch - {s[0]}, t);
    }
  }

  lemma {:induction false} LogsTail(log: seq<seq<Tag>>, rounds: seq<set<Tag>>)
    requires Logs(log, rounds) && log != []
    ensures Enumerates(log[0], rounds[0]) && Logs(log[1..], rounds[1..])
  {
    forall i | 0 <= i < |log| - 1 ensures Enumerates(log[1..][i], rounds[1..][i]) {
      assert Enumerates(log[i + 1], rounds[i + 1]);
    }
  }

  /** The log of rounds that do not overlap has every member of a round exactly once. */
  lemma {:induction false} LoggedOnce(log: seq<seq<Tag>>, rounds: seq<set<Tag>>, t: Tag)
    requires Logs(log, rounds) && Disjoint(rounds)
    ensures Occurrences(log, t) == if t in Union(rounds) then 1 else 0
  {
    if log != [] {
      LogsTail(log, rounds);
      EnumeratedOnce(log[0], rounds[0], t);
      LoggedOnce(log[1..], rounds[1..], t);
      if t in Union(rounds[1..]) {
        var i := RoundOf(rounds[1..], t);
        assert rounds[0] !! rounds[i + 1];
      }
    }
  }

  /** What a run applies, and how often: the pending updates once, or those before it got stuck. */
  lemma {:induction false} RunLogsOnce(r: Registry, tags: set<Tag>, log: seq<seq<Tag>>, t: Tag)
    requires Logs(log, Run(r, tags, Pending(r, tags)).rounds)
    ensures Occurrences(log, t) <= (if t in Pending(r, tags) then 1 else 0)
    ensures Run(r, tags, Pending(r, tags)).Done? ==> Occurrences(log, t) == if t in Pending(r, tags) then 1 else 0
  {
    EachOnce(r, tags, Pending(r, tags));
    LoggedOnce(log, Run(r, tags, Pending(r, tags)).rounds, t);
  }

  ghost predicate BeforeIn(s: seq<Tag>, d: Tag, t: Tag) {
    exists x, y :: 0 <= x < y < |s| && s[x] == d && s[y] == t
  }

  lemma {:induction false} SameRound(log: seq<seq<Tag>>, rounds: seq<set<Tag>>, a: nat, x: nat, i: nat)
    requires Logs(log, rounds) && Disjoint(rounds) && a < |log| && x < |log[a]| && i < |rounds|
    requires log[a][x] in rounds[i]
    ensures a == i
  {
    assert log[a][x] in log[a];
    assert log[a][x] in rounds[a];
  }

  /** A round can be run so that downgraders come before what depends on them. */
  ghost predicate KeepsInRound(r: Registry, batch: set<Tag>, s: seq<Tag>) {
    forall t, d :: t in batch && d in batch && OnDowngraded(r, t, d) ==> BeforeIn(s, d, t)
  }

  /** Every dependent pair of the run shares a round. */
  ghost predicate PairsShareRound(r: Registry, rounds: seq<set<Tag>>) {
    forall i, t, d :: 0 <= i < |rounds| && t in rounds[i] && OnDowngraded(r, t, d) ==> d in rounds[i]
  }

  /** For a finished run, the promise is one about each round. */
  lemma {:induction false} PromiseByRounds(r: Registry, tags: set<Tag>, log: seq<seq<Tag>>)
    requires Valid(r) && Run(r, tags, Pending(r, tags)).Done?
    requires Logs(log, Run(r, tags, Pending(r, tags)).rounds)
    ensures var rounds := Run(r, tags, Pending(r, tags)).rounds;
            KeepsPromise(r, Pending(r, tags), log)
            <==> && PairsShareRound(r, rounds)
                 && forall i :: 0 <= i < |rounds| ==> KeepsInRound(r, rounds[i], log[i])
  {
    var pending, rounds := Pending(r, tags), Run(r, tags, Pending(r, tags)).rounds;
    EachOnce(r, tags, pending);
    if KeepsPromise(r, pending, log) {
      forall i, t, d | 0 <= i < |rounds| && t in rounds[i] && OnDowngraded(r, t, d)
        ensures d in rounds[i] && BeforeIn(log[i], d, t)
      {
        UnionHolds(rounds, i);
        PairInOneRound(r, tags, log, i, t, d);
      }
    }
    if PairsShareRound(r, rounds) && forall i :: 0 <= i < |rounds| ==> KeepsInRound(r, rounds[i], log[i]) {
      forall t, d | t in pending && OnDowngraded(r, t, d) ensures Before(log, d, t) {
        var i := RoundOf(rounds, t);
        assert KeepsInRound(r, rounds[i], log[i]);
        BeforeInRounds(log, rounds, i, i, d, t);
      }
    }
  }

  lemma {:induction false} PairInOneRound(r: Registry, tags: set<Tag>, log: seq<seq<Tag>>, i: nat, t: Tag, d: Tag)
    requires Valid(r) && Run(r, tags, Pending(r, tags)).Done?
    requires Logs(log, Run(r, tags, Pending(r, tags)).rounds)
    requires i < |Run(r, tags, Pending(r, tags)).rounds| && t in Run(r, tags, Pending(r, tags)).rounds[i]
    requires OnDowngraded(r, t, d) && Before(log, d, t)
    ensures d in Run(r, tags, Pending(r, tags)).rounds[i] && BeforeIn(log[i], d, t)
  {
    var rounds := Run(r, tags, Pending(r, tags)).rounds;
    EachOnce(r, tags, Pending(r, tags));
    DowngradedDependencyStays(r, tags, i, t, d);
    assert d in Pending(r, tags);
    var j := RoundOf(rounds, d);
    DowngradeNotEarlier(r, tags, i, j, t, d);
    BeforeInRounds(log, rounds, j, i, d, t);
  }

  // ---------------------------------------------------------------- orders that keep the promise

  /** Among any tags of the batch, one depends on no downgraded one among them: they do not wait in a circle. */
  ghost predicate Orderable(r: Registry, batch: set<Tag>) {
    forall s: set<Tag> :: s <= batch && s != {} ==> SomeFree(r, s)
  }

  ghost predicate SomeFree(r: Registry, s: set<Tag>) {
    exists t :: t in s && Free(r, s, t)
  }

  predicate Free(r: Registry, s: set<Tag>, t: Tag) {
    t in r.deps ==> r.deps[t] * r.untagSet !! s
  }

  /** Whatever the set, it can be listed. */
  lemma {:induction false} ListBatch(batch: set<Tag>) returns (s: seq<Tag>)
    ensures Enumerates(s, batch)
  {
    if batch == {} {
      s := [];
    } else {
      var t :| t in batch;
      var rest := ListBatch(batch - {t});
      s := [t] + rest;
      FirstEnumerates(rest, batch, t);
    }
  }

  lemma {:induction false} FirstEnumerates(rest: seq<Tag>, batch: set<Tag>, t: Tag)
    requires t in batch && Enumerates(rest, batch - {t})
    ensures Enumerates([t] + rest, batch)
  {
    var s := [t] + rest;
    forall i, j | 0 <= i < j < |s| ensures s[i] != s[j] {
      assert s[j] == rest[j - 1] && rest[j - 1] in rest;
      assert i > 0 ==> s[i] == rest[i - 1];
    }
  }

  lemma {:induction false} BeforeInRest(s: seq<Tag>, t: Tag, a: Tag, b: Tag)
    requires BeforeIn(s, a, b)
    ensures BeforeIn([t] + s, a, b)
  {
    var x, y :| 0 <= x < y < |s| && s[x] == a && s[y] == b;
    assert ([t] + s)[x + 1] == a && ([t] + s)[y + 1] == b;
  }

  /** A batch without a circle can be run so that the promise is kept: run first what depends on nothing left. */
  lemma {:induction false} OrderBatch(r: Registry, batch: set<Tag>) returns (s: seq<Tag>)
    requires Orderable(r, batch)
    ensures Enumerates(s, batch) && KeepsInRound(r, batch, s)
  {
    if batch == {} {
      s := [];
    } else {
      assert SomeFree(r, batch);
      var first :| first in batch && Free(r, batch, first);
      OrderableSubset(r, batch, batch - {first});
      var rest := OrderBatch(r, batch - {first});
      s := [first] + rest;
      FirstEnumerates(rest, batch, first);
      FirstKeeps(r, batch, first, rest);
    }
  }

  lemma {:induction false} OrderableSubset(r: Registry, batch: set<Tag>, sub: set<Tag>)
    requires Orderable(r, batch) && sub <= batch
    ensures Orderable(r, sub)
  {
    forall s: set<Tag> | s <= sub && s != {} ensures SomeFree(r, s) {
      assert s <= batch;
    }
  }

  lemma {:induction false} FirstKeeps(r: Registry, batch: set<Tag>, first: Tag, rest: seq<Tag>)
    requires first in batch && Free(r, batch, first)
    requires Enumerates(rest, batch - {first}) && KeepsInRound(r, batch - {first}, rest)
    ensures KeepsInRound(r, batch, [first] + rest)
  {
    forall t, d | t in batch && d in batch && OnDowngraded(r, t, d) ensures BeforeIn([first] + rest, d, t) {
      assert t != first;
      if d == first {
        assert t in rest;
        var y :| 0 <= y < |rest| && rest[y] == t;
        assert ([first] + rest)[0] == d && ([first] + rest)[y + 1] == t;
      } else {
        BeforeInRest(rest, first, d, t);
      }
    }
  }

  /** Conversely, in an order that keeps the promise the first of any tags depends on none of them. */
  lemma {:induction false} KeptIsOrderable(r: Registry, batch: set<Tag>, s: seq<Tag>)
    requires Enumerates(s, batch) && KeepsInRound(r, batch, s)
    ensures Orderable(r, batch)
  {
    forall sub: set<Tag> | sub <= batch && sub != {} ensures SomeFree(r, sub) {
      var i := FirstOf(s, sub, batch);
      FirstIsFree(r, batch, s, sub, i);
    }
  }

  lemma {:induction false} FirstIsFree(r: Registry, batch: set<Tag>, s: seq<Tag>, sub: set<Tag>, i: nat)
    requires Enumerates(s, batch) && KeepsInRound(r, batch, s) && sub <= batch
    requires i < |s| && s[i] in sub && forall k :: 0 <= k < i ==> s[k] !in sub
    ensures Free(r, sub, s[i])
  {
    forall d | d in batch && OnDowngraded(r, s[i], d) ensures d !in sub {
      var x, y :| 0 <= x < y < |s| && s[x] == d && s[y] == s[i];
      assert y == i;
    }
    assert s[i] in r.deps ==> forall d :: d in r.deps[s[i]] * r.untagSet ==> OnDowngraded(r, s[i], d);
  }

  lemma {:induction false} FirstOf(s: seq<Tag>, sub: set<Tag>, batch: set<Tag>) returns (i: nat)
    requires Enumerates(s, batch) && sub <= batch && sub != {}
    ensures i < |s| && s[i] in sub && forall k :: 0 <= k < i ==> s[k] !in sub
  {
    var t :| t in sub;
    assert t in s;
    i := 0;
    while s[i] !in sub
      invariant i < |s| && forall k :: 0 <= k < i ==> s[k] !in sub
      invariant exists k :: i <= k < |s| && s[k] in sub
      decreases |s| - i
    {
      i := i + 1;
    }
  }

  /** Each round in an order of its own. */
  lemma {:induction false} ListRounds(r: Registry, rounds: seq<set<Tag>>) returns (log: seq<seq<Tag>>)
    ensures Logs(log, rounds)
    ensures forall i :: 0 <= i < |rounds| && Orderable(r, rounds[i]) ==> KeepsInRound(r, rounds[i], log[i])
  {
    if rounds == [] {
      log := [];
    } else {
      var rest := ListRounds(r, rounds[1..]);
      var first;
      if Orderable(r, rounds[0]) {
        first := OrderBatch(r, rounds[0]);
      } else {
        first := ListBatch(rounds[0]);
      }
      log := [first] + rest;
      forall i | 0 < i < |rounds| ensures log[i] == rest[i - 1] && rounds[i] == rounds[1..][i - 1] {}
    }
  }

  /**
   When some order of the updates keeps the promise of the header comment: exactly if every tag
   shares its round with the downgraded tags it depends on, and no tags of a round wait for
   each other in a circle.
   */
  lemma {:induction false} SomeOrderKeepsIff(r: Registry, tags: set<Tag>)
    requires Valid(r) && Run(r, tags, Pending(r, tags)).Done?
    ensures var rounds := Run(r, tags, Pending(r, tags)).rounds;
            (exists log :: Logs(log, rounds) && KeepsPromise(r, Pending(r, tags), log))
            <==> PairsShareRound(r, rounds) && forall i :: 0 <= i < |rounds| ==> Orderable(r, rounds[i])
  {
    var rounds := Run(r, tags, Pending(r, tags)).rounds;
    if log :| Logs(log, rounds) && KeepsPromise(r, Pending(r, tags), log) {
      PromiseByRounds(r, tags, log);
      forall i | 0 <= i < |rounds| ensures Orderable(r, rounds[i]) {
        KeptIsOrderable(r, rounds[i], log[i]);
      }
    }
    if PairsShareRound(r, rounds) && forall i :: 0 <= i < |rounds| ==> Orderable(r, rounds[i]) {
      var log := ListRounds(r, rounds);
      PromiseByRounds(r, tags, log);
    }
  }

  /**
   When every order keeps it, as the comment promises: exactly if no pending tag depends on a tag
   with a downgrader at all.
   */
  lemma {:induction false} EveryOrderKeepsIff(r: Registry, tags: set<Tag>)
    requires Valid(r) && Run(r, tags, Pending(r, tags)).Done?
    ensures var rounds := Run(r, tags, Pending(r, tags)).rounds;
            (forall log :: Logs(log, rounds) ==> KeepsPromise(r, Pending(r, tags), log))
            <==> forall t, d :: t in Pending(r, tags) ==> !OnDowngraded(r, t, d)
  {
    var pending, rounds := Pending(r, tags), Run(r, tags, Pending(r, tags)).rounds;
    if t, d :| t in pending && OnDowngraded(r, t, d) {
      EachOnce(r, tags, pending);
      var i := RoundOf(rounds, t);
      var log := DependentFirst(r, rounds, i, t);
      PromiseByRounds(r, tags, log);
      NotBefore(log[i], rounds[i], t, d);
    }
  }

  /** An order in which `t` is the first of its round. */
  lemma {:induction false} DependentFirst(r: Registry, rounds: seq<set<Tag>>, i: nat, t: Tag)
    returns (log: seq<seq<Tag>>)
    requires i < |rounds| && t in rounds[i]
    ensures Logs(log, rounds) && log[i] != [] && log[i][0] == t
  {
    var all := ListRounds(r, rounds);
    var rest := ListBatch(rounds[i] - {t});
    FirstEnumerates(rest, rounds[i], t);
    log := all[i := [t] + rest];
  }

  lemma {:induction false} NotBefore(s: seq<Tag>, batch: set<Tag>, t: Tag, d: Tag)
    requires Enumerates(s, batch) && s != [] && s[0] == t
    ensures !BeforeIn(s, d, t)
  {
  }

  /** A registry on which every order breaks the promise: `d` waits for `u`, and `t`, which depends on `d`, does not. */
  function LateDowngrade(): Registry {
    Registry({"t", "u"}, {"d"}, map["t" := {"d"}, "u" := {}, "d" := {"u"}], {"t", "u"})
  }

  lemma {:induction false} HeaderCommentFails(log: seq<seq<Tag>>)
    requires Logs(log, [{"t", "u"}, {"d"}])
    ensures Valid(LateDowngrade()) && Pending(LateDowngrade(), {"d"}) == {"t", "u", "d"}
    ensures Run(LateDowngrade(), {"d"}, {"t", "u", "d"}) == Done({"t", "u"}, [{"t", "u"}, {"d"}])
    ensures !KeepsPromise(LateDowngrade(), {"t", "u", "d"}, log)
  {
    var r := LateDowngrade();
    LateDowngradeRun();
    assert "d" !in {"t", "u"};
    PromiseByRounds(r, {"d"}, log);
    assert OnDowngraded(r, "t", "d") && "t" in [{"t", "u"}, {"d"}][0];
  }

  lemma {:induction false} LateDowngradeRun()
    ensures Valid(LateDowngrade()) && Pending(LateDowngrade(), {"d"}) == {"t", "u", "d"}
    ensures Run(LateDowngrade(), {"d"}, {"t", "u", "d"}) == Done({"t", "u"}, [{"t", "u"}, {"d"}])
  {
    var r := LateDowngrade();
    assert Pending(r, {"d"}) == {"t", "u", "d"};
    assert ReadyIn(r, {"d"}, {"t", "u", "d"}) == {"t", "u"};
    assert {"t", "u", "d"} - {"t", "u"} == {"d"};
    assert After(r, {"d"}, {"t", "u"}) == {"d", "t", "u"};
    RunStep(r, {"d"}, {"t", "u", "d"});
    assert ReadyIn(r, {"d", "t", "u"}, {"d"}) == {"d"};
    assert {"d"} - {"d"} == {} && After(r, {"d", "t", "u"}, {"d"}) == {"t", "u"};
    RunStep(r, {"d", "t", "u"}, {"d"});
  }

  // ---------------------------------------------------------------- when the loop gives up

  /** `c` contains every pending tag all of whose dependencies it contains. */
  ghost predicate Closed(r: Registry, pending: set<Tag>, c: set<Tag>) {
    forall t :: t in pending && Ready(r, c, t) ==> t in c
  }

  /** The least closure of the starting tags under the dependencies. */
  ghost predicate InClosure(r: Registry, tags: set<Tag>, pending: set<Tag>, t: Tag) {
    forall c: set<Tag> :: tags <= c && Closed(r, pending, c) ==> t in c
  }

  /** Whatever a run has applied lies in every closed set. */
  lemma {:induction false} AppliedInClosed(r: Registry, tags: set<Tag>, pending: set<Tag>, c: set<Tag>)
    requires tags <= c && Closed(r, pending, c)
    requires pending <= r.upgrades
    ensures Run(r, tags, pending).tags <= c
    decreases |pending|
  {
    var ready := ReadyIn(r, tags, pending);
    if pending != {} && ready != {} {
      RemoveShrinks(pending, ready);
      AppliedInClosed(r, After(r, tags, ready), pending - ready, c);
    }
  }

  /** The tags with which a run gives up are closed. */
  lemma {:induction false} AbortIsClosed(r: Registry, tags: set<Tag>, pending: set<Tag>)
    requires pending <= r.upgrades
    requires Run(r, tags, pending).Aborted?
    ensures var o := Run(r, tags, pending);
            tags <= o.tags && Closed(r, pending, o.tags) && (pending !! tags ==> o.stuck !! o.tags)
    decreases |pending|
  {
    var ready := ReadyIn(r, tags, pending);
    if ready != {} {
      RemoveShrinks(pending, ready);
      AbortIsClosed(r, After(r, tags, ready), pending - ready);
    } else {
      assert forall t :: t in pending && Ready(r, tags, t) ==> t in ready;
    }
  }

  lemma {:induction false} DoneHasAll(r: Registry, tags: set<Tag>, pending: set<Tag>)
    requires pending <= r.upgrades
    requires Run(r, tags, pending).Done?
    ensures pending <= Run(r, tags, pending).tags
  {
    RunEffect(r, tags, pending);
  }

  /**
   With no downgrader to apply, the loop gives up exactly when some pending tag is outside
   the least closure of the starting tags.
   */
  lemma {:induction false} AbortIffOutsideClosure(r: Registry, tags: set<Tag>)
    requires Valid(r) && r.untagSet !! tags
    ensures Run(r, tags, Pending(r, tags)).Aborted?
            <==> exists t :: t in Pending(r, tags) && !InClosure(r, tags, Pending(r, tags), t)
  {
    var pending := Pending(r, tags);
    var o := Run(r, tags, pending);
    if o.Aborted? {
      AbortIsClosed(r, tags, pending);
      EachOnce(r, tags, pending);
      var t :| t in o.stuck;
      assert t in pending && !InClosure(r, tags, pending, t);
    } else {
      DoneHasAll(r, tags, pending);
      forall t | t in pending ensures InClosure(r, tags, pending, t) {
        forall c: set<Tag> | tags <= c && Closed(r, pending, c) ensures t in c {
          AppliedInClosed(r, tags, pending, c);
        }
      }
    }
  }

  // ---------------------------------------------------------------- when the loop finishes, with downgraders

  /** The tags there would be after `n` rounds from `tags` if nothing were ever removed. */
  function Avail(r: Registry, tags: set<Tag>, pending: set<Tag>, n: nat): set<Tag> {
    if n == 0 then tags
    else
      var before := Avail(r, tags, pending, n - 1);
      before + ReadyIn(r, before, pending) * r.upgrades
  }

  ghost predicate ReadySometime(r: Registry, tags: set<Tag>, pending: set<Tag>, t: Tag) {
    exists n: nat :: Ready(r, Avail(r, tags, pending, n), t)
  }

  /** Removals ignored, `t` is ready as soon as `d` is. */
  ghost predicate NotLater(r: Registry, tags: set<Tag>, pending: set<Tag>, t: Tag, d: Tag) {
    forall n: nat :: Ready(r, Avail(r, tags, pending, n), d) ==> Ready(r, Avail(r, tags, pending, n), t)
  }

  /** `t` depends on `d`, which is not added by an upgrader. */
  predicate NeedsKept(r: Registry, t: Tag, d: Tag) {
    t in r.deps && d in r.deps[t] && d !in r.upgrades
  }

  /**
   Removals ignored, every pending tag becomes ready, and none later than a pending downgraded tag
   it depends on; and none depends on a tag that is `gone`.
   */
  ghost predicate CanFinish(r: Registry, tags: set<Tag>, gone: set<Tag>, pending: set<Tag>) {
    && (forall t :: t in pending ==> ReadySometime(r, tags, pending, t))
    && (forall t, d :: t in pending && d in gone ==> !NeedsKept(r, t, d))
    && (forall t, d :: t in pending && d in pending && NeedsKept(r, t, d) ==> NotLater(r, tags, pending, t, d))
  }

  lemma {:induction false} AvailGrows(r: Registry, tags: set<Tag>, pending: set<Tag>, n: nat)
    ensures tags <= Avail(r, tags, pending, n)
  {
    if n > 0 {
      AvailGrows(r, tags, pending, n - 1);
    }
  }

  /** One round on: the tags it added are there, and its updates no longer pending. */
  lemma {:induction false} AvailShift(r: Registry, tags: set<Tag>, pending: set<Tag>, n: nat)
    ensures var ready := ReadyIn(r, tags, pending);
            Avail(r, tags + ready * r.upgrades, pending - ready, n) == Avail(r, tags, pending, n + 1)
  {
    var ready := ReadyIn(r, tags, pending);
    var tags' := tags + ready * r.upgrades;
    if n == 0 {
      assert Avail(r, tags, pending, 0) == tags;
    } else {
      AvailShift(r, tags, pending, n - 1);
      AvailGrows(r, tags', pending - ready, n - 1);
      ReadySplit(r, Avail(r, tags, pending, n), pending, ready);
    }
  }

  lemma {:induction false} ReadySplit(r: Registry, tags: set<Tag>, pending: set<Tag>, done: set<Tag>)
    requires done * r.upgrades <= tags
    ensures tags + ReadyIn(r, tags, pending - done) * r.upgrades == tags + ReadyIn(r, tags, pending) * r.upgrades
  {
  }

  /** A tag that depends on one that is gone for good never runs. */
  lemma {:induction false} NeverRuns(r: Registry, tags: set<Tag>, pending: set<Tag>, t: Tag, d: Tag)
    requires t in pending && d !in tags && NeedsKept(r, t, d)
    ensures Run(r, tags, pending).Aborted?
    decreases |pending|
  {
    var ready := ReadyIn(r, tags, pending);
    if ready != {} {
      RemoveShrinks(pending, ready);
      NeverRuns(r, After(r, tags, ready), pending - ready, t, d);
    }
  }

  /** If nothing is ready, nothing ever will be. */
  lemma {:induction false} NothingAvail(r: Registry, tags: set<Tag>, pending: set<Tag>, n: nat)
    requires ReadyIn(r, tags, pending) == {}
    ensures Avail(r, tags, pending, n) == tags
  {
    if n > 0 {
      NothingAvail(r, tags, pending, n - 1);
    }
  }

  /** What is ready with the removed tags is ready without them, if it depends on none. */
  lemma {:induction false} SameReady(r: Registry, tags: set<Tag>, gone: set<Tag>, pending: set<Tag>)
    requires gone !! r.upgrades && forall t, d :: t in pending && d in gone ==> !NeedsKept(r, t, d)
    ensures ReadyIn(r, tags - gone, pending) == ReadyIn(r, tags, pending)
  {
    forall t | t in pending && Ready(r, tags, t) ensures Ready(r, tags - gone, t) {
      forall d | d in r.deps[t] ensures d !in gone {
        assert d in gone ==> NeedsKept(r, t, d);
      }
    }
  }

  lemma {:induction false} ReadyLater(r: Registry, tags: set<Tag>, pending: set<Tag>, t: Tag)
    requires t in pending && t !in ReadyIn(r, tags, pending)
    ensures var ready := ReadyIn(r, tags, pending);
            ReadySometime(r, tags, pending, t)
            <==> ReadySometime(r, tags + ready * r.upgrades, pending - ready, t)
  {
    var ready := ReadyIn(r, tags, pending);
    if n: nat :| Ready(r, Avail(r, tags, pending, n), t) {
      assert n > 0;
      AvailShift(r, tags, pending, n - 1);
    }
    if n: nat :| Ready(r, Avail(r, tags + ready * r.upgrades, pending - ready, n), t) {
      AvailShift(r, tags, pending, n);
    }
  }

  lemma {:induction false} NotLaterShift(r: Registry, tags: set<Tag>, pending: set<Tag>, t: Tag, d: Tag)
    requires d in pending && d !in ReadyIn(r, tags, pending)
    ensures var ready := ReadyIn(r, tags, pending);
            NotLater(r, tags, pending, t, d) <==> NotLater(r, tags + ready * r.upgrades, pending - ready, t, d)
  {
    var ready := ReadyIn(r, tags, pending);
    var tags', rest := tags + ready * r.upgrades, pending - ready;
    if NotLater(r, tags, pending, t, d) {
      forall n: nat | Ready(r, Avail(r, tags', rest, n), d) ensures Ready(r, Avail(r, tags', rest, n), t) {
        AvailShift(r, tags, pending, n);
      }
    }
    if NotLater(r, tags', rest, t, d) {
      forall n: nat | Ready(r, Avail(r, tags, pending, n), d) ensures Ready(r, Avail(r, tags, pending, n), t) {
        assert n > 0;
        AvailShift(r, tags, pending, n - 1);
      }
    }
  }

  /** A tag that is ready at once is not later than any other. */
  lemma {:induction false} ReadyIsNotLater(r: Registry, tags: set<Tag>, pending: set<Tag>, t: Tag, d: Tag)
    requires Ready(r, tags, t)
    ensures NotLater(r, tags, pending, t, d) && ReadySometime(r, tags, pending, t)
  {
    assert Ready(r, Avail(r, tags, pending, 0), t);
    forall n: nat ensures Ready(r, Avail(r, tags, pending, n), t) {
      AvailGrows(r, tags, pending, n);
    }
  }

  /** And one that is not ready at once is later than one that is. */
  lemma {:induction false} NotReadyIsLater(r: Registry, tags: set<Tag>, pending: set<Tag>, t: Tag, d: Tag)
    requires !Ready(r, tags, t) && Ready(r, tags, d)
    ensures !NotLater(r, tags, pending, t, d)
  {
    assert Avail(r, tags, pending, 0) == tags;
  }

  lemma {:induction false} CanFinishShift(r: Registry, tags: set<Tag>, gone: set<Tag>, pending: set<Tag>)
    requires forall t, d :: t in pending && d in gone ==> !NeedsKept(r, t, d)
    ensures var ready := ReadyIn(r, tags, pending);
            CanFinish(r, tags, gone, pending)
            <==> CanFinish(r, tags + ready * r.upgrades, gone + (ready - r.upgrades), pending - ready)
  {
    var ready := ReadyIn(r, tags, pending);
    var tags', gone', rest := tags + ready * r.upgrades, gone + (ready - r.upgrades), pending - ready;
    forall t | t in rest ensures ReadySometime(r, tags, pending, t) <==> ReadySometime(r, tags', rest, t) {
      ReadyLater(r, tags, pending, t);
    }
    if CanFinish(r, tags, gone, pending) {
      forall t, d | t in rest && d in gone' ensures !NeedsKept(r, t, d) {
        if d in ready {
          NotReadyIsLater(r, tags, pending, t, d);
        }
      }
      forall t, d | t in rest && d in rest && NeedsKept(r, t, d) ensures NotLater(r, tags', rest, t, d) {
        NotLaterShift(r, tags, pending, t, d);
      }
    }
    if CanFinish(r, tags', gone', rest) {
      forall t | t in pending ensures ReadySometime(r, tags, pending, t) {
        if t in ready {
          ReadyIsNotLater(r, tags, pending, t, t);
        }
      }
      forall t, d | t in pending && d in pending && NeedsKept(r, t, d) ensures NotLater(r, tags, pending, t, d) {
        if t in ready {
          ReadyIsNotLater(r, tags, pending, t, d);
        } else {
          assert d !in ready;
          NotLaterShift(r, tags, pending, t, d);
        }
      }
    }
  }

  /** The loop on a tag set from which some downgraded tags are already gone. */
  lemma {:induction false} RunDoneIff(r: Registry, tags: set<Tag>, gone: set<Tag>, pending: set<Tag>)
    requires gone !! r.upgrades
    ensures Run(r, tags - gone, pending).Done? <==> CanFinish(r, tags, gone, pending)
    decreases |pending|
  {
    if t, d :| t in pending && d in gone && NeedsKept(r, t, d) {
      NeverRuns(r, tags - gone, pending, t, d);
    } else if pending != {} {
      SameReady(r, tags, gone, pending);
      var ready := ReadyIn(r, tags, pending);
      if ready == {} {
        NothingFinishes(r, tags, gone, pending);
      } else {
        var tags', gone' := tags + ready * r.upgrades, gone + (ready - r.upgrades);
        RemoveShrinks(pending, ready);
        CanFinishShift(r, tags, gone, pending);
        assert After(r, tags - gone, ready) == tags' - gone';
        RunDoneIff(r, tags', gone', pending - ready);
        RunStep(r, tags - gone, pending);
      }
    }
  }

  lemma {:induction false} NothingFinishes(r: Registry, tags: set<Tag>, gone: set<Tag>, pending: set<Tag>)
    requires pending != {} && ReadyIn(r, tags, pending) == {}
    ensures !CanFinish(r, tags, gone, pending)
  {
    var t :| t in pending;
    forall n: nat ensures !Ready(r, Avail(r, tags, pending, n), t) {
      NothingAvail(r, tags, pending, n);
      assert t !in ReadyIn(r, tags, pending);
    }
    assert !ReadySometime(r, tags, pending, t);
  }

  /**
   For every checkpoint, downgraders included, the loop finishes exactly if, removals ignored,
   every pending tag becomes ready, and none later than a pending downgraded tag it depends on.
   */
  lemma {:induction false} FinishesIff(r: Registry, tags: set<Tag>)
    requires Valid(r)
    ensures var pending := Pending(r, tags);
            Run(r, tags, pending).Done?
            <==> && (forall t :: t in pending ==> ReadySometime(r, tags, pending, t))
                 && (forall t, d :: t in pending && d in pending && OnDowngraded(r, t, d) ==>
                       NotLater(r, tags, pending, t, d))
  {
    var pending := Pending(r, tags);
    assert tags - {} == tags;
    RunDoneIff(r, tags, {}, pending);
    forall t, d | t in pending && d in pending ensures NeedsKept(r, t, d) <==> OnDowngraded(r, t, d) {
      assert d in r.upgrades <==> d !in r.untagSet;
    }
  }

  // ---------------------------------------------------------------- why the loop gives up

  /** A walk along dependencies through pending tags. */
  ghost predicate Walk(r: Registry, pending: set<Tag>, p: seq<Tag>) {
    && p != []
    && (forall i :: 0 <= i < |p| ==> p[i] in pending && p[i] in r.deps)
    && (forall i :: 0 <= i < |p| - 1 ==> p[i + 1] in r.deps[p[i]])
  }

  /** The last tag of the walk needs a tag that is neither present nor pending. */
  ghost predicate EndsMissing(r: Registry, tags: set<Tag>, pending: set<Tag>, p: seq<Tag>)
    requires Walk(r, pending, p)
  {
    exists d :: d in r.deps[p[|p| - 1]] && d !in tags && d !in pending
  }

  /** The last tag of the walk needs a tag the walk has already visited. */
  ghost predicate EndsInCycle(r: Registry, pending: set<Tag>, p: seq<Tag>)
    requires Walk(r, pending, p)
  {
    exists i :: 0 <= i < |p| && p[i] in r.deps[p[|p| - 1]]
  }

  /** `t` needs something stuck, or something that is neither present nor pending. */
  ghost predicate Waits(r: Registry, tags: set<Tag>, pending: set<Tag>, stuck: set<Tag>, t: Tag) {
    t in r.deps && exists d :: d in r.deps[t] && (d in stuck || (d !in tags && d !in pending))
  }

  ghost predicate Distinct(p: seq<Tag>) {
    forall i, j :: 0 <= i < j < |p| ==> p[i] != p[j]
  }

  /** From a tag that cannot run, walk on through tags that cannot run until the reason shows. */
  lemma {:induction false} FindReason(r: Registry, tags: set<Tag>, pending: set<Tag>, stuck: set<Tag>, p: seq<Tag>)
    returns (q: seq<Tag>)
    requires stuck <= pending
    requires forall t :: t in stuck ==> Waits(r, tags, pending, stuck, t)
    requires Walk(r, pending, p) && Distinct(p) && (forall i :: 0 <= i < |p| ==> p[i] in stuck)
    ensures Walk(r, pending, q)
    ensures EndsMissing(r, tags, pending, q) || EndsInCycle(r, pending, q)
    decreases |stuck| - |p|
  {
    var t := p[|p| - 1];
    assert Waits(r, tags, pending, stuck, t);
    var d :| d in r.deps[t] && (d in stuck || (d !in tags && d !in pending));
    if d in p {
      q := p;
      var i :| 0 <= i < |p| && p[i] == d;
    } else if d !in stuck {
      q := p;
    } else {
      WalkFits(stuck, p, d);
      q := FindReason(r, tags, pending, stuck, p + [d]);
    }
  }

  lemma {:induction false} WalkFits(stuck: set<Tag>, p: seq<Tag>, d: Tag)
    requires Distinct(p) && (forall i :: 0 <= i < |p| ==> p[i] in stuck)
    requires d in stuck && d !in p
    ensures |p| < |stuck|
  {
    var visited := set t | t in p;
    DistinctSize(p);
    SubsetSize(visited + {d}, stuck);
  }

  lemma {:induction false} DistinctSize(p: seq<Tag>)
    requires Distinct(p)
    ensures |set t | t in p| == |p|
  {
    if p != [] {
      var n := |p| - 1;
      DistinctSize(p[..n]);
      assert p == p[..n] + [p[n]];
      assert (set t | t in p) == (set t | t in p[..n]) + {p[n]};
    }
  }

  lemma {:induction false} SubsetSize<T>(a: set<T>, b: set<T>)
    requires a <= b
    ensures |a| <= |b|
  {
    assert b == a + (b - a);
  }

  lemma {:induction false} BadSuccessor(r: Registry, tags: set<Tag>, pending: set<Tag>, p: seq<Tag>, i: nat)
    returns (d: Tag)
    requires Walk(r, pending, p) && i < |p|
    requires EndsMissing(r, tags, pending, p) || EndsInCycle(r, pending, p)
    ensures d in r.deps[p[i]] && (d in p || (d !in tags && d !in pending))
  {
    if i < |p| - 1 {
      d := p[i + 1];
    } else if EndsInCycle(r, pending, p) {
      var j :| 0 <= j < |p| && p[j] in r.deps[p[i]];
      d := p[j];
    } else {
      d :| d in r.deps[p[i]] && d !in tags && d !in pending;
    }
  }

  /** The tags of a walk that ends badly are outside the closure. */
  lemma {:induction false} BadWalkOutside(r: Registry, tags: set<Tag>, pending: set<Tag>, p: seq<Tag>)
    requires pending !! tags && Walk(r, pending, p)
    requires EndsMissing(r, tags, pending, p) || EndsInCycle(r, pending, p)
    ensures !InClosure(r, tags, pending, p[0])
  {
    var c := set t | t in tags + pending && t !in p;
    forall t | t in p ensures !Ready(r, c, t) {
      var i :| 0 <= i < |p| && p[i] == t;
      var d := BadSuccessor(r, tags, pending, p, i);
      assert d !in c;
    }
    assert Closed(r, pending, c);
  }

  /**
   With no downgrader to apply, the loop gives up exactly when following dependencies from
   some pending tag meets a tag that is neither present nor pending, or comes back around.
   */
  lemma {:induction false} AbortIffMissingOrCycle(r: Registry, tags: set<Tag>)
    requires Valid(r) && r.untagSet !! tags
    ensures Run(r, tags, Pending(r, tags)).Aborted?
            <==> exists p :: Walk(r, Pending(r, tags), p)
                             && (EndsMissing(r, tags, Pending(r, tags), p) || EndsInCycle(r, Pending(r, tags), p))
  {
    var pending := Pending(r, tags);
    var o := Run(r, tags, pending);
    AbortIffOutsideClosure(r, tags);
    if o.Aborted? {
      EachOnce(r, tags, pending);
      AbortIsClosed(r, tags, pending);
      StuckHaveReasons(r, tags, pending);
      var t :| t in o.stuck;
      var q := FindReason(r, tags, pending, o.stuck, [t]);
    } else if p :| Walk(r, pending, p) && (EndsMissing(r, tags, pending, p) || EndsInCycle(r, pending, p)) {
      BadWalkOutside(r, tags, pending, p);
    }
  }

  /** What a run could not apply waits for something it could not apply or that does not exist. */
  lemma {:induction false} StuckHaveReasons(r: Registry, tags: set<Tag>, pending: set<Tag>)
    requires pending <= r.upgrades && pending <= r.deps.Keys
    requires Run(r, tags, pending).Aborted?
    ensures var o := Run(r, tags, pending);
            forall t :: t in o.stuck ==> Waits(r, tags, pending, o.stuck, t)
    decreases |pending|
  {
    var o, ready := Run(r, tags, pending), ReadyIn(r, tags, pending);
    RoundsCover(r, tags, pending);
    if ready != {} {
      RemoveShrinks(pending, ready);
      var rest := Run(r, After(r, tags, ready), pending - ready);
      StuckHaveReasons(r, After(r, tags, ready), pending - ready);
      forall t | t in o.stuck ensures Waits(r, tags, pending, o.stuck, t) {
        assert Waits(r, After(r, tags, ready), pending - ready, rest.stuck, t);
        var d :| d in r.deps[t] && (d in rest.stuck || (d !in After(r, tags, ready) && d !in pending - ready));
        assert d in o.stuck || (d !in tags && d !in pending);
      }
    } else {
      forall t | t in o.stuck ensures Waits(r, tags, pending, o.stuck, t) {
        assert t !in ready;
        var d :| d in r.deps[t] && d !in tags;
        assert d in o.stuck || (d !in tags && d !in pending);
      }
    }
  }
}
