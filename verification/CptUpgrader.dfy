/**
 Loading the checkpoint upgraders and processing one checkpoint file
 (util/cpt_upgrader.py, class `Upgrader` and `process_file`).
 */
module CptUpgrader {
  import opened CptScheduler
  import opened Results

  /** The top-level variables of an upgrader script. */
  datatype Script = Script(tag: Tag, depends: seq<Tag>, fwdDepends: seq<Tag>,
                           upgrades: bool, legacyVersion: Option<int>)

  function Members(s: seq<Tag>): set<Tag> {
    set t | t in s
  }

  // ---------------------------------------------------------------- dependency edges

  /** A script once the legacy loop has passed version `end`. */
  function Relink(s: Script, legacy: map<int, Tag>, end: int): Script {
    if s.legacyVersion.Some? && 3 <= s.legacyVersion.value < end
       && s.legacyVersion.value in legacy && legacy[s.legacyVersion.value] == s.tag
       && s.legacyVersion.value - 1 in legacy
    then s.(depends := [legacy[s.legacyVersion.value - 1]])
    else s
  }

  ghost function RelinkAll(scripts: map<Tag, Script>, legacy: map<int, Tag>, end: int): map<Tag, Script> {
    map t | t in scripts :: Relink(scripts[t], legacy, end)
  }

  /** Every legacy version names a loaded script that declares that version. */
  ghost predicate LegacyNames(scripts: map<Tag, Script>, legacy: map<int, Tag>) {
    forall v :: v in legacy ==> legacy[v] in scripts && scripts[legacy[v]].legacyVersion == Some(v)
  }

  ghost predicate OwnTags(scripts: map<Tag, Script>) {
    forall t :: t in scripts ==> scripts[t].tag == t
  }

  ghost predicate Known(scripts: map<Tag, Script>, tagSet: set<Tag>, untagSet: set<Tag>, legacy: map<int, Tag>) {
    && scripts.Keys == tagSet + untagSet && tagSet !! untagSet
    && OwnTags(scripts) && LegacyNames(scripts, legacy)
    && (forall t :: t in scripts ==> (scripts[t].upgrades <==> t in tagSet))
  }

  /** The same scripts with other dependency lists. */
  ghost predicate SameShape(a: map<Tag, Script>, b: map<Tag, Script>) {
    a.Keys == b.Keys && forall t :: t in a ==> b[t] == a[t].(depends := b[t].depends)
  }

  lemma {:induction false} SameShapeKnown(a: map<Tag, Script>, b: map<Tag, Script>, tagSet: set<Tag>,
                                          untagSet: set<Tag>, legacy: map<int, Tag>)
    requires SameShape(a, b) && Known(a, tagSet, untagSet, legacy)
    ensures Known(b, tagSet, untagSet, legacy)
  {
  }

  lemma {:induction false} RelinkKeepsShape(scripts: map<Tag, Script>, legacy: map<int, Tag>, end: int)
    ensures SameShape(scripts, RelinkAll(scripts, legacy, end))
  {
  }

  /** The legacy versions from `i` on. */
  ghost function From(legacy: map<int, Tag>, i: int): set<int> {
    set v | v in legacy && v >= i
  }

  lemma {:induction false} FromShrinks(legacy: map<int, Tag>, i: int)
    requires i in legacy
    ensures |From(legacy, i + 1)| < |From(legacy, i)|
  {
    assert From(legacy, i + 1) == From(legacy, i) - {i};
  }

  lemma {:induction false} RelinkStep(scripts: map<Tag, Script>, legacy: map<int, Tag>, i: int)
    requires LegacyNames(scripts, legacy) && OwnTags(scripts)
    requires i >= 3 && i in legacy && i - 1 in legacy
    ensures var now := RelinkAll(scripts, legacy, i);
            RelinkAll(scripts, legacy, i + 1) == now[legacy[i] := now[legacy[i]].(depends := [legacy[i - 1]])]
  {
  }

  lemma {:induction false} RelinkFromTheStart(scripts: map<Tag, Script>, legacy: map<int, Tag>)
    ensures RelinkAll(scripts, legacy, 3) == scripts
  {
  }

  /** `after` is `before` with `tag` appended to the dependencies of the scripts in `fwd`. */
  ghost predicate Appended(before: map<Tag, Script>, after: map<Tag, Script>, tag: Tag, fwd: seq<Tag>) {
    && SameShape(before, after)
    && forall t :: t in before ==>
         Members(after[t].depends) == Members(before[t].depends) + (if t in fwd then {tag} else {})
  }

  lemma {:induction false} AppendedNone(scripts: map<Tag, Script>, tag: Tag)
    ensures Appended(scripts, scripts, tag, [])
  {
  }

  lemma {:induction false} AppendedOne(before: map<Tag, Script>, now: map<Tag, Script>, tag: Tag,
                                       fwd: seq<Tag>, fd: Tag)
    requires Appended(before, now, tag, fwd) && fd in now
    ensures Appended(before, now[fd := now[fd].(depends := now[fd].depends + [tag])], tag, fwd + [fd])
  {
    assert Members(now[fd].depends + [tag]) == Members(now[fd].depends) + {tag};
  }

  /** The scripts among `done` that name `t` as forward dependent. */
  ghost function Namers(scripts: map<Tag, Script>, done: set<Tag>, t: Tag): set<Tag> {
    set u | u in done && u in scripts && t in scripts[u].fwdDepends
  }

  lemma {:induction false} NamersGrow(scripts: map<Tag, Script>, done: set<Tag>, tag: Tag, t: Tag)
    requires tag in scripts
    ensures Namers(scripts, done + {tag}, t)
         == Namers(scripts, done, t) + (if t in scripts[tag].fwdDepends then {tag} else {})
  {
  }

  /** The forward edges of the scripts in `done` have been added. */
  ghost predicate Linked(scripts: map<Tag, Script>, now: map<Tag, Script>, done: set<Tag>) {
    && SameShape(scripts, now)
    && forall t :: t in scripts ==>
         Members(now[t].depends) == Members(scripts[t].depends) + Namers(scripts, done, t)
  }

  lemma {:induction false} LinkedNone(scripts: map<Tag, Script>)
    ensures Linked(scripts, scripts, {})
  {
    assert forall t :: Namers(scripts, {}, t) == {};
  }

  lemma {:induction false} LinkedStep(scripts: map<Tag, Script>, before: map<Tag, Script>, after: map<Tag,
                                      Script>, done: set<Tag>, tag: Tag)
    requires tag in scripts
    requires Linked(scripts, before, done) && Appended(before, after, tag, scripts[tag].fwdDepends)
    ensures Linked(scripts, after, done + {tag})
  {
    forall t | t in scripts
      ensures Members(after[t].depends) == Members(scripts[t].depends) + Namers(scripts, done + {tag}, t)
    {
      NamersGrow(scripts, done, tag, t);
    }
  }

  /** The dependencies and forward dependents that `t` declares all exist. */
  ghost predicate Sound(scripts: map<Tag, Script>, t: Tag) {
    t in scripts && Members(scripts[t].depends) + Members(scripts[t].fwdDepends) <= scripts.Keys
  }

  ghost predicate AllSound(scripts: map<Tag, Script>, ts: set<Tag>) {
    forall t :: t in ts ==> Sound(scripts, t)
  }

  /** What was appended exists, so auditing the grown list is auditing the declared one. */
  lemma {:induction false} AuditIsEnough(scripts: map<Tag, Script>, now: map<Tag, Script>, done: set<Tag>, tag: Tag)
    requires tag in scripts && Linked(scripts, now, done)
    ensures (forall d :: d in now[tag].depends ==> d in now) <==> Members(scripts[tag].depends) <= scripts.Keys
  {
    assert Members(now[tag].depends) == Members(scripts[tag].depends) + Namers(scripts, done, tag);
    forall d ensures d in now[tag].depends <==> d in Members(now[tag].depends) {}
  }

  // ---------------------------------------------------------------- adding the edges

  /**
   The legacy loop: each version on the unbroken chain from 3 comes to depend on its
   predecessor and nothing else. It fails exactly when the chain has no version 2 to start from.
   */
  method LinkLegacy(scripts: map<Tag, Script>, legacy: map<int, Tag>)
    returns (ok: bool, now: map<Tag, Script>, end: int)
    requires LegacyNames(scripts, legacy) && OwnTags(scripts)
    ensures ok <==> (3 in legacy ==> 2 in legacy)
    ensures ok ==> 3 <= end && end !in legacy && (forall v :: 3 <= v < end ==> v in legacy)
    ensures now == RelinkAll(scripts, legacy, end)
  {
    ok, now, end := true, scripts, 3;
    RelinkFromTheStart(scripts, legacy);
    while end in legacy
      invariant end >= 3 && (forall v :: 3 <= v < end ==> v in legacy)
      invariant end > 3 ==> 2 in legacy
      invariant now == RelinkAll(scripts, legacy, end)
      decreases |From(legacy, end)|
    {
      if end - 1 !in legacy {
        return false, now, end;
      }
      RelinkStep(scripts, legacy, end);
      FromShrinks(legacy, end);
      now := now[legacy[end] := now[legacy[end]].(depends := [legacy[end - 1]])];
      end := end + 1;
    }
  }

  /** The forward edges of one script: append its tag to the scripts it names. */
  method LinkOne(scripts: map<Tag, Script>, tag: Tag) returns (ok: bool, now: map<Tag, Script>)
    requires tag in scripts
    ensures ok <==> Members(scripts[tag].fwdDepends) <= scripts.Keys
    ensures ok ==> Appended(scripts, now, tag, scripts[tag].fwdDepends)
  {
    var fwd := scripts[tag].fwdDepends;
    AppendedNone(scripts, tag);
    now := scripts;
    for i := 0 to |fwd|
      invariant forall j :: 0 <= j < i ==> fwd[j] in scripts
      invariant Appended(scripts, now, tag, fwd[..i])
    {
      if fwd[i] !in now {
        assert fwd[i] in Members(fwd);
        return false, now;
      }
      AppendedOne(scripts, now, tag, fwd[..i], fwd[i]);
      assert fwd[..i + 1] == fwd[..i] + [fwd[i]];
      now := now[fwd[i] := now[fwd[i]].(depends := now[fwd[i]].depends + [tag])];
    }
    assert fwd[..|fwd|] == fwd;
    return true, now;
  }

  /** One iteration of the linking loop: the forward edges of `tag`, then the audit of its dependencies. */
  method LinkAndAudit(now: map<Tag, Script>, tag: Tag, ghost scripts: map<Tag, Script>, ghost done: set<Tag>)
    returns (ok: bool, next: map<Tag, Script>)
    requires tag in scripts && Linked(scripts, now, done)
    ensures ok <==> Sound(scripts, tag)
    ensures ok ==> Linked(scripts, next, done + {tag})
  {
    ok, next := LinkOne(now, tag);
    if ok {
      LinkedStep(scripts, now, next, done, tag);
      AuditIsEnough(scripts, next, done + {tag}, tag);
      ok := forall dep :: dep in next[tag].depends ==> dep in next;
    }
  }

  /**
   Resolve forward dependencies and audit the rest, in any order of the scripts: it
   succeeds exactly when nothing dangles, and then every script depends on what it named
   and on every script that named it.
   */
  method LinkForward(scripts: map<Tag, Script>) returns (ok: bool, now: map<Tag, Script>)
    ensures ok <==> AllSound(scripts, scripts.Keys)
    ensures ok ==> Linked(scripts, now, scripts.Keys)
  {
    var left := scripts.Keys;
    ghost var done: set<Tag> := {};
    now := scripts;
    LinkedNone(scripts);
    while left != {}
      invariant forall t :: t in scripts <==> t in left || t in done
      invariant Linked(scripts, now, done) && AllSound(scripts, done)
      decreases left
    {
      var tag :| tag in left;
      ok, now := LinkAndAudit(now, tag, scripts, done);
      if !ok {
        return;
      }
      left, done := left - {tag}, done + {tag};
    }
    assert done == scripts.Keys;
    ok := true;
  }

  // ---------------------------------------------------------------- loading

  /** The class-level dictionaries and sets. Tags are unique, so a tag stands for its object. */
  class Upgraders {
    var byTag: map<Tag, Script>
    var tagSet: set<Tag>
    var untagSet: set<Tag>
    var legacy: map<int, Tag>

    constructor ()
      ensures Valid() && byTag == map[] && legacy == map[]
    {
      byTag, tagSet, untagSet, legacy := map[], {}, {}, map[];
    }

    ghost predicate Valid()
      reads this
    {
      Known(byTag, tagSet, untagSet, legacy)
    }

    method Load(s: Script)
      requires Valid() && s.tag !in byTag
      modifies this
      ensures Valid()
      ensures byTag == old(byTag)[s.tag := s]
      ensures tagSet == (if s.upgrades then old(tagSet) + {s.tag} else old(tagSet))
      ensures untagSet == (if s.upgrades then old(untagSet) else old(untagSet) + {s.tag})
      ensures legacy == if s.legacyVersion == None then old(legacy) else old(legacy)[s.legacyVersion.value := s.tag]
    {
      if s.upgrades {
        tagSet := tagSet + {s.tag};
      } else {
        untagSet := untagSet + {s.tag};
      }
      if s.legacyVersion != None {
        legacy := legacy[s.legacyVersion.value := s.tag];
      }
      byTag := byTag[s.tag := s];
    }

    /**
     The second half of `load_all`, once all scripts are loaded. It succeeds exactly when
     the legacy chain is anchored and nothing dangles, and then every dependency is a known tag.
     */
    method Link() returns (ok: bool, end: int)
      requires Valid()
      modifies this`byTag
      ensures Valid()
      ensures (3 in legacy ==> 2 in legacy) ==> 3 <= end && end !in legacy && (forall v :: 3 <= v < end ==> v in legacy)
      ensures ok <==> (3 in legacy ==> 2 in legacy) && AllSound(RelinkAll(old(byTag), legacy, end), old(byTag).Keys)
      ensures ok ==> Linked(RelinkAll(old(byTag), legacy, end), byTag, byTag.Keys)
      ensures ok ==> Audited(ToRegistry(byTag, tagSet, untagSet))
    {
      var scripts;
      ok, scripts, end := LinkLegacy(byTag, legacy);
      if ok {
        RelinkKeepsShape(byTag, legacy, end);
        var now;
        ok, now := LinkForward(scripts);
        if ok {
          SameShapeKnown(byTag, now, tagSet, untagSet, legacy);
          LinkedIsSound(scripts, now);
          byTag := now;
        }
      }
    }
  }

  lemma {:induction false} LinkedIsSound(scripts: map<Tag, Script>, now: map<Tag, Script>)
    requires Linked(scripts, now, scripts.Keys)
    requires AllSound(scripts, scripts.Keys)
    ensures forall t :: t in now ==> Members(now[t].depends) <= now.Keys
  {
  }

  // ---------------------------------------------------------------- loaded registries

  /** What the migration loop sees of the loaded scripts. */
  function ToRegistry(scripts: map<Tag, Script>, tagSet: set<Tag>, untagSet: set<Tag>): Registry {
    Registry(tagSet, untagSet, map t | t in scripts :: Members(scripts[t].depends), tagSet)
  }

  lemma {:induction false} RegistryIsValid(scripts: map<Tag, Script>, tagSet: set<Tag>, untagSet: set<Tag>,
                                           legacy: map<int, Tag>)
    requires Known(scripts, tagSet, untagSet, legacy)
    ensures CptScheduler.Valid(ToRegistry(scripts, tagSet, untagSet))
  {
  }

  /** Every dependency is itself a known tag. */
  ghost predicate Audited(r: Registry) {
    && r.deps.Keys == r.tagSet + r.untagSet
    && forall t :: t in r.deps ==> r.deps[t] <= r.deps.Keys
  }

  /**
   After a successful audit only two reasons to give up remain: a cycle, or a dependency on
   a tag that has a downgrader and is not in the checkpoint.
   */
  lemma {:induction false} AuditedAbort(r: Registry, tags: set<Tag>)
    requires CptScheduler.Valid(r) && Audited(r) && r.untagSet !! tags
    ensures Run(r, tags, Pending(r, tags)).Aborted?
            <==> exists p :: Walk(r, Pending(r, tags), p)
                             && (|| EndsInCycle(r, Pending(r, tags), p)
                                 || exists d :: d in r.deps[p[|p| - 1]] && d in r.untagSet)
  {
    var pending := Pending(r, tags);
    AbortIffMissingOrCycle(r, tags);
    forall p | Walk(r, pending, p)
      ensures EndsMissing(r, tags, pending, p) <==> exists d :: d in r.deps[p[|p| - 1]] && d in r.untagSet
    {
      var last := p[|p| - 1];
      if d :| d in r.deps[last] && d !in tags && d !in pending {
        assert d in r.untagSet;
      }
      if d :| d in r.deps[last] && d in r.untagSet {
        assert d !in tags && d !in pending;
      }
    }
  }

  // ---------------------------------------------------------------- one checkpoint file

  datatype Section = Absent | Section(versionTags: Option<set<Tag>>)

  /** The version information of a checkpoint; `rest` is everything else. */
  datatype Checkpoint<P> = Checkpoint(version: Option<int>, globals: Section, rootGlobals: Section, rest: P)

  predicate HasTags(s: Section) {
    s.Section? && s.versionTags.Some?
  }

  /** The tags a run starts from, or None where the script ends with an error. */
  function StartTags<P>(c: Checkpoint<P>, legacy: map<int, Tag>): Option<set<Tag>> {
    if c.version.Some? then
      if forall i :: 2 <= i <= c.version.value ==> i in legacy
      then Some(set i | 2 <= i <= c.version.value :: legacy[i])
      else None
    else if HasTags(c.globals) then Some(c.globals.versionTags.value)
    else if HasTags(c.rootGlobals) then Some(c.rootGlobals.versionTags.value)
    else None
  }

  datatype FileOutcome<P> = Unchanged | Written(cpt: Checkpoint<P>) | Failed

  /** What the scripts do to a checkpoint, by their tags. */
  type Bodies<!P> = (Tag, Checkpoint<P>) -> Checkpoint<P>

  /** The script bodies run one after the other on the checkpoint. */
  function Replay<P>(apply: Bodies<P>, log: seq<seq<Tag>>, c: Checkpoint<P>): Checkpoint<P> {
    if log == [] then c else Replay(apply, log[1..], ReplayRound(apply, log[0], c))
  }

  function ReplayRound<P>(apply: Bodies<P>, round: seq<Tag>, c: Checkpoint<P>): Checkpoint<P> {
    if round == [] then c else ReplayRound(apply, round[1..], apply(round[0], c))
  }

  /** What a finished run on a changed checkpoint writes, if there is a section to write the tags to. */
  function Result<P>(r: Registry, legacy: map<int, Tag>, apply: Bodies<P>, log: seq<seq<Tag>>,
                     c: Checkpoint<P>): Checkpoint<P>
    requires StartTags(c, legacy).Some?
  {
    var tags := (StartTags(c, legacy).value - r.untagSet) + r.tagSet;
    Replay(apply, log, c.(version := None)).(rootGlobals := Section(Some(tags)))
  }

  /** The body at one place of the log acts on what all the earlier ones made, and before all the later ones. */
  lemma {:induction false} BodySeesEarlier<P>(apply: Bodies<P>, log: seq<seq<Tag>>, c: Checkpoint<P>, i: nat, x: nat)
    requires i < |log| && x < |log[i]|
    ensures var seen := ReplayRound(apply, log[i][..x], Replay(apply, log[..i], c));
            Replay(apply, log, c)
            == Replay(apply, log[i + 1..], ReplayRound(apply, log[i][x + 1..], apply(log[i][x], seen)))
  {
    if i == 0 {
      assert log[..0] == [];
      RoundSeesEarlier(apply, log[0], c, x);
    } else {
      BodySeesEarlier(apply, log[1..], ReplayRound(apply, log[0], c), i - 1, x);
      assert log[1..][..i - 1] == log[..i][1..] && log[1..][i..] == log[i + 1..];
      assert log[..i][0] == log[0];
    }
  }

  lemma {:induction false} RoundSeesEarlier<P>(apply: Bodies<P>, round: seq<Tag>, c: Checkpoint<P>, x: nat)
    requires x < |round|
    ensures ReplayRound(apply, round, c)
            == ReplayRound(apply, round[x + 1..], apply(round[x], ReplayRound(apply, round[..x], c)))
  {
    if x == 0 {
      assert round[..0] == [];
    } else {
      RoundSeesEarlier(apply, round[1..], apply(round[0], c), x - 1);
      assert round[1..][..x - 1] == round[..x][1..] && round[1..][x..] == round[x + 1..];
      assert round[..x][0] == round[0];
    }
  }

  /** The version numbers 2 to `v` stand for tags, and `t` is one of them. */
  ghost predicate ReachedBy(legacy: map<int, Tag>, v: int, t: Tag) {
    exists i :: 2 <= i <= v && i in legacy && legacy[i] == t
  }

  /**
   What a run that is written does about one tag that the checkpoint has, or has not: the update
   is applied once exactly if it is missing or is to be undone, and then the tag is there or gone.
   */
  ghost predicate BroughtUp(r: Registry, log: seq<seq<Tag>>, w: Section, t: Tag, has: bool) {
    && HasTags(w)
    && (t in w.versionTags.value <==> t in r.tagSet || (has && t !in r.untagSet))
    && Occurrences(log, t) == if (has && t in r.untagSet) || (!has && t in r.tagSet) then 1 else 0
  }

  /** `apply` stands for the script bodies. */
  method ProcessFile<P>(r: Registry, legacy: map<int, Tag>, apply: Bodies<P>, c: Checkpoint<P>)
    returns (res: FileOutcome<P>, log: seq<seq<Tag>>)
    requires CptScheduler.Valid(r)
    ensures StartTags(c, legacy) == None ==> res == Failed
    ensures StartTags(c, legacy).Some? ==>
              var tags := StartTags(c, legacy).value;
              var o := Run(r, tags, Pending(r, tags));
              var c' := Replay(apply, log, c.(version := None));
              && Logs(log, o.rounds)
              && (o.Aborted? ==> res == Failed)
              && (o.Done? && c.version == None && Pending(r, tags) == {} ==> res == Unchanged)
              && (o.Done? && !(c.version == None && Pending(r, tags) == {}) ==>
                    res == if c'.rootGlobals == Absent then Failed
                           else Written(Result(r, legacy, apply, log, c)))
    ensures c.version.Some? && (exists i :: 2 <= i <= c.version.value && i !in legacy) ==> res == Failed && log == []
    ensures c.version.Some? ==>
              forall i :: 2 <= i <= c.version.value && i in legacy && legacy[i] !in r.untagSet ==>
                Occurrences(log, legacy[i]) == 0
    ensures res.Written? && c.version.Some? ==>
              forall t :: BroughtUp(r, log, res.cpt.rootGlobals, t, ReachedBy(legacy, c.version.value, t))
    ensures res.Written? && c.version.None? && HasTags(c.globals) ==>
              forall t :: BroughtUp(r, log, res.cpt.rootGlobals, t, t in c.globals.versionTags.value)
    ensures res.Written? && c.version.None? && !HasTags(c.globals) ==>
              && HasTags(c.rootGlobals)
              && forall t :: BroughtUp(r, log, res.cpt.rootGlobals, t, t in c.rootGlobals.versionTags.value)
  {
    var start := StartTags(c, legacy);
    if start == None {
      return Failed, [];
    }
    var outcome;
    outcome, log := Migrate(r, start.value);
    forall t ensures Occurrences(log, t) <= (if t in Pending(r, start.value) then 1 else 0)
             ensures outcome.Done? ==> Occurrences(log, t) == if t in Pending(r, start.value) then 1 else 0
    {
      RunLogsOnce(r, start.value, log, t);
    }
    if outcome.Aborted? {
      return Failed, log;
    }
    FinalTags(r, start.value);
    if c.version == None && Pending(r, start.value) == {} {
      return Unchanged, log;
    }
    var c' := Replay(apply, log, c.(version := None));
    if c'.rootGlobals == Absent {
      return Failed, log;
    }
    return Written(c'.(rootGlobals := Section(Some(outcome.tags)))), log;
  }

  /** A written checkpoint whose tags live only in root.globals needs no further update. */
  lemma {:induction false} SecondRunIdle<P>(r: Registry, legacy: map<int, Tag>, tags: set<Tag>, c: Checkpoint<P>)
    requires CptScheduler.Valid(r)
    requires c.version == None && !HasTags(c.globals)
    requires c.rootGlobals == Section(Some((tags - r.untagSet) + r.tagSet))
    ensures StartTags(c, legacy).Some? && Pending(r, StartTags(c, legacy).value) == {}
  {
  }

  /**
   Script bodies that keep the Globals section with its tag list, apart from those of `removes`,
   which remove it, as util/cpt_upgraders/globals-to-root.py does.
   */
  ghost predicate KeepsOrRemoves<P(!new)>(apply: Bodies<P>, removes: set<Tag>) {
    forall t, c ::
      && apply(t, c).version == c.version
      && apply(t, c).globals == if t in removes then Absent else c.globals
  }

  ghost function Applied(log: seq<seq<Tag>>): set<Tag> {
    if log == [] then {} else (set t | t in log[0]) + Applied(log[1..])
  }

  lemma {:induction false} AppliedIsUnion(log: seq<seq<Tag>>, rounds: seq<set<Tag>>)
    requires Logs(log, rounds)
    ensures Applied(log) == Union(rounds)
  {
    if log != [] {
      assert Enumerates(log[0], rounds[0]);
      assert (set t | t in log[0]) == rounds[0];
      forall i | 0 <= i < |log| - 1 ensures Enumerates(log[1..][i], rounds[1..][i]) {
        assert Enumerates(log[i + 1], rounds[i + 1]);
      }
      AppliedIsUnion(log[1..], rounds[1..]);
    }
  }

  lemma {:induction false} ReplayRoundGlobals<P(!new)>(apply: Bodies<P>, removes: set<Tag>, round: seq<Tag>,
                                                       c: Checkpoint<P>)
    requires KeepsOrRemoves(apply, removes)
    ensures var c' := ReplayRound(apply, round, c);
            && c'.version == c.version
            && c'.globals == if (set t | t in round) !! removes then c.globals else Absent
  {
    if round != [] {
      ReplayRoundGlobals(apply, removes, round[1..], apply(round[0], c));
      assert (set t | t in round) == {round[0]} + set t | t in round[1..];
    }
  }

  lemma {:induction false} ReplayGlobals<P(!new)>(apply: Bodies<P>, removes: set<Tag>, log: seq<seq<Tag>>,
                                                  c: Checkpoint<P>)
    requires KeepsOrRemoves(apply, removes)
    ensures var c' := Replay(apply, log, c);
            && c'.version == c.version
            && c'.globals == if Applied(log) !! removes then c.globals else Absent
  {
    if log != [] {
      ReplayRoundGlobals(apply, removes, log[0], c);
      ReplayGlobals(apply, removes, log[1..], ReplayRound(apply, log[0], c));
    }
  }

  /** A second run has nothing to do. */
  ghost predicate Settled<P>(r: Registry, legacy: map<int, Tag>, w: Checkpoint<P>) {
    StartTags(w, legacy).Some? && Pending(r, StartTags(w, legacy).value) == {}
  }

  /**
   Exactly when the result of a run is settled. A tag list in the deprecated Globals section is
   read in preference to the list just written, so a second run repeats its updates unless
   there is no such list, or it needs nothing, or one of the updates removed the section.
   */
  lemma {:induction false} SettledIff<P(!new)>(r: Registry, legacy: map<int, Tag>, apply: Bodies<P>, removes: set<Tag>,
                                               log: seq<seq<Tag>>, c: Checkpoint<P>)
    requires CptScheduler.Valid(r) && KeepsOrRemoves(apply, removes)
    requires StartTags(c, legacy).Some?
    requires var tags := StartTags(c, legacy).value;
             Run(r, tags, Pending(r, tags)).Done? && Logs(log, Run(r, tags, Pending(r, tags)).rounds)
    ensures Settled(r, legacy, Result(r, legacy, apply, log, c))
       <==> || !HasTags(c.globals)
            || Pending(r, c.globals.versionTags.value) == {}
            || !(Pending(r, StartTags(c, legacy).value) !! removes)
  {
    var tags := StartTags(c, legacy).value;
    ReplayGlobals(apply, removes, log, c.(version := None));
    AppliedIsUnion(log, Run(r, tags, Pending(r, tags)).rounds);
    EachOnce(r, tags, Pending(r, tags));
    assert Pending(r, (tags - r.untagSet) + r.tagSet) == {};
  }

  // ---------------------------------------------------------------- a stale list, kept and removed

  /** A registry with one update, and a checkpoint that lacks it according to its Globals section. */
  function OneUpdate(tag: Tag): Registry {
    Registry({tag}, {}, map[tag := {}], {tag})
  }

  function Stale(): Checkpoint<int> {
    Checkpoint(None, Section(Some({})), Section(None), 0)
  }

  lemma {:induction false} OneUpdateRun(tag: Tag)
    ensures CptScheduler.Valid(OneUpdate(tag)) && Pending(OneUpdate(tag), {}) == {tag}
    ensures Run(OneUpdate(tag), {}, {tag}) == Done({tag}, [{tag}])
    ensures Logs([[tag]], [{tag}])
  {
    var r := OneUpdate(tag);
    assert Pending(r, {}) == {tag} && ReadyIn(r, {}, {tag}) == {tag};
    assert {tag} - {tag} == {} && After(r, {}, {tag}) == {tag};
    RunStep(r, {}, {tag});
  }

  /** A body that leaves the section alone: the update is applied, and would be applied again. */
  lemma {:induction false} StaleListRepeats()
    ensures !Settled(OneUpdate("x"), map[], Result(OneUpdate("x"), map[], (t, c) => c, [["x"]], Stale()))
  {
    OneUpdateRun("x");
    SettledIff(OneUpdate("x"), map[], (t: Tag, c: Checkpoint<int>) => c, {}, [["x"]], Stale());
  }

  /** The body of globals-to-root where there is no root.globals section yet: Globals becomes it. */
  function RenameGlobals(t: Tag, c: Checkpoint<int>): Checkpoint<int> {
    if t == "globals-to-root" then c.(globals := Absent, rootGlobals := c.globals) else c
  }

  /** A checkpoint from before root.globals. */
  function Old(): Checkpoint<int> {
    Checkpoint(None, Section(Some({})), Absent, 0)
  }

  /** With it pending, such a checkpoint is written and is settled after one run. */
  lemma {:induction false} RenamedListSettles()
    ensures var r := OneUpdate("globals-to-root");
            && Replay(RenameGlobals, [["globals-to-root"]], Old()).rootGlobals != Absent
            && Settled(r, map[], Result(r, map[], RenameGlobals, [["globals-to-root"]], Old()))
  {
    OneUpdateRun("globals-to-root");
    assert Old().(version := None) == Old();
    assert [["globals-to-root"]][1..] == [] && ["globals-to-root"][1..] == [];
    SettledIff(OneUpdate("globals-to-root"), map[], RenameGlobals, {"globals-to-root"}, [["globals-to-root"]], Old());
  }
}
