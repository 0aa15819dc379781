/**
 The memory-test configuration (configs/example/memtest.py): a recursive builder of a tree of
 caches and testers, against the closed form that counts the testers beforehand.
 */
module MemTest {
  import opened Results

  // ---------------------------------------------------------------- counting testers

  const BLOCK_SIZE := 64

  /** The product of the fan-outs from depth `a` to depth `b`, memory side first. */
  function Fan(c: seq<int>, a: nat, b: nat): int
    requires b <= |c|
    decreases b
  {
    if a >= b then 1 else Fan(c, a, b - 1) * c[b - 1]
  }

  /** The testers of the first `n` depths: those of one subsystem times the number of subsystems. */
  function Counted(c: seq<int>, t: seq<int>, n: nat): int
    requires n <= |t| && n <= |c| + 1
  {
    if n == 0 then 0 else Counted(c, t, n - 1) + t[n - 1] * Fan(c, 0, n - 1)
  }

  /** `m` times `x`, by adding: what a loop that runs `m` times adds up. */
  function Times(m: int, x: int): int
    decreases m
  {
    if m <= 0 then 0 else Times(m - 1, x) + x
  }

  lemma {:induction false} TimesIsProduct(m: nat, x: int)
    ensures Times(m, x) == m * x
  {
    if m > 0 {
      TimesIsProduct(m - 1, x);
    }
  }

  /** The testers in one subtree rooted at depth `d`. */
  function Subtree(c: seq<int>, t: seq<int>, d: nat): int
    requires |t| == |c| + 1 && d <= |c|
    decreases |c| - d
  {
    if d == |c| then t[d] else t[d] + Times(c[d], Subtree(c, t, d + 1))
  }

  /** `numtesters`, a list of multipliers zipped with the testers. */
  method NumTesters(c: seq<int>, t: seq<int>) returns (total: int)
    ensures |t| <= |c| + 1 ==> total == Counted(c, t, |t|)
    ensures |t| > |c| + 1 ==> total == Counted(c, t, |c| + 1)
  {
    var multiplier := [1];
    for i := 0 to |c|
      invariant |multiplier| == i + 1
      invariant forall k :: 0 <= k <= i ==> multiplier[k] == Fan(c, 0, k)
    {
      multiplier := multiplier + [multiplier[i] * c[i]];
    }
    total := 0;
    var n := if |t| < |multiplier| then |t| else |multiplier|;
    for i := 0 to n
      invariant total == Counted(c, t, i)
    {
      total := total + t[i] * multiplier[i];
    }
  }

  predicate Positive(c: seq<int>) {
    forall i :: 0 <= i < |c| ==> c[i] >= 1
  }

  lemma {:induction false} SplitTester(f: int, c: int, t: int, s: int)
    ensures f * (t + c * s) == t * f + (f * c) * s
  {
    assert f * (c * s) == (f * c) * s;
  }

  lemma {:induction false} CountedFrom(c: seq<int>, t: seq<int>, d: nat)
    requires |t| == |c| + 1 && d <= |c| && Positive(c)
    ensures Counted(c, t, |t|) == Counted(c, t, d) + Fan(c, 0, d) * Subtree(c, t, d)
    decreases |c| - d
  {
    if d < |c| {
      CountedFrom(c, t, d + 1);
      TimesIsProduct(c[d], Subtree(c, t, d + 1));
      SplitTester(Fan(c, 0, d), c[d], t[d], Subtree(c, t, d + 1));
    }
  }

  /** The closed form counts the testers of the whole tree. */
  lemma {:induction false} CountedIsTree(c: seq<int>, t: seq<int>)
    requires |t| == |c| + 1 && Positive(c)
    ensures Counted(c, t, |t|) == Subtree(c, t, 0)
  {
    CountedFrom(c, t, 0);
  }

  // ---------------------------------------------------------------- valid specifications

  predicate ValidSpec(c: seq<int>, t: seq<int>) {
    && |c| >= 1
    && |t| == |c| + 1
    && t[|t| - 1] != 0
    && (forall i :: 0 <= i < |t| ==> t[i] >= 0)
    && Positive(c)
    && Counted(c, t, |t|) <= BLOCK_SIZE
  }

  /** The checks on the command line. */
  method CheckSpec(c: seq<int>, t: seq<int>) returns (ok: bool)
    ensures ok <==> ValidSpec(c, t)
  {
    if |c| < 1 || |c| != |t| - 1 || t[|t| - 1] == 0 {
      return false;
    }
    for i := 0 to |t|
      invariant forall k :: 0 <= k < i ==> t[k] >= 0
    {
      if t[i] < 0 {
        return false;
      }
    }
    for i := 0 to |c|
      invariant forall k :: 0 <= k < i ==> c[k] >= 1
    {
      if c[i] < 1 {
        return false;
      }
    }
    var n := NumTesters(c, t);
    ok := n <= BLOCK_SIZE;
  }

  // ---------------------------------------------------------------- cache prototypes

  datatype Cache = Cache(size: int, latency: int, assoc: int, mshrs: int, clean: bool, inclusive: bool)

  /** The next level below a cache. */
  function Scale(prev: Cache, scale: int): Cache {
    Cache(prev.size * scale, prev.latency * 10, prev.assoc * scale, prev.mshrs * scale, !prev.clean, !prev.inclusive)
  }

  function Tens(k: nat): nat {
    if k == 0 then 1 else Tens(k - 1) * 10
  }

  /**
   The cache `k` levels below the L1: size, associativity and MSHRs are multiplied by the fan-outs
   in between, the latency by ten for each level, and the two policies alternate.
   */
  predicate LevelIs(p: Cache, l1: Cache, c: seq<int>, k: nat)
    requires k <= |c|
  {
    && p.size == l1.size * Fan(c, 0, k) && p.assoc == l1.assoc * Fan(c, 0, k) && p.mshrs == l1.mshrs * Fan(c, 0, k)
    && p.latency == l1.latency * Tens(k)
    && (p.clean <==> (l1.clean <==> k % 2 == 0)) && (p.inclusive <==> (l1.inclusive <==> k % 2 == 0))
  }

  lemma {:induction false} NextLevel(p: Cache, l1: Cache, c: seq<int>, k: nat)
    requires k < |c| && LevelIs(p, l1, c, k)
    ensures LevelIs(Scale(p, c[k]), l1, c, k + 1)
  {
    SizeStep(l1.size, Fan(c, 0, k), c[k]);
    SizeStep(l1.assoc, Fan(c, 0, k), c[k]);
    SizeStep(l1.mshrs, Fan(c, 0, k), c[k]);
    SizeStep(l1.latency, Tens(k), 10);
  }

  ghost predicate Levels(protos: seq<Cache>, l1: Cache, c: seq<int>) {
    |protos| <= |c| && forall j :: 0 <= j < |protos| ==> LevelIs(protos[j], l1, c, |protos| - 1 - j)
  }

  lemma {:induction false} OneLevelMore(protos: seq<Cache>, l1: Cache, c: seq<int>, next: Cache)
    requires 0 < |protos| < |c| && Levels(protos, l1, c) && LevelIs(next, l1, c, |protos|)
    ensures Levels([next] + protos, l1, c)
  {
    var all := [next] + protos;
    forall j | 0 <= j < |all| ensures LevelIs(all[j], l1, c, |all| - 1 - j) {
      if j > 0 {
        assert all[j] == protos[j - 1];
      }
    }
  }

  /** The prototype loop: one prototype for each level of caches, the L1 last. */
  method Prototypes(c: seq<int>, l1: Cache) returns (protos: seq<Cache>)
    requires |c| >= 1
    ensures |protos| == |c| && protos[|c| - 1] == l1
    ensures forall j :: 0 <= j < |protos| ==> LevelIs(protos[j], l1, c, |protos| - 1 - j)
  {
    protos := [l1];
    for i := 0 to |c| - 1
      invariant |protos| == i + 1 && protos[i] == l1
      invariant Levels(protos, l1, c)
    {
      NextLevel(protos[0], l1, c, i);
      OneLevelMore(protos, l1, c, Scale(protos[0], c[i]));
      protos := [Scale(protos[0], c[i])] + protos;
    }
  }

  lemma {:induction false} SizeStep(a: int, f: int, c: int)
    ensures (a * f) * c == a * (f * c)
  {
  }

  // ---------------------------------------------------------------- the tree

  /** A subsystem: its testers and caches, and the subsystem and slot of the cache it hangs from. */
  datatype SubSystem = SubSystem(testers: int, trees: int, proto: Option<Cache>, parent: Option<(nat, nat)>)

  /** Each subsystem is known by its level and its number on that level. */
  type Id = (nat, nat)

  /** The counters say that levels 0 to `level` hold exactly `m` complete subtrees. */
  predicate Complete(c: seq<int>, next: seq<nat>, level: nat, m: int)
    requires level <= |c| && |next| == |c| + 1
  {
    next[level] == m && (level > 0 ==> Complete(c, next, level - 1, Times(m, c[|c| - level])))
  }

  lemma {:induction false} CompleteFrame(c: seq<int>, next: seq<nat>, other: seq<nat>, level: nat, m: int)
    requires level <= |c| && |next| == |other| == |c| + 1 && next[..level + 1] == other[..level + 1]
    requires Complete(c, next, level, m)
    ensures Complete(c, other, level, m)
  {
    assert other[level] == other[..level + 1][level] == next[level];
    if level > 0 {
      assert next[..level] == next[..level + 1][..level] && other[..level] == other[..level + 1][..level];
      CompleteFrame(c, next, other, level - 1, Times(m, c[|c| - level]));
    }
  }

  /** Complete subtrees have as many subsystems on each level as the product of the fan-outs above it. */
  lemma {:induction false} CompleteCounts(c: seq<int>, next: seq<nat>, level: nat, l: nat)
    requires level <= |c| && |next| == |c| + 1 && l <= level
    requires Complete(c, next, level, Fan(c, 0, |c| - level)) && Positive(c)
    ensures next[l] == Fan(c, 0, |c| - l)
  {
    if l < level {
      TimesIsProduct(Fan(c, 0, |c| - level), c[|c| - level]);
      CompleteCounts(c, next, level - 1, l);
    }
  }

  lemma {:induction false} NoneIsComplete(c: seq<int>, next: seq<nat>, level: nat)
    requires level <= |c| && |next| == |c| + 1 && forall l :: 0 <= l < |next| ==> next[l] == 0
    ensures Complete(c, next, level, 0)
  {
    if level > 0 {
      NoneIsComplete(c, next, level - 1);
    }
  }

  /** What subsystem `i` of level `l` must be; all but the last level hang from a cache of the next one. */
  predicate RightPlace(c: seq<int>, t: seq<int>, protos: seq<Cache>, next: seq<nat>, l: nat, i: nat, s: SubSystem)
    requires |t| == |c| + 1 && |protos| == |c| && |next| == |c| + 1 && l <= |c|
  {
    var d := |c| - l;
    && s.testers == t[d]
    && (l > 0 ==> s.trees == c[d] && s.proto == Some(protos[d]))
    && HangsFrom(c, next, l, i, s.parent)
  }

  /** Subsystem `i` hangs from the cache in its own slot of its parent: the caches are filled in order. */
  predicate HangsFrom(c: seq<int>, next: seq<nat>, l: nat, i: nat, cache: Option<(nat, nat)>)
    requires |next| == |c| + 1 && l <= |c|
  {
    if l == |c| then cache == None
    else
      && cache.Some?
      && i == Times(cache.value.0, c[|c| - l - 1]) + cache.value.1
      && cache.value.1 < c[|c| - l - 1]
      && cache.value.0 < next[l + 1]
  }

  /** The builder's state: the next number of each level, the named subsystems, the testers made. */
  datatype Tree = Tree(next: seq<nat>, system: map<Id, SubSystem>, created: int)

  /** The subsystems are exactly those numbered so far, each in its place, below an existing parent. */
  ghost predicate Placed(c: seq<int>, t: seq<int>, protos: seq<Cache>, tree: Tree) {
    && |t| == |c| + 1 && |protos| == |c| && |tree.next| == |c| + 1
    && (forall l: nat, i: nat :: (l, i) in tree.system <==> l <= |c| && i < tree.next[l])
    && (forall l: nat, i: nat :: (l, i) in tree.system ==>
          RightPlace(c, t, protos, tree.next, l, i, tree.system[(l, i)]))
  }

  /** Naming the next subsystem of a level. */
  function Named(tree: Tree, level: nat, s: SubSystem): Tree
    requires level < |tree.next|
  {
    var index := tree.next[level];
    Tree(tree.next[level := index + 1], tree.system[(level, index) := s], tree.created + s.testers)
  }

  /** A subsystem that takes the next number of its level never takes a name in use. */
  lemma {:induction false} PlacedStep(c: seq<int>, t: seq<int>, protos: seq<Cache>, tree: Tree, level: nat,
                                      s: SubSystem)
    requires Placed(c, t, protos, tree) && level <= |c|
    requires RightPlace(c, t, protos, tree.next, level, tree.next[level], s)
    ensures (level, tree.next[level]) !in tree.system
    ensures Placed(c, t, protos, Named(tree, level, s))
  {
  }

  lemma {:induction false} ChildReady(c: seq<int>, next: seq<nat>, level: nat, index: nat, first: int, k: nat)
    requires |next| == |c| + 1 && 0 < level <= |c| && next[level] == index + 1 && k < c[|c| - level]
    requires first == Times(index, c[|c| - level]) && Complete(c, next, level - 1, first + k)
    ensures next[level - 1] == first + k
    ensures Complete(c, next, level - 1, next[level - 1])
    ensures HangsFrom(c, next, level - 1, next[level - 1], Some((index, k)))
  {
  }

  lemma {:induction false} Above(before: seq<nat>, after: seq<nat>, level: nat)
    requires |before| == |after| && level < |before| && after[level..] == before[level..]
    ensures after[level] == before[level] && after[level + 1..] == before[level + 1..]
  {
    assert after[level..][0] == before[level..][0];
    assert after[level..][1..] == after[level + 1..] && before[level..][1..] == before[level + 1..];
  }

  lemma {:induction false} LevelDone(c: seq<int>, next: seq<nat>, level: nat, index: nat, first: int)
    requires |next| == |c| + 1 && 0 < level <= |c| && next[level] == index + 1
    requires first == Times(index, c[|c| - level]) && Complete(c, next, level - 1, first + c[|c| - level])
    ensures Complete(c, next, level, index + 1)
  {
  }

  /** What the builder relies on. */
  predicate WellSpecified(c: seq<int>, t: seq<int>) {
    |c| >= 1 && |t| == |c| + 1 && t[|c|] >= 1 && Positive(c)
  }

  class Builder {
    const c: seq<int>
    const t: seq<int>
    const protos: seq<Cache>
    var tree: Tree

    constructor (c: seq<int>, t: seq<int>, protos: seq<Cache>)
      requires ValidSpec(c, t) && |protos| == |c|
      ensures Placed(c, t, protos, tree) && this.c == c && this.t == t && this.protos == protos
      ensures tree == Tree(seq(|c| + 1, i => 0), map[], 0)
    {
      this.c, this.t, this.protos := c, t, protos;
      tree := Tree(seq(|c| + 1, i => 0), map[], 0);
    }

    /** Naming a new subsystem: the name is never in use. */
    method AddSubSystem(level: nat, s: SubSystem)
      requires Placed(c, t, protos, tree) && level <= |c|
      requires RightPlace(c, t, protos, tree.next, level, tree.next[level], s)
      modifies this`tree
      ensures (level, old(tree).next[level]) !in old(tree).system
      ensures Placed(c, t, protos, tree) && tree == Named(old(tree), level, s)
    {
      PlacedStep(c, t, protos, tree, level, s);
      var index := tree.next[level];
      tree := tree.(next := tree.next[level := index + 1]);
      tree := tree.(system := tree.system[(level, index) := s], created := tree.created + s.testers);
    }

    /** `make_cache_level`. */
    method MakeCacheLevel(ncaches: seq<int>, prototypes: seq<Cache>, level: nat, nextCache: Option<(nat, nat)>)
      requires WellSpecified(c, t) && Placed(c, t, protos, tree) && level <= |c|
      requires ncaches == c[|c| - level..] && prototypes == protos[|c| - level..]
      requires Complete(c, tree.next, level, tree.next[level])
      requires HangsFrom(c, tree.next, level, tree.next[level], nextCache)
      modifies this`tree
      ensures Placed(c, t, protos, tree) && Complete(c, tree.next, level, old(tree).next[level] + 1)
      ensures tree.next[level + 1..] == old(tree).next[level + 1..]
      ensures tree.created == old(tree).created + Subtree(c, t, |c| - level)
      decreases level, 2
    {
      if level != 0 {
        MakeTrees(ncaches, prototypes, level, nextCache);
      } else {
        // The cache below and the first tester are there to be connected.
        assert nextCache.Some? && t[|c|] >= 1;
        AddSubSystem(level, SubSystem(t[|c|], 0, None, nextCache));
      }
    }

    /** A subsystem with tree caches. */
    method MakeTrees(ncaches: seq<int>, prototypes: seq<Cache>, level: nat, nextCache: Option<(nat, nat)>)
      requires WellSpecified(c, t) && Placed(c, t, protos, tree) && 0 < level <= |c|
      requires ncaches == c[|c| - level..] && prototypes == protos[|c| - level..]
      requires Complete(c, tree.next, level, tree.next[level])
      requires HangsFrom(c, tree.next, level, tree.next[level], nextCache)
      modifies this`tree
      ensures Placed(c, t, protos, tree) && Complete(c, tree.next, level, old(tree).next[level] + 1)
      ensures tree.next[level + 1..] == old(tree).next[level + 1..]
      ensures tree.created == old(tree).created + Subtree(c, t, |c| - level)
      decreases level, 1
    {
      var index := tree.next[level];
      ghost var first := Times(index, c[|c| - level]);
      AddSubSystem(level, SubSystem(t[|c| - level], ncaches[0], Some(prototypes[0]), nextCache));
      CompleteFrame(c, old(tree).next, tree.next, level - 1, first);
      MakeChildren(ncaches, prototypes, level, index, first);
      Above(old(tree).next[level := index + 1], tree.next, level);
      LevelDone(c, tree.next, level, index, first);
    }

    /** The loop over the tree caches of a subsystem. */
    method MakeChildren(ncaches: seq<int>, prototypes: seq<Cache>, level: nat, index: nat, ghost first: int)
      requires WellSpecified(c, t) && Placed(c, t, protos, tree) && 0 < level <= |c|
      requires ncaches == c[|c| - level..] && prototypes == protos[|c| - level..]
      requires first == Times(index, c[|c| - level])
      requires Complete(c, tree.next, level - 1, first) && tree.next[level] == index + 1
      modifies this`tree
      ensures Placed(c, t, protos, tree) && Complete(c, tree.next, level - 1, first + c[|c| - level])
      ensures tree.next[level..] == old(tree).next[level..]
      ensures tree.created == old(tree).created + Times(c[|c| - level], Subtree(c, t, |c| - level + 1))
      decreases level, 0
    {
      ghost var each := Subtree(c, t, |c| - level + 1);
      for k := 0 to ncaches[0]
        invariant Placed(c, t, protos, tree) && Complete(c, tree.next, level - 1, first + k)
        invariant tree.next[level..] == old(tree).next[level..]
        invariant tree.created == old(tree).created + Times(k, each)
      {
        assert tree.next[level] == tree.next[level..][0] == old(tree).next[level..][0];
        MakeChild(ncaches, prototypes, level, index, first, k);
      }
    }

    /** One tree cache and what is connected to it. */
    method MakeChild(ncaches: seq<int>, prototypes: seq<Cache>, level: nat, index: nat, ghost first: int, k: nat)
      requires WellSpecified(c, t) && Placed(c, t, protos, tree) && 0 < level <= |c| && k < c[|c| - level]
      requires ncaches == c[|c| - level..] && prototypes == protos[|c| - level..]
      requires first == Times(index, c[|c| - level])
      requires Complete(c, tree.next, level - 1, first + k) && tree.next[level] == index + 1
      modifies this`tree
      ensures Placed(c, t, protos, tree) && Complete(c, tree.next, level - 1, first + k + 1)
      ensures tree.next[level..] == old(tree).next[level..]
      ensures tree.created == old(tree).created + Subtree(c, t, |c| - level + 1)
      decreases level - 1, 3
    {
      assert ncaches[1..] == c[|c| - level + 1..] && prototypes[1..] == protos[|c| - level + 1..];
      ChildReady(c, tree.next, level, index, first, k);
      MakeCacheLevel(ncaches[1..], prototypes[1..], level - 1, Some((index, k)));
    }

    /** The top level call: a tree with the planned subsystems and testers. */
    method Build()
      requires ValidSpec(c, t) && |protos| == |c| && tree == Tree(seq(|c| + 1, i => 0), map[], 0)
      modifies this`tree
      ensures Placed(c, t, protos, tree)
      ensures forall l :: 0 <= l <= |c| ==> tree.next[l] == Fan(c, 0, |c| - l)
      ensures tree.created == Counted(c, t, |t|)
    {
      NoneIsComplete(c, tree.next, |c|);
      assert c[0..] == c && protos[0..] == protos;
      MakeCacheLevel(c, protos, |c|, None);
      forall l | 0 <= l <= |c| ensures tree.next[l] == Fan(c, 0, |c| - l) {
        CompleteCounts(c, tree.next, |c|, l);
      }
      CountedIsTree(c, t);
    }
  }
}
