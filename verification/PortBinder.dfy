/**
 Rebuilding port connections from a configuration file (configs/example/read_config.py,
 `gather_port_connections` and `bind_ports`). Vector ports are filled by appending, so
 connections have to be made in an order in which every port is at the right index.
 */
module PortBinder {
  import opened Results
  import Text

  /** A `PortConnection`. */
  datatype Port = Port(obj: string, port: string, index: nat)

  type Key = (string, string)

  function KeyOf(p: Port): Key {
    (p.obj, p.port)
  }

  datatype Conn = Conn(from: Port, to: Port)

  function Swap(c: Conn): Conn {
    Conn(c.to, c.from)
  }

  // ---------------------------------------------------------------- connection lists

  /** Every connection is listed in both directions, with one peer per endpoint, and none is a self-link. */
  ghost predicate WellFormed(cs: set<Conn>) {
    && (forall a, b :: a in cs && b in cs && a.from == b.from ==> a == b)
    && (forall c :: c in cs ==> Swap(c) in cs && c.from != c.to)
  }

  ghost function Listing(conns: seq<Conn>): set<Conn> {
    set c | c in conns
  }

  ghost function Ends(cs: set<Conn>): set<Port> {
    set c | c in cs :: c.from
  }

  function KeysOf(cs: set<Conn>): set<Key> {
    set c | c in cs :: KeyOf(c.from)
  }

  lemma {:induction false} EndsSize(cs: set<Conn>)
    requires forall a, b :: a in cs && b in cs && a.from == b.from ==> a == b
    ensures |Ends(cs)| == |cs|
  {
    if cs == {} {
      assert Ends(cs) == {};
    } else {
      var c :| c in cs;
      EndsSize(cs - {c});
      assert Ends(cs) == Ends(cs - {c}) + {c.from};
      assert c.from !in Ends(cs - {c});
    }
  }

  lemma {:induction false} EndsHaveKeys(cs: set<Conn>, c: Conn)
    requires WellFormed(cs) && c in cs
    ensures c.from in Ends(cs) && c.to in Ends(cs) && Swap(c) in cs && c.from != c.to
    ensures KeyOf(c.from) in KeysOf(cs) && KeyOf(c.to) in KeysOf(cs)
  {
    assert Swap(c).from == c.to;
  }

  // ---------------------------------------------------------------- the greedy pass

  /** `port_bind_indices` and `connections_to_make`. */
  datatype State = State(next: map<Key, nat>, made: seq<Conn>)

  function Initial(keys: set<Key>): State {
    State(map k | k in keys :: 0, [])
  }

  predicate AtRightIndex(s: State, p: Port) {
    KeyOf(p) in s.next && s.next[KeyOf(p)] == p.index
  }

  predicate Bindable(s: State, c: Conn) {
    AtRightIndex(s, c.from) && AtRightIndex(s, c.to)
  }

  function Increment(next: map<Key, nat>, k: Key): map<Key, nat> {
    if k in next then next[k := next[k] + 1] else next
  }

  function Make(s: State, c: Conn): State {
    State(Increment(Increment(s.next, KeyOf(c.from)), KeyOf(c.to)), s.made + [c])
  }

  function Step(s: State, c: Conn): State {
    if Bindable(s, c) then Make(s, c) else s
  }

  /** The loop over the sorted connections, `order`, from all indices at zero. */
  function Bind(keys: set<Key>, order: seq<Conn>): State {
    if order == [] then Initial(keys)
    else Step(Bind(keys, order[..|order| - 1]), order[|order| - 1])
  }

  /** What appending in the order of `made` leaves in the vector port `k`. */
  function PeersOf(made: seq<Conn>, k: Key): seq<Port> {
    if made == [] then []
    else PeersOf(made[..|made| - 1], k) + Appends(made[|made| - 1], k)
  }

  /** What one connection appends to port `k`. */
  function Appends(c: Conn, k: Key): seq<Port> {
    (if KeyOf(c.from) == k then [c.to] else []) + (if KeyOf(c.to) == k then [c.from] else [])
  }

  /** The endpoints that `made` connects. */
  ghost function Bound(made: seq<Conn>): set<Port> {
    if made == [] then {}
    else Bound(made[..|made| - 1]) + {made[|made| - 1].from, made[|made| - 1].to}
  }

  // ---------------------------------------------------------------- what every step keeps

  /** Exactly the endpoints below the next index of their port are bound, none of them twice. */
  ghost predicate BoundInOrder(cs: set<Conn>, s: State) {
    && s.next.Keys == KeysOf(cs)
    && Bound(s.made) <= Ends(cs)
    && (forall p :: p in Ends(cs) && KeyOf(p) in s.next ==> (p in Bound(s.made) <==> p.index < s.next[KeyOf(p)]))
    && |Bound(s.made)| == 2 * |s.made|
  }

  /** The peers appended to port `k` so far are the configured ones, from index 0 on. */
  ghost predicate PeersInOrder(cs: set<Conn>, s: State, k: Key) {
    && k in s.next && |PeersOf(s.made, k)| == s.next[k]
    && forall i :: 0 <= i < s.next[k] ==> Conn(Port(k.0, k.1, i), PeersOf(s.made, k)[i]) in cs
  }

  ghost predicate MadeFrom(cs: set<Conn>, made: seq<Conn>) {
    forall i :: 0 <= i < |made| ==> made[i] in cs
  }

  /** What every step keeps. */
  ghost predicate Consistent(cs: set<Conn>, s: State) {
    && BoundInOrder(cs, s) && MadeFrom(cs, s.made)
    && (forall k :: k in s.next ==> PeersInOrder(cs, s, k))
  }

  lemma {:induction false} InitialConsistent(cs: set<Conn>)
    ensures Consistent(cs, Initial(KeysOf(cs)))
  {
  }

  /** A connection between two indices of one port can never be made. */
  lemma {:induction false} BindableKeysDiffer(s: State, c: Conn)
    requires c.from != c.to && Bindable(s, c)
    ensures KeyOf(c.from) != KeyOf(c.to)
  {
  }

  lemma {:induction false} NextAfterMake(s: State, c: Conn, k: Key)
    requires KeyOf(c.from) in s.next && KeyOf(c.to) in s.next && KeyOf(c.from) != KeyOf(c.to)
    ensures Make(s, c).next.Keys == s.next.Keys
    ensures k in s.next ==>
              Make(s, c).next[k] == if k == KeyOf(c.from) || k == KeyOf(c.to) then s.next[k] + 1 else s.next[k]
  {
  }

  lemma {:induction false} BoundAfterMake(made: seq<Conn>, c: Conn)
    ensures Bound(made + [c]) == Bound(made) + {c.from, c.to}
  {
    assert (made + [c])[..|made|] == made;
  }

  lemma {:induction false} PeersAfterMake(made: seq<Conn>, c: Conn, k: Key)
    ensures PeersOf(made + [c], k) == PeersOf(made, k) + Appends(c, k)
  {
    assert (made + [c])[..|made|] == made;
  }

  lemma {:induction false} AddTwo(b: set<Port>, p: Port, q: Port)
    requires p !in b && q !in b && p != q
    ensures |b + {p, q}| == |b| + 2
  {
    assert b + {p, q} == b + {p} + {q};
  }

  lemma {:induction false} MakeBoundAt(cs: set<Conn>, s: State, c: Conn, p: Port)
    requires c.from != c.to && Bindable(s, c)
    requires KeyOf(p) in s.next && (p in Bound(s.made) <==> p.index < s.next[KeyOf(p)])
    ensures KeyOf(p) in Make(s, c).next
    ensures p in Bound(Make(s, c).made) <==> p.index < Make(s, c).next[KeyOf(p)]
  {
    BindableKeysDiffer(s, c);
    BoundAfterMake(s.made, c);
    NextAfterMake(s, c, KeyOf(p));
  }

  lemma {:induction false} MakeBound(cs: set<Conn>, s: State, c: Conn)
    requires WellFormed(cs) && c in cs && Bindable(s, c) && BoundInOrder(cs, s)
    ensures BoundInOrder(cs, Make(s, c))
  {
    var s' := Make(s, c);
    EndsHaveKeys(cs, c);
    BindableKeysDiffer(s, c);
    NextAfterMake(s, c, KeyOf(c.from));
    BoundAfterMake(s.made, c);
    AddTwo(Bound(s.made), c.from, c.to);
    forall p | p in Ends(cs) && KeyOf(p) in s'.next
      ensures p in Bound(s'.made) <==> p.index < s'.next[KeyOf(p)]
    {
      MakeBoundAt(cs, s, c, p);
    }
  }

  lemma {:induction false} MakePeers(cs: set<Conn>, s: State, c: Conn, k: Key)
    requires WellFormed(cs) && c in cs && Bindable(s, c) && PeersInOrder(cs, s, k)
    ensures PeersInOrder(cs, Make(s, c), k)
  {
    EndsHaveKeys(cs, c);
    BindableKeysDiffer(s, c);
    NextAfterMake(s, c, k);
    PeersAfterMake(s.made, c, k);
    if k == KeyOf(c.from) {
      assert c == Conn(Port(k.0, k.1, s.next[k]), c.to);
    } else if k == KeyOf(c.to) {
      assert Swap(c) == Conn(Port(k.0, k.1, s.next[k]), c.from);
    }
  }

  lemma {:induction false} MadeFromAppend(cs: set<Conn>, made: seq<Conn>, c: Conn)
    requires MadeFrom(cs, made) && c in cs
    ensures MadeFrom(cs, made + [c])
  {
  }

  lemma {:induction false} AllPeers(cs: set<Conn>, s: State, c: Conn)
    requires WellFormed(cs) && c in cs && Bindable(s, c)
    requires forall k :: k in s.next ==> PeersInOrder(cs, s, k)
    ensures forall k :: k in Make(s, c).next ==> PeersInOrder(cs, Make(s, c), k)
  {
    forall k | k in Make(s, c).next ensures PeersInOrder(cs, Make(s, c), k) {
      assert k in s.next;
      MakePeers(cs, s, c, k);
    }
  }

  lemma {:induction false} StepConsistent(cs: set<Conn>, s: State, c: Conn)
    requires WellFormed(cs) && c in cs && Consistent(cs, s)
    ensures Consistent(cs, Step(s, c))
  {
    if Bindable(s, c) {
      MakeBound(cs, s, c);
      MadeFromAppend(cs, s.made, c);
      AllPeers(cs, s, c);
      assert Step(s, c) == Make(s, c);
    }
  }

  /** Whatever the processing order, the pass keeps every port consistent with the configuration. */
  lemma {:induction false} BindConsistent(cs: set<Conn>, order: seq<Conn>)
    requires WellFormed(cs) && MadeFrom(cs, order)
    ensures Consistent(cs, Bind(KeysOf(cs), order))
  {
    if order == [] {
      InitialConsistent(cs);
    } else {
      BindConsistent(cs, order[..|order| - 1]);
      StepConsistent(cs, Bind(KeysOf(cs), order[..|order| - 1]), order[|order| - 1]);
    }
  }

  // ---------------------------------------------------------------- success

  /** Half of the listed connections have been made; otherwise `bind_ports` raises. */
  predicate Succeeds(cs: set<Conn>, s: State) {
    |s.made| * 2 == |cs|
  }

  lemma {:induction false} SubsetOfSameSize<T>(a: set<T>, b: set<T>)
    requires a <= b && |a| == |b|
    ensures a == b
  {
    assert b == a + (b - a);
  }

  lemma {:induction false} SuccessBindsAll(cs: set<Conn>, s: State)
    requires WellFormed(cs) && BoundInOrder(cs, s)
    ensures Succeeds(cs, s) <==> Bound(s.made) == Ends(cs)
  {
    EndsSize(cs);
    if Succeeds(cs, s) {
      SubsetOfSameSize(Bound(s.made), Ends(cs));
    }
  }

  lemma {:induction false} BoundByWhom(made: seq<Conn>, p: Port) returns (i: nat)
    requires p in Bound(made)
    ensures i < |made| && (made[i].from == p || made[i].to == p)
  {
    var n := |made| - 1;
    if made[n].from == p || made[n].to == p {
      i := n;
    } else {
      i := BoundByWhom(made[..n], p);
    }
  }

  ghost predicate Apart(a: Conn, b: Conn) {
    a.from != b.from && a.from != b.to && a.to != b.from && a.to != b.to
  }

  lemma {:induction false} UnionSize(a: set<Port>, b: set<Port>)
    ensures |a + b| <= |a| + |b|
    ensures |a + b| == |a| + |b| ==> a !! b
  {
    assert a + b == a + (b - a);
    assert b == (b - a) + (b * a);
    if |a + b| == |a| + |b| {
      assert |b * a| == 0;
    }
  }

  lemma {:induction false} BoundHolds(made: seq<Conn>, i: nat)
    requires i < |made|
    ensures made[i].from in Bound(made) && made[i].to in Bound(made)
  {
    if i < |made| - 1 {
      BoundHolds(made[..|made| - 1], i);
    }
  }

  /** If no endpoint is used twice, any two of the connections are apart. */
  lemma {:induction false} MadeApart(made: seq<Conn>)
    ensures |Bound(made)| <= 2 * |made|
    ensures |Bound(made)| == 2 * |made| ==> forall i, j :: 0 <= i < j < |made| ==> Apart(made[i], made[j])
  {
    if made != [] {
      var n := |made| - 1;
      var pair := {made[n].from, made[n].to};
      MadeApart(made[..n]);
      UnionSize(Bound(made[..n]), pair);
      assert |pair| <= 2;
      if |Bound(made)| == 2 * |made| {
        forall i, j | 0 <= i < j < |made| ensures Apart(made[i], made[j]) {
          if j == n {
            BoundHolds(made[..n], i);
            assert made[i].from in Bound(made[..n]) && made[i].to in Bound(made[..n]);
          } else {
            assert made[..n][i] == made[i] && made[..n][j] == made[j];
          }
        }
      }
    }
  }

  /** A bound endpoint is bound by its own connection, in one direction or the other. */
  lemma {:induction false} OwnConnection(cs: set<Conn>, made: seq<Conn>, c: Conn) returns (i: nat)
    requires WellFormed(cs) && MadeFrom(cs, made) && c in cs && c.from in Bound(made)
    ensures i < |made| && (made[i] == c || made[i] == Swap(c))
  {
    i := BoundByWhom(made, c.from);
    EndsHaveKeys(cs, made[i]);
    if made[i].from != c.from {
      assert Swap(made[i]).from == c.from;
    }
  }

  /** On success each connection has been made exactly once, in exactly one of its two directions. */
  lemma {:induction false} EachConnectionOnce(cs: set<Conn>, order: seq<Conn>, c: Conn)
    requires WellFormed(cs) && MadeFrom(cs, order) && c in cs
    requires Succeeds(cs, Bind(KeysOf(cs), order))
    ensures var made := Bind(KeysOf(cs), order).made;
            && (c in made <==> Swap(c) !in made)
            && (forall i, j :: 0 <= i < j < |made| ==> Apart(made[i], made[j]))
  {
    var s := Bind(KeysOf(cs), order);
    BindConsistent(cs, order);
    SuccessBindsAll(cs, s);
    EndsHaveKeys(cs, c);
    MadeApart(s.made);
    var i := OwnConnection(cs, s.made, c);
    NotBothWays(s.made, c);
  }

  lemma {:induction false} NotBothWays(made: seq<Conn>, c: Conn)
    requires c.from != c.to
    requires forall i, j :: 0 <= i < j < |made| ==> Apart(made[i], made[j])
    ensures !(c in made && Swap(c) in made)
  {
    assert !Apart(c, Swap(c)) && !Apart(Swap(c), c) && c != Swap(c);
  }

  // ---------------------------------------------------------------- rebuilding the configuration

  /** The peers listed in the file, by port. */
  type Config = map<Key, seq<Port>>

  ghost predicate Listed(cfg: Config, c: Conn) {
    && KeyOf(c.from) in cfg && c.from.index < |cfg[KeyOf(c.from)]|
    && c.to == cfg[KeyOf(c.from)][c.from.index]
  }

  /** `cs` holds exactly the peers in `cfg`, with their indices. */
  ghost predicate Describes(cs: set<Conn>, cfg: Config) {
    forall c :: c in cs <==> Listed(cfg, c)
  }

  lemma {:induction false} PortIsFull(cfg: Config, cs: set<Conn>, s: State, k: Key)
    requires WellFormed(cs) && Describes(cs, cfg) && Consistent(cs, s)
    requires Bound(s.made) == Ends(cs)
    requires k in cfg && cfg[k] != []
    ensures k in s.next && s.next[k] == |cfg[k]| && PeersInOrder(cs, s, k)
  {
    var n := |cfg[k]|;
    var last := Conn(Port(k.0, k.1, n - 1), cfg[k][n - 1]);
    assert Listed(cfg, last);
    EndsHaveKeys(cs, last);
    assert s.next[k] >= n;
    assert s.next[k] > n ==> Listed(cfg, Conn(Port(k.0, k.1, n), PeersOf(s.made, k)[n]));
  }

  /** Appending in binding order rebuilds every vector port exactly as configured. */
  lemma {:induction false} PeersRebuilt(cfg: Config, cs: set<Conn>, order: seq<Conn>, k: Key)
    requires WellFormed(cs) && Describes(cs, cfg) && MadeFrom(cs, order)
    requires Succeeds(cs, Bind(KeysOf(cs), order))
    requires k in cfg && cfg[k] != []
    ensures PeersOf(Bind(KeysOf(cs), order).made, k) == cfg[k]
  {
    BindConsistent(cs, order);
    SuccessBindsAll(cs, Bind(KeysOf(cs), order));
    FullPortMatches(cfg, cs, Bind(KeysOf(cs), order), k);
  }

  lemma {:induction false} FullPortMatches(cfg: Config, cs: set<Conn>, s: State, k: Key)
    requires WellFormed(cs) && Describes(cs, cfg) && Consistent(cs, s)
    requires Bound(s.made) == Ends(cs)
    requires k in cfg && cfg[k] != []
    ensures PeersOf(s.made, k) == cfg[k]
  {
    PortIsFull(cfg, cs, s, k);
    forall i | 0 <= i < |cfg[k]| ensures PeersOf(s.made, k)[i] == cfg[k][i] {
      assert Listed(cfg, Conn(Port(k.0, k.1, i), PeersOf(s.made, k)[i]));
    }
  }

  // ---------------------------------------------------------------- when the pass succeeds

  /** A pass that makes the picked connections and no others; None if a picked one is out of turn. */
  function PickRun(keys: set<Key>, order: seq<Conn>, pick: seq<bool>): Option<State>
    requires |pick| == |order|
  {
    if order == [] then Some(Initial(keys))
    else
      var n := |order| - 1;
      var before := PickRun(keys, order[..n], pick[..n]);
      if before == None || !pick[n] then before
      else if Bindable(before.value, order[n]) then Some(Make(before.value, order[n]))
      else None
  }

  /** Picking these connections, in this order, makes all of them. */
  ghost predicate Works(cs: set<Conn>, order: seq<Conn>, pick: seq<bool>) {
    && |pick| == |order|
    && PickRun(KeysOf(cs), order, pick).Some?
    && Succeeds(cs, PickRun(KeysOf(cs), order, pick).value)
  }

  ghost predicate Behind(a: State, b: State) {
    a.next.Keys == b.next.Keys && forall k :: k in a.next ==> a.next[k] <= b.next[k]
  }

  /** If one end of a connection is bound, so is the other. */
  lemma {:induction false} BothEndsBound(cs: set<Conn>, s: State, c: Conn)
    requires WellFormed(cs) && Consistent(cs, s) && c in cs
    ensures c.from in Bound(s.made) ==> c.to in Bound(s.made)
  {
    if c.from in Bound(s.made) {
      var i := OwnConnection(cs, s.made, c);
      BoundHolds(s.made, i);
    }
  }

  lemma {:induction false} BehindAfterBoth(a: State, b: State, c: Conn)
    requires Behind(a, b) && c.from != c.to && Bindable(a, c) && Bindable(b, c)
    ensures Behind(Make(a, c), Make(b, c))
  {
    BindableKeysDiffer(a, c);
    forall k ensures k in Make(a, c).next ==> k in Make(b, c).next && Make(a, c).next[k] <= Make(b, c).next[k] {
      NextAfterMake(a, c, k);
      NextAfterMake(b, c, k);
    }
    NextAfterMake(a, c, KeyOf(c.from));
    NextAfterMake(b, c, KeyOf(c.from));
  }

  lemma {:induction false} BehindAfterOne(a: State, b: State, c: Conn)
    requires Behind(a, b) && c.from != c.to && Bindable(a, c)
    requires c.from.index < b.next[KeyOf(c.from)] && c.to.index < b.next[KeyOf(c.to)]
    ensures Behind(Make(a, c), b)
  {
    BindableKeysDiffer(a, c);
    NextAfterMake(a, c, KeyOf(c.from));
    forall k | k in a.next ensures Make(a, c).next[k] <= b.next[k] {
      NextAfterMake(a, c, k);
    }
  }

  /** The two ends of a connection are passed together. */
  lemma {:induction false} PassedTogether(cs: set<Conn>, s: State, c: Conn)
    requires WellFormed(cs) && c in cs && Consistent(cs, s)
    ensures KeyOf(c.from) in s.next && KeyOf(c.to) in s.next
    ensures c.from.index < s.next[KeyOf(c.from)] <==> c.to.index < s.next[KeyOf(c.to)]
  {
    EndsHaveKeys(cs, c);
    BothEndsBound(cs, s, c);
    BothEndsBound(cs, s, Swap(c));
  }

  lemma {:induction false} MadeOrBindable(a: State, b: State, c: Conn)
    requires Behind(a, b) && Bindable(a, c)
    requires c.from.index < b.next[KeyOf(c.from)] <==> c.to.index < b.next[KeyOf(c.to)]
    ensures Bindable(b, c) || (c.from.index < b.next[KeyOf(c.from)] && c.to.index < b.next[KeyOf(c.to)])
  {
  }

  /** Where another pass makes a connection, the greedy pass has made it or makes it now. */
  lemma {:induction false} GreedyKeepsUp(cs: set<Conn>, a: State, b: State, c: Conn)
    requires WellFormed(cs) && c in cs && Consistent(cs, b)
    requires Behind(a, b) && Bindable(a, c)
    ensures Behind(Make(a, c), Step(b, c))
  {
    PassedTogether(cs, b, c);
    MadeOrBindable(a, b, c);
    if Bindable(b, c) {
      BehindAfterBoth(a, b, c);
    } else {
      BehindAfterOne(a, b, c);
    }
  }

  lemma {:induction false} GreedyNeverFallsBack(cs: set<Conn>, a: State, b: State, c: Conn)
    requires WellFormed(cs) && c in cs && Behind(a, b)
    ensures Behind(a, Step(b, c))
  {
    EndsHaveKeys(cs, c);
    if Bindable(b, c) {
      BindableKeysDiffer(b, c);
      forall k | k in b.next ensures b.next[k] <= Make(b, c).next[k] {
        NextAfterMake(b, c, k);
      }
      NextAfterMake(b, c, KeyOf(c.from));
    }
  }

  lemma {:induction false} GreedyLeads(cs: set<Conn>, order: seq<Conn>, pick: seq<bool>)
    requires WellFormed(cs) && MadeFrom(cs, order) && |pick| == |order|
    requires PickRun(KeysOf(cs), order, pick).Some?
    ensures Behind(PickRun(KeysOf(cs), order, pick).value, Bind(KeysOf(cs), order))
    ensures Consistent(cs, PickRun(KeysOf(cs), order, pick).value)
  {
    if order == [] {
      InitialConsistent(cs);
    } else {
      var n := |order| - 1;
      GreedyLeads(cs, order[..n], pick[..n]);
      var a, b := PickRun(KeysOf(cs), order[..n], pick[..n]).value, Bind(KeysOf(cs), order[..n]);
      BindConsistent(cs, order[..n]);
      if pick[n] {
        GreedyKeepsUp(cs, a, b, order[n]);
        StepConsistent(cs, a, order[n]);
      } else {
        GreedyNeverFallsBack(cs, a, b, order[n]);
      }
    }
  }

  lemma {:induction false} GreedyPicks(keys: set<Key>, order: seq<Conn>) returns (pick: seq<bool>)
    ensures |pick| == |order| && PickRun(keys, order, pick) == Some(Bind(keys, order))
  {
    if order == [] {
      pick := [];
    } else {
      var n := |order| - 1;
      var p := GreedyPicks(keys, order[..n]);
      pick := p + [Bindable(Bind(keys, order[..n]), order[n])];
      assert pick[..n] == p;
    }
  }

  lemma {:induction false} BehindSucceeds(cs: set<Conn>, a: State, b: State)
    requires WellFormed(cs) && Consistent(cs, a) && Consistent(cs, b)
    requires Behind(a, b) && Succeeds(cs, a)
    ensures Succeeds(cs, b)
  {
    SuccessBindsAll(cs, a);
    SuccessBindsAll(cs, b);
    forall p | p in Ends(cs) ensures p in Bound(b.made) {
      assert KeyOf(p) in KeysOf(cs);
      assert p.index < a.next[KeyOf(p)];
    }
  }

  /**
   The pass raises only if it has to: for every processing order it succeeds exactly if some
   choice of directions can be made in that order at all.
   */
  lemma {:induction false} GreedyIsComplete(cs: set<Conn>, order: seq<Conn>)
    requires WellFormed(cs) && MadeFrom(cs, order)
    ensures Succeeds(cs, Bind(KeysOf(cs), order)) <==> exists pick :: Works(cs, order, pick)
  {
    if Succeeds(cs, Bind(KeysOf(cs), order)) {
      var pick := GreedyPicks(KeysOf(cs), order);
      assert Works(cs, order, pick);
    }
    if pick :| Works(cs, order, pick) {
      GreedyLeads(cs, order, pick);
      BindConsistent(cs, order);
      BehindSucceeds(cs, PickRun(KeysOf(cs), order, pick).value, Bind(KeysOf(cs), order));
    }
  }

  // ---------------------------------------------------------------- when the pass succeeds, from the file alone

  predicate IsEnd(c: Conn, p: Port) {
    c.from == p || c.to == p
  }

  /** `p` is an end of the connection chosen at position `i`. */
  predicate ChosenAt(order: seq<Conn>, pick: seq<bool>, i: nat, p: Port) {
    i < |order| && i < |pick| && pick[i] && IsEnd(order[i], p)
  }

  ghost predicate Chosen(order: seq<Conn>, pick: seq<bool>, p: Port) {
    exists i: nat :: ChosenAt(order, pick, i, p)
  }

  /** No port has a peer at an index without one at every smaller index. */
  ghost predicate NoGaps(cs: set<Conn>) {
    forall p, i: nat :: p in Ends(cs) && i < p.index ==> Port(p.obj, p.port, i) in Ends(cs)
  }

  /**
   `pick` chooses one direction of each connection such that in every port the positions of the
   chosen directions ascend with the index.
   */
  ghost predicate Ascends(cs: set<Conn>, order: seq<Conn>, pick: seq<bool>) {
    && |pick| == |order|
    && (forall p :: p in Ends(cs) ==> Chosen(order, pick, p))
    && (forall i: nat, j: nat, p :: ChosenAt(order, pick, i, p) && ChosenAt(order, pick, j, p) ==> i == j)
    && (forall i: nat, j: nat, p, q :: ChosenAt(order, pick, i, p) && ChosenAt(order, pick, j, q) ==>
          (KeyOf(p) == KeyOf(q) && p.index < q.index ==> i < j))
  }

  lemma {:induction false} ChosenSplit(order: seq<Conn>, pick: seq<bool>, p: Port)
    requires |pick| == |order| > 0
    ensures var n := |order| - 1;
            Chosen(order, pick, p) <==> Chosen(order[..n], pick[..n], p) || (pick[n] && IsEnd(order[n], p))
  {
    var n := |order| - 1;
    if i: nat :| ChosenAt(order, pick, i, p) {
      assert i < n ==> ChosenAt(order[..n], pick[..n], i, p);
    }
    if i: nat :| ChosenAt(order[..n], pick[..n], i, p) {
      assert ChosenAt(order, pick, i, p);
    }
    assert pick[n] && IsEnd(order[n], p) ==> ChosenAt(order, pick, n, p);
  }

  /** What a pass that makes the chosen connections has bound. */
  lemma {:induction false} PickBound(keys: set<Key>, order: seq<Conn>, pick: seq<bool>, p: Port)
    requires |pick| == |order| && PickRun(keys, order, pick).Some?
    ensures p in Bound(PickRun(keys, order, pick).value.made) <==> Chosen(order, pick, p)
  {
    if order == [] {
      assert Bound(Initial(keys).made) == {};
    } else {
      var n := |order| - 1;
      PickMade(keys, order, pick);
      PickBound(keys, order[..n], pick[..n], p);
      BoundAfterMake(PickRun(keys, order[..n], pick[..n]).value.made, order[n]);
      ChosenSplit(order, pick, p);
    }
  }

  lemma {:induction false} PickMade(keys: set<Key>, order: seq<Conn>, pick: seq<bool>)
    requires |pick| == |order| > 0 && PickRun(keys, order, pick).Some?
    ensures var n := |order| - 1;
            var before := PickRun(keys, order[..n], pick[..n]);
            && before.Some?
            && PickRun(keys, order, pick).value.made == before.value.made + (if pick[n] then [order[n]] else [])
  {
  }

  lemma {:induction false} PickPrefix(keys: set<Key>, order: seq<Conn>, pick: seq<bool>, n: nat)
    requires |pick| == |order| && PickRun(keys, order, pick).Some? && n <= |order|
    ensures PickRun(keys, order[..n], pick[..n]).Some?
  {
    if n == |order| {
      assert order[..n] == order && pick[..n] == pick;
    } else {
      var m := |order| - 1;
      PickPrefix(keys, order[..m], pick[..m], n);
      assert order[..m][..n] == order[..n] && pick[..m][..n] == pick[..n];
    }
  }

  /** A chosen connection is made when both its ports are at its indices. */
  lemma {:induction false} PickedBindable(keys: set<Key>, order: seq<Conn>, pick: seq<bool>, n: nat)
    requires |pick| == |order| && PickRun(keys, order, pick).Some? && n < |order| && pick[n]
    ensures PickRun(keys, order[..n], pick[..n]).Some?
    ensures Bindable(PickRun(keys, order[..n], pick[..n]).value, order[n])
  {
    PickPrefix(keys, order, pick, n + 1);
    PickPrefix(keys, order, pick, n);
    assert order[..n + 1][..n] == order[..n] && pick[..n + 1][..n] == pick[..n];
  }

  /** In a pass that works, chosen connections of a port come in the order of their indices. */
  lemma {:induction false} PickedInOrder(cs: set<Conn>, order: seq<Conn>, pick: seq<bool>, i: nat, j: nat,
                                         p: Port, q: Port)
    requires WellFormed(cs) && MadeFrom(cs, order) && |pick| == |order| && PickRun(KeysOf(cs), order, pick).Some?
    requires ChosenAt(order, pick, i, p) && ChosenAt(order, pick, j, q) && KeyOf(p) == KeyOf(q)
    ensures i < j ==> p.index < q.index
    ensures i == j ==> p == q
  {
    PickedBindable(KeysOf(cs), order, pick, j);
    var s := PickRun(KeysOf(cs), order[..j], pick[..j]).value;
    GreedyLeads(cs, order[..j], pick[..j]);
    EndsHaveKeys(cs, order[i]);
    EndsHaveKeys(cs, order[j]);
    if i < j {
      assert ChosenAt(order[..j], pick[..j], i, p);
      PickBound(KeysOf(cs), order[..j], pick[..j], p);
    } else {
      BindableKeysDiffer(s, order[j]);
    }
  }

  lemma {:induction false} WorksAscends(cs: set<Conn>, order: seq<Conn>, pick: seq<bool>)
    requires WellFormed(cs) && MadeFrom(cs, order) && Works(cs, order, pick)
    ensures NoGaps(cs) && Ascends(cs, order, pick)
  {
    var s := PickRun(KeysOf(cs), order, pick).value;
    GreedyLeads(cs, order, pick);
    SuccessBindsAll(cs, s);
    forall p | p in Ends(cs) ensures Chosen(order, pick, p) {
      PickBound(KeysOf(cs), order, pick, p);
    }
    forall i: nat, j: nat, p, q | ChosenAt(order, pick, i, p) && ChosenAt(order, pick, j, q) && KeyOf(p) == KeyOf(q)
      ensures p.index < q.index ==> i < j
      ensures p == q ==> i == j
    {
      PickedInOrder(cs, order, pick, i, j, p, q);
      PickedInOrder(cs, order, pick, j, i, q, p);
    }
    FullHasNoGaps(cs, s);
  }

  lemma {:induction false} FullHasNoGaps(cs: set<Conn>, s: State)
    requires WellFormed(cs) && Consistent(cs, s) && Bound(s.made) == Ends(cs)
    ensures NoGaps(cs)
  {
    forall p, i: nat | p in Ends(cs) && i < p.index ensures Port(p.obj, p.port, i) in Ends(cs) {
      var k := KeyOf(p);
      assert k in KeysOf(cs) && PeersInOrder(cs, s, k) && i < s.next[k];
      assert Conn(Port(k.0, k.1, i), PeersOf(s.made, k)[i]) in cs;
    }
  }

  /** Exactly the ends of the connections chosen in the first `n` positions are bound. */
  ghost predicate BoundUpTo(order: seq<Conn>, pick: seq<bool>, n: nat, s: State) {
    forall q :: q in Bound(s.made) <==> exists i: nat :: i < n && ChosenAt(order, pick, i, q)
  }

  /** By the next chosen connection all smaller indices of its ports are bound. */
  lemma {:induction false} EarlierBound(cs: set<Conn>, order: seq<Conn>, pick: seq<bool>, n: nat, s: State,
                                        p: Port, q: Port)
    requires Ascends(cs, order, pick) && BoundUpTo(order, pick, n, s) && ChosenAt(order, pick, n, p)
    requires q in Ends(cs) && KeyOf(q) == KeyOf(p) && q.index < p.index
    ensures q in Bound(s.made)
  {
    var m: nat :| ChosenAt(order, pick, m, q);
    assert m < n;
  }

  /** An endpoint of the next chosen connection is exactly at its port's index. */
  lemma {:induction false} ChosenIsNext(cs: set<Conn>, order: seq<Conn>, pick: seq<bool>, n: nat, s: State, p: Port)
    requires NoGaps(cs) && Ascends(cs, order, pick) && Consistent(cs, s) && p in Ends(cs)
    requires BoundUpTo(order, pick, n, s) && ChosenAt(order, pick, n, p)
    ensures AtRightIndex(s, p)
  {
    assert KeyOf(p) in KeysOf(cs);
    assert p !in Bound(s.made);
    if p.index > 0 {
      EarlierBound(cs, order, pick, n, s, p, Port(p.obj, p.port, p.index - 1));
    }
  }

  lemma {:induction false} NextIsBindable(cs: set<Conn>, order: seq<Conn>, pick: seq<bool>, n: nat)
    requires WellFormed(cs) && MadeFrom(cs, order) && NoGaps(cs) && Ascends(cs, order, pick) && n < |order| && pick[n]
    requires PickRun(KeysOf(cs), order[..n], pick[..n]).Some?
    ensures Bindable(PickRun(KeysOf(cs), order[..n], pick[..n]).value, order[n])
  {
    var s := PickRun(KeysOf(cs), order[..n], pick[..n]).value;
    GreedyLeads(cs, order[..n], pick[..n]);
    PrefixBound(cs, order, pick, n);
    EndsHaveKeys(cs, order[n]);
    ChosenIsNext(cs, order, pick, n, s, order[n].from);
    ChosenIsNext(cs, order, pick, n, s, order[n].to);
  }

  lemma {:induction false} PickOneMore(keys: set<Key>, order: seq<Conn>, pick: seq<bool>, n: nat)
    requires |pick| == |order| && n < |order| && PickRun(keys, order[..n], pick[..n]).Some?
    requires pick[n] ==> Bindable(PickRun(keys, order[..n], pick[..n]).value, order[n])
    ensures PickRun(keys, order[..n + 1], pick[..n + 1]).Some?
  {
    assert order[..n + 1][..n] == order[..n] && pick[..n + 1][..n] == pick[..n];
  }

  lemma {:induction false} AscendsRuns(cs: set<Conn>, order: seq<Conn>, pick: seq<bool>, n: nat)
    requires WellFormed(cs) && MadeFrom(cs, order) && NoGaps(cs) && Ascends(cs, order, pick) && n <= |order|
    ensures PickRun(KeysOf(cs), order[..n], pick[..n]).Some?
  {
    if n > 0 {
      AscendsRuns(cs, order, pick, n - 1);
      if pick[n - 1] {
        NextIsBindable(cs, order, pick, n - 1);
      }
      PickOneMore(KeysOf(cs), order, pick, n - 1);
    }
  }

  lemma {:induction false} PrefixBound(cs: set<Conn>, order: seq<Conn>, pick: seq<bool>, n: nat)
    requires |pick| == |order| && n <= |order| && PickRun(KeysOf(cs), order[..n], pick[..n]).Some?
    ensures BoundUpTo(order, pick, n, PickRun(KeysOf(cs), order[..n], pick[..n]).value)
  {
    var s := PickRun(KeysOf(cs), order[..n], pick[..n]).value;
    forall q ensures q in Bound(s.made) <==> exists i: nat :: i < n && ChosenAt(order, pick, i, q) {
      PickBound(KeysOf(cs), order[..n], pick[..n], q);
      if i: nat :| ChosenAt(order[..n], pick[..n], i, q) {
        assert i < n && ChosenAt(order, pick, i, q);
      }
      if i: nat :| i < n && ChosenAt(order, pick, i, q) {
        assert ChosenAt(order[..n], pick[..n], i, q);
      }
    }
  }

  lemma {:induction false} AscendsWorks(cs: set<Conn>, order: seq<Conn>, pick: seq<bool>)
    requires WellFormed(cs) && MadeFrom(cs, order) && NoGaps(cs) && Ascends(cs, order, pick)
    ensures Works(cs, order, pick)
  {
    var n := |order|;
    AscendsRuns(cs, order, pick, n);
    assert order[..n] == order && pick[..n] == pick;
    var s := PickRun(KeysOf(cs), order, pick).value;
    GreedyLeads(cs, order, pick);
    forall p | p in Ends(cs) ensures p in Bound(s.made) {
      PickBound(KeysOf(cs), order, pick, p);
    }
    SuccessBindsAll(cs, s);
  }

  /**
   When `bind_ports` does not raise, from the connections and their order alone: exactly if no
   port has a gap and one direction of each connection can be chosen so that in every port the
   positions of the chosen directions ascend with the index.
   */
  lemma {:induction false} BindsIff(cs: set<Conn>, order: seq<Conn>)
    requires WellFormed(cs) && MadeFrom(cs, order)
    ensures Succeeds(cs, Bind(KeysOf(cs), order)) <==> NoGaps(cs) && exists pick :: Ascends(cs, order, pick)
  {
    GreedyIsComplete(cs, order);
    if pick :| Works(cs, order, pick) {
      WorksAscends(cs, order, pick);
    }
    if NoGaps(cs) && exists pick :: Ascends(cs, order, pick) {
      var pick :| Ascends(cs, order, pick);
      AscendsWorks(cs, order, pick);
    }
  }

  // ---------------------------------------------------------------- sorting is not enough

  predicate PortLess(a: Port, b: Port) {
    || Text.Less(a.obj, b.obj)
    || (a.obj == b.obj && (Text.Less(a.port, b.port) || (a.port == b.port && a.index < b.index)))
  }

  predicate ConnLess(a: Conn, b: Conn) {
    PortLess(a.from, b.from) || (a.from == b.from && PortLess(a.to, b.to))
  }

  ghost predicate Sorted(order: seq<Conn>) {
    forall i, j :: 0 <= i < j < |order| ==> ConnLess(order[i], order[j])
  }

  lemma {:induction false} BindStep(keys: set<Key>, order: seq<Conn>, n: nat)
    requires n < |order|
    ensures Bind(keys, order[..n + 1]) == Step(Bind(keys, order[..n]), order[n])
  {
    assert order[..n + 1][..n] == order[..n];
  }

  /** a.p: z.p[1], b.p[0]   b.p: a.p[1]   y.p: z.p[0]   z.p: y.p[0], a.p[0] */
  function Chain(): seq<Conn> {
    var a0, a1, b0 := Port("a", "p", 0), Port("a", "p", 1), Port("b", "p", 0);
    var y0, z0, z1 := Port("y", "p", 0), Port("z", "p", 0), Port("z", "p", 1);
    [Conn(a0, z1), Conn(a1, b0), Conn(b0, a1), Conn(y0, z0), Conn(z0, y0), Conn(z1, a0)]
  }

  function ChainKeys(): set<Key> {
    {("a", "p"), ("b", "p"), ("y", "p"), ("z", "p")}
  }

  lemma {:induction false} ChainSorted()
    ensures Sorted(Chain())
  {
    assert Text.Less("a", "b") && Text.Less("a", "y") && Text.Less("a", "z");
    assert Text.Less("b", "y") && Text.Less("b", "z") && Text.Less("y", "z");
  }

  lemma {:induction false} ChainBinds()
    ensures |Bind(ChainKeys(), Chain()).made| == 2
  {
    var keys, order := ChainKeys(), Chain();
    assert Bind(keys, order[..0]) == Initial(keys);
    BindStep(keys, order, 0);
    BindStep(keys, order, 1);
    BindStep(keys, order, 2);
    assert Bind(keys, order[..3]) == Initial(keys);
    BindStep(keys, order, 3);
    BindStep(keys, order, 4);
    assert Bind(keys, order[..5]) == Make(Initial(keys), order[3]);
    BindStep(keys, order, 5);
    assert order[..6] == order;
  }

  lemma {:induction false} ChainWellFormed()
    ensures WellFormed(Listing(Chain())) && |Listing(Chain())| == 6 && KeysOf(Listing(Chain())) == ChainKeys()
  {
    var t := Chain();
    assert forall i, j :: 0 <= i < j < 6 ==> t[i].from != t[j].from;
    forall c | c in t ensures Swap(c) in t && c.from != c.to {
      assert Swap(t[0]) == t[5] && Swap(t[1]) == t[2] && Swap(t[3]) == t[4];
    }
    DistinctCount(t);
    ChainHasKeys();
  }

  lemma {:induction false} ChainHasKeys()
    ensures KeysOf(Listing(Chain())) == ChainKeys()
  {
    var t := Chain();
    assert KeyOf(t[0].from) == ("a", "p") && KeyOf(t[2].from) == ("b", "p");
    assert KeyOf(t[3].from) == ("y", "p") && KeyOf(t[4].from) == ("z", "p");
    assert t[0] in Listing(t) && t[2] in Listing(t) && t[3] in Listing(t) && t[4] in Listing(t);
  }

  /** The same connections in another order. */
  function Reordered(): seq<Conn> {
    var t := Chain();
    [t[3], t[5], t[1], t[0], t[2], t[4]]
  }

  /**
   Processing the connections in sorted order does not guarantee that one direction of each
   can be bound: here a well-formed configuration is rejected although another order binds it.
   */
  lemma {:induction false} SortedCanFail()
    ensures Sorted(Chain()) && WellFormed(Listing(Chain())) && multiset(Reordered()) == multiset(Chain())
    ensures !Succeeds(Listing(Chain()), Bind(KeysOf(Listing(Chain())), Chain()))
    ensures Succeeds(Listing(Chain()), Bind(KeysOf(Listing(Chain())), Reordered()))
  {
    ChainSorted();
    ChainWellFormed();
    ChainBinds();
    ReorderedBinds();
    ReorderedIsPermuted();
  }

  lemma {:induction false} ReorderedIsPermuted()
    ensures multiset(Reordered()) == multiset(Chain())
  {
    var t, u := Chain(), Reordered();
    assert forall i, j :: 0 <= i < j < 6 ==> t[i].from != t[j].from;
    assert t[0] == u[3] && t[1] == u[2] && t[2] == u[4] && t[3] == u[0] && t[4] == u[5] && t[5] == u[1];
    SameListing(u, t);
  }

  lemma {:induction false} ReorderedBinds()
    ensures |Bind(ChainKeys(), Reordered()).made| == 3
  {
    var keys, order := ChainKeys(), Reordered();
    assert Bind(keys, order[..0]) == Initial(keys);
    BindStep(keys, order, 0);
    BindStep(keys, order, 1);
    BindStep(keys, order, 2);
    var s := Bind(keys, order[..3]);
    assert |s.made| == 3;
    assert !Bindable(s, order[3]) && !Bindable(s, order[4]) && !Bindable(s, order[5]);
    BindStep(keys, order, 3);
    BindStep(keys, order, 4);
    BindStep(keys, order, 5);
    assert order[..6] == order;
  }

  // ---------------------------------------------------------------- as written

  /** `gather_port_connections` for all objects, in any order of the ports. */
  method Gather(cfg: Config) returns (conns: seq<Conn>)
    ensures Describes(Listing(conns), cfg)
    ensures forall i, j :: 0 <= i < j < |conns| ==> conns[i] != conns[j]
  {
    conns := [];
    var left := cfg.Keys;
    while left != {}
      invariant left <= cfg.Keys
      invariant forall c :: c in conns <==> Listed(cfg, c) && KeyOf(c.from) !in left
      invariant forall i, j :: 0 <= i < j < |conns| ==> conns[i] != conns[j]
      decreases left
    {
      var k :| k in left;
      for i := 0 to |cfg[k]|
        invariant forall c :: c in conns <==>
                    Listed(cfg, c) && (KeyOf(c.from) !in left || (KeyOf(c.from) == k && c.from.index < i))
        invariant forall i, j :: 0 <= i < j < |conns| ==> conns[i] != conns[j]
      {
        conns := conns + [Conn(Port(k.0, k.1, i), cfg[k][i])];
      }
      left := left - {k};
    }
  }

  /**
   `bind_ports`; `order` is the sorted connection list, and the caller lists every
   connection in both directions. None is its exception.
   */
  method BindPorts(conns: seq<Conn>, order: seq<Conn>) returns (made: Option<seq<Conn>>)
    requires multiset(order) == multiset(conns)
    requires forall i :: 0 <= i < |conns| ==> Swap(conns[i]) in conns
    ensures MadeFrom(Listing(conns), order)
    ensures var s := Bind(KeysOf(Listing(conns)), order);
            made == if |s.made| * 2 == |conns| then Some(s.made) else None
  {
    ghost var cs := Listing(conns);
    var indices: map<Key, nat> := map[];
    for i := 0 to |conns|
      invariant indices == Initial(KeysOf(Listing(conns[..i]))).next
    {
      assert Listing(conns[..i + 1]) == Listing(conns[..i]) + {conns[i]};
      indices := indices[KeyOf(conns[i].from) := 0];
    }
    assert conns[..|conns|] == conns;
    var todo: seq<Conn> := [];
    for i := 0 to |order|
      invariant State(indices, todo) == Bind(KeysOf(cs), order[..i])
    {
      var c := order[i];
      BindStep(KeysOf(cs), order, i);
      if Bindable(State(indices, todo), c) {
        todo := todo + [c];
        indices := Increment(Increment(indices, KeyOf(c.from)), KeyOf(c.to));
      }
    }
    assert order[..|order|] == order;
    forall i | 0 <= i < |order| ensures order[i] in cs {
      assert order[i] in multiset(order);
    }
    if |todo| * 2 != |conns| {
      return None;
    }
    return Some(todo);
  }

  lemma {:induction false} DistinctCount(conns: seq<Conn>)
    requires forall i, j :: 0 <= i < j < |conns| ==> conns[i] != conns[j]
    ensures |Listing(conns)| == |conns|
  {
    if conns == [] {
      assert Listing(conns) == {};
    } else {
      var n := |conns| - 1;
      DistinctCount(conns[..n]);
      assert Listing(conns) == Listing(conns[..n]) + {conns[n]};
    }
  }

  // ---------------------------------------------------------------- the whole script

  /** The file lists every connection at both its ends, at the right index, and no port is its own peer. */
  ghost predicate Symmetric(cfg: Config) {
    forall c :: Listed(cfg, c) ==> Listed(cfg, Swap(c)) && c.from != c.to
  }

  lemma {:induction false} SymmetricIsWellFormed(cfg: Config, cs: set<Conn>)
    requires Symmetric(cfg) && Describes(cs, cfg)
    ensures WellFormed(cs) && NoGaps(cs)
  {
    forall a, b | a in cs && b in cs && a.from == b.from ensures a == b {
      assert Listed(cfg, a) && Listed(cfg, b);
    }
    forall c | c in cs ensures Swap(c) in cs && c.from != c.to {
      assert Listed(cfg, c);
    }
    forall p, i: nat | p in Ends(cs) && i < p.index ensures Port(p.obj, p.port, i) in Ends(cs) {
      var c :| c in cs && c.from == p;
      assert Listed(cfg, c);
      var q := Port(p.obj, p.port, i);
      assert Listed(cfg, Conn(q, cfg[KeyOf(p)][i]));
      assert Conn(q, cfg[KeyOf(p)][i]) in cs;
    }
  }

  /** Two lists without repetition that hold the same connections are permutations of each other. */
  lemma {:induction false} SameListing(a: seq<Conn>, b: seq<Conn>)
    requires Unrepeated(a) && Unrepeated(b) && Listing(a) == Listing(b)
    ensures multiset(a) == multiset(b)
  {
    forall c ensures multiset(a)[c] == multiset(b)[c] {
      CountIs(a, c);
      CountIs(b, c);
      assert c in Listing(a) <==> c in Listing(b);
    }
  }

  ghost predicate Unrepeated(s: seq<Conn>) {
    forall i, j :: 0 <= i < j < |s| ==> s[i] != s[j]
  }

  lemma {:induction false} CountIs(s: seq<Conn>, c: Conn)
    requires Unrepeated(s)
    ensures multiset(s)[c] == if c in s then 1 else 0
  {
    if s != [] {
      assert s == [s[0]] + s[1..];
      CountIs(s[1..], c);
    }
  }

  /** A port that is listed without peers gets none. */
  lemma {:induction false} EmptyPortStays(cfg: Config, cs: set<Conn>, made: seq<Conn>, k: Key)
    requires WellFormed(cs) && Describes(cs, cfg) && MadeFrom(cs, made)
    requires k in cfg && cfg[k] == []
    ensures PeersOf(made, k) == []
  {
    if made != [] {
      var n := |made| - 1;
      EmptyPortStays(cfg, cs, made[..n], k);
      assert made[n] in cs && Swap(made[n]) in cs;
      assert Listed(cfg, made[n]) && Listed(cfg, Swap(made[n]));
    }
  }

  lemma {:induction false} PeersStep(made: seq<Conn>, i: nat, k: Key)
    requires i < |made|
    ensures PeersOf(made[..i + 1], k) == PeersOf(made[..i], k) + Appends(made[i], k)
  {
    assert made[..i + 1][..i] == made[..i];
  }

  /** Binding one connection appends it at both its ends. */
  method Connect(peers: Config, c: Conn) returns (after: Config)
    requires KeyOf(c.from) in peers && KeyOf(c.to) in peers
    ensures after.Keys == peers.Keys && forall k :: k in peers ==> after[k] == peers[k] + Appends(c, k)
  {
    after := peers[KeyOf(c.from) := peers[KeyOf(c.from)] + [c.to]];
    after := after[KeyOf(c.to) := after[KeyOf(c.to)] + [c.from]];
  }

  /** The binding loop. */
  method MakeConnections(keys: set<Key>, made: seq<Conn>) returns (peers: Config)
    requires forall i :: 0 <= i < |made| ==> KeyOf(made[i].from) in keys && KeyOf(made[i].to) in keys
    ensures peers.Keys == keys && forall k :: k in keys ==> peers[k] == PeersOf(made, k)
  {
    peers := map k | k in keys :: [];
    for i := 0 to |made|
      invariant peers.Keys == keys && forall k :: k in keys ==> peers[k] == PeersOf(made[..i], k)
    {
      forall k { PeersStep(made, i, k); }
      peers := Connect(peers, made[i]);
    }
    assert made[..|made|] == made;
  }

  lemma {:induction false} AllRebuilt(cfg: Config, cs: set<Conn>, order: seq<Conn>, peers: Config)
    requires WellFormed(cs) && Describes(cs, cfg) && MadeFrom(cs, order)
    requires Succeeds(cs, Bind(KeysOf(cs), order)) && MadeFrom(cs, Bind(KeysOf(cs), order).made)
    requires peers.Keys == cfg.Keys
    requires forall k :: k in cfg ==> peers[k] == PeersOf(Bind(KeysOf(cs), order).made, k)
    ensures peers == cfg
  {
    forall k | k in cfg ensures peers[k] == cfg[k] {
      if cfg[k] == [] {
        EmptyPortStays(cfg, cs, Bind(KeysOf(cs), order).made, k);
      } else {
        PeersRebuilt(cfg, cs, order, k);
      }
    }
  }

  /**
   The whole script on the ports of a symmetric file, with its connections processed in some
   order: either it raises, exactly if no choice of directions ascends in every port, or it
   rebuilds every port of the file, empty ones included.
   */
  method RebuildPorts(cfg: Config, order: seq<Conn>) returns (peers: Option<Config>)
    requires Symmetric(cfg) && Unrepeated(order) && Describes(Listing(order), cfg)
    ensures peers.Some? <==> exists pick :: Ascends(Listing(order), order, pick)
    ensures peers.Some? ==> peers.value == cfg
  {
    ghost var cs := Listing(order);
    SymmetricIsWellFormed(cfg, cs);
    BindsIff(cs, order);
    var made := BindSymmetric(cfg, order);
    if made == None {
      return None;
    }
    BindConsistent(cs, order);
    MadeHasKeys(cfg, cs, made.value);
    var all := MakeConnections(cfg.Keys, made.value);
    AllRebuilt(cfg, cs, order, all);
    return Some(all);
  }

  /** Gathering the connections and choosing which to make. */
  method BindSymmetric(cfg: Config, order: seq<Conn>) returns (made: Option<seq<Conn>>)
    requires Symmetric(cfg) && Unrepeated(order) && Describes(Listing(order), cfg)
    ensures MadeFrom(Listing(order), order)
    ensures var s := Bind(KeysOf(Listing(order)), order);
            made == if Succeeds(Listing(order), s) then Some(s.made) else None
  {
    var conns := Gather(cfg);
    SameDescription(cfg, Listing(conns), Listing(order));
    SameListing(order, conns);
    DistinctCount(conns);
    SymmetricIsWellFormed(cfg, Listing(conns));
    assert forall c :: c in conns ==> c in Listing(conns);
    made := BindPorts(conns, order);
  }

  lemma {:induction false} SameDescription(cfg: Config, a: set<Conn>, b: set<Conn>)
    requires Describes(a, cfg) && Describes(b, cfg)
    ensures a == b
  {
    forall c ensures c in a <==> c in b {
      assert c in a <==> Listed(cfg, c);
    }
  }

  lemma {:induction false} MadeHasKeys(cfg: Config, cs: set<Conn>, made: seq<Conn>)
    requires WellFormed(cs) && Describes(cs, cfg) && MadeFrom(cs, made)
    ensures forall i :: 0 <= i < |made| ==> KeyOf(made[i].from) in cfg && KeyOf(made[i].to) in cfg
  {
    forall i | 0 <= i < |made| ensures KeyOf(made[i].from) in cfg && KeyOf(made[i].to) in cfg {
      assert made[i] in cs && Swap(made[i]) in cs;
      assert Listed(cfg, made[i]) && Listed(cfg, Swap(made[i]));
    }
  }
}
