/**
 Connecting a GPU to Ruby: configs/ruby/GPU_VIPER.py builds one flat list of sequencers, and
 configs/example/apu_se.py walks it with a running index to attach compute units (CUs) and
 command processors (CPs).
 */
module GpuPorts {
  import opened Arithmetic

  datatype Options = Options(cpus: nat, cus: nat, cuPerSqc: nat, cuPerScalar: nat, cps: nat, wavefront: nat)

  /** What the scripts ask of their options. */
  predicate Accepted(o: Options) {
    o.cus >= 1 && o.cuPerSqc >= 1 && o.cuPerScalar >= 1
  }

  /** `ceil(n / d)`. */
  function CeilDiv(n: nat, d: nat): nat
    requires d >= 1
  {
    (n + d - 1) / d
  }

  function NumSqc(o: Options): nat
    requires Accepted(o)
  {
    CeilDiv(o.cus, o.cuPerSqc)
  }

  function NumScalar(o: Options): nat
    requires Accepted(o)
  {
    CeilDiv(o.cus, o.cuPerScalar)
  }

  /** The sequencers: two for each pair of CPUs, one for each TCP, SQC and scalar cache, two for each CP. */
  datatype Sequencer = Cpu(pair: nat, second: bool) | Gpu(kind: Kind, i: nat) | CpData(i: nat) | CpInst(i: nat)

  datatype Kind = Tcp | Sqc | Scalar

  // ---------------------------------------------------------------- the list

  function Pairs(n: nat): (r: seq<Sequencer>)
    ensures |r| == 2 * n
  {
    if n == 0 then [] else Pairs(n - 1) + [Cpu(n - 1, false), Cpu(n - 1, true)]
  }

  function Each(n: nat, kind: Kind): (r: seq<Sequencer>)
    ensures |r| == n && forall i :: 0 <= i < n ==> r[i] == Gpu(kind, i)
  {
    seq(n, i requires 0 <= i < n => Gpu(kind, i))
  }

  function CmdProcs(n: nat): (r: seq<Sequencer>)
    ensures |r| == 2 * n
    ensures forall i :: 0 <= i < n ==> r[2 * i] == CpData(i) && r[2 * i + 1] == CpInst(i)
  {
    if n == 0 then [] else CmdProcs(n - 1) + [CpData(n - 1), CpInst(n - 1)]
  }

  /** The list with these numbers of CPU pairs, TCPs, SQCs, scalar caches and CPs. */
  function Layout(pairs: nat, tcps: nat, sqcs: nat, scalars: nat, cps: nat): (r: seq<Sequencer>)
    ensures |r| == 2 * pairs + tcps + sqcs + scalars + 2 * cps
  {
    Pairs(pairs) + Each(tcps, Tcp) + Each(sqcs, Sqc) + Each(scalars, Scalar) + CmdProcs(cps)
  }

  function Sequencers(o: Options): seq<Sequencer>
    requires Accepted(o)
  {
    Layout((o.cpus + 1) / 2, o.cus, NumSqc(o), NumScalar(o), o.cps)
  }

  method ConstructCorePairs(o: Options) returns (r: seq<Sequencer>)
    ensures r == Pairs((o.cpus + 1) / 2)
  {
    r := [];
    for i := 0 to (o.cpus + 1) / 2
      invariant r == Pairs(i)
    {
      r := r + [Cpu(i, false), Cpu(i, true)];
    }
  }

  /** The loops of `construct_tcps`, `construct_sqcs` and `construct_scalars`. */
  method Construct(n: nat, kind: Kind) returns (r: seq<Sequencer>)
    ensures r == Each(n, kind)
  {
    r := [];
    for i := 0 to n
      invariant r == Each(i, kind)
    {
      r := r + [Gpu(kind, i)];
    }
  }

  method ConstructCmdProcs(o: Options) returns (r: seq<Sequencer>)
    ensures r == CmdProcs(o.cps)
  {
    r := [];
    for i := 0 to o.cps
      invariant r == CmdProcs(i)
    {
      r := r + [CpData(i)];
      r := r + [CpInst(i)];
    }
  }

  /** `create_system`, as far as the sequencers go. */
  method CreateSystem(o: Options) returns (ports: seq<Sequencer>)
    requires Accepted(o)
    ensures ports == Sequencers(o)
  {
    ports := ConstructCorePairs(o);
    var tcps := Construct(o.cus, Tcp);
    ports := ports + tcps;
    var sqcs := Construct(NumSqc(o), Sqc);
    ports := ports + sqcs;
    var scalars := Construct(NumScalar(o), Scalar);
    ports := ports + scalars;
    var cmdprocs := ConstructCmdProcs(o);
    ports := ports + cmdprocs;
  }

  lemma {:induction false} PairAt(n: nat, i: nat)
    requires i < 2 * n
    ensures Pairs(n)[i] == Cpu(i / 2, i % 2 == 1)
  {
    if i < 2 * (n - 1) {
      PairAt(n - 1, i);
    }
  }

  lemma {:induction false} PairsFirst(pairs: nat, tcps: nat, sqcs: nat, scalars: nat, cps: nat, i: nat)
    ensures i < 2 * pairs ==> Layout(pairs, tcps, sqcs, scalars, cps)[i] == Cpu(i / 2, i % 2 == 1)
  {
    if i < 2 * pairs {
      PairAt(pairs, i);
    }
  }

  /** The sequencers of the CPUs come first: enough of them, in pairs, and at most one to spare. */
  lemma {:induction false} CpuSequencers(o: Options, i: nat)
    requires Accepted(o)
    ensures i < o.cpus ==> i < |Sequencers(o)| && Sequencers(o)[i] == Cpu(i / 2, i % 2 == 1)
    ensures |Sequencers(o)| - o.cus - NumSqc(o) - NumScalar(o) - 2 * o.cps == o.cpus + o.cpus % 2
  {
    PairsFirst((o.cpus + 1) / 2, o.cus, NumSqc(o), NumScalar(o), o.cps, i);
  }

  /** The loop that attaches CPU `i` to the `i`-th sequencer. */
  method AttachCpus(o: Options, ports: seq<Sequencer>) returns (attached: seq<Sequencer>)
    requires Accepted(o) && ports == Sequencers(o)
    ensures |attached| == o.cpus && forall i :: 0 <= i < o.cpus ==> attached[i] == Cpu(i / 2, i % 2 == 1)
  {
    attached := [];
    for i := 0 to o.cpus
      invariant |attached| == i && forall k :: 0 <= k < i ==> attached[k] == Cpu(k / 2, k % 2 == 1)
    {
      CpuSequencers(o, i);
      attached := attached + [ports[i]];
    }
  }

  // ---------------------------------------------------------------- the walk

  /** What the ports of the CUs and the CPs are connected to. */
  datatype Wiring = Wiring(
    tokens: seq<Sequencer>,
    memory: seq<seq<(Sequencer, nat)>>,
    sqc: seq<Sequencer>,
    scalar: seq<Sequencer>,
    cpData: seq<Sequencer>,
    cpInst: seq<Sequencer>
  )

  lemma {:induction false} CeilIsLast(n: nat, d: nat)
    requires n >= 1 && d >= 1
    ensures CeilDiv(n, d) == (n - 1) / d + 1
  {
    DivIsTheOnly(n + d - 1, d, (n - 1) / d + 1);
  }

  /** How often a loop has moved on by its `i`-th turn, if it does so at the multiples of `per`. */
  function Moves(i: nat, per: nat): nat
    requires per >= 1
  {
    if i == 0 then 0 else Moves(i - 1, per) + (if i % per == 0 then 1 else 0)
  }

  lemma {:induction false} DivNext(q: nat, r: nat, d: nat)
    requires r < d
    ensures (q * d + r + 1) / d == (if r == d - 1 then q + 1 else q)
    ensures (q * d + r + 1) % d == 0 <==> r == d - 1
  {
    if r == d - 1 {
      DivModOfSum(q + 1, d, 0);
      assert (q + 1) * d == q * d + d;
    } else {
      DivModOfSum(q, d, r + 1);
    }
  }

  /** Moving on at the multiples of `per` is dividing by `per`. */
  lemma {:induction false} MovesIsDiv(i: nat, per: nat)
    requires per >= 1
    ensures Moves(i, per) == i / per
  {
    if i == 0 {
      DivModOfSum(0, per, 0);
    } else {
      MovesIsDiv(i - 1, per);
      DivNext((i - 1) / per, (i - 1) % per, per);
      assert i - 1 == (i - 1) / per * per + (i - 1) % per;
    }
  }

  lemma {:induction false} MovesGrow(i: nat, j: nat, per: nat)
    requires per >= 1 && i <= j
    ensures Moves(i, per) <= Moves(j, per)
  {
    if i < j {
      MovesGrow(i, j - 1, per);
    }
  }

  predicate PortOf(ports: seq<Sequencer>, start: nat, i: nat, per: nat, s: Sequencer)
    requires per >= 1
  {
    start + Moves(i, per) < |ports| && s == ports[start + Moves(i, per)]
  }

  /** A loop that moves on to the next sequencer every `per` CUs. */
  method WalkShared(ports: seq<Sequencer>, start: nat, n: nat, per: nat) returns (wired: seq<Sequencer>, idx: nat)
    requires n >= 1 && per >= 1 && start + Moves(n - 1, per) < |ports|
    ensures |wired| == n
    ensures forall i :: 0 <= i < n ==> PortOf(ports, start, i, per, wired[i])
    ensures idx == start + Moves(n - 1, per) + 1
  {
    wired := [];
    idx := start;
    for i := 0 to n
      invariant |wired| == i && idx == start + (if i == 0 then 0 else Moves(i - 1, per))
      invariant forall k {:trigger wired[k]} :: 0 <= k < i ==> PortOf(ports, start, k, per, wired[k])
    {
      if i > 0 && i % per == 0 {
        idx := idx + 1;
      }
      MovesGrow(i, n - 1, per);
      wired := wired + [ports[idx]];
    }
    idx := idx + 1;
  }

  /** On the stretch of the list that holds the caches of one kind, CU `i` gets the cache of its group. */
  method AttachShared(ports: seq<Sequencer>, start: nat, n: nat, per: nat, ghost kind: Kind)
    returns (wired: seq<Sequencer>, idx: nat)
    requires n >= 1 && per >= 1 && start + CeilDiv(n, per) <= |ports|
    requires ports[start..start + CeilDiv(n, per)] == Each(CeilDiv(n, per), kind)
    ensures |wired| == n && forall i :: 0 <= i < n ==> wired[i] == Gpu(kind, i / per)
    ensures idx == start + CeilDiv(n, per)
  {
    LastMove(n, per);
    wired, idx := WalkShared(ports, start, n, per);
    AllAttached(ports, start, n, per, kind, wired);
  }

  lemma {:induction false} LastMove(n: nat, per: nat)
    requires n >= 1 && per >= 1
    ensures Moves(n - 1, per) + 1 == CeilDiv(n, per)
  {
    CeilIsLast(n, per);
    MovesIsDiv(n - 1, per);
  }

  lemma {:induction false} AllAttached(ports: seq<Sequencer>, start: nat, n: nat, per: nat, kind: Kind,
                                       wired: seq<Sequencer>)
    requires per >= 1 && start + CeilDiv(n, per) <= |ports| && |wired| == n
    requires ports[start..start + CeilDiv(n, per)] == Each(CeilDiv(n, per), kind)
    requires forall i :: 0 <= i < n ==> PortOf(ports, start, i, per, wired[i])
    ensures forall i :: 0 <= i < n ==> wired[i] == Gpu(kind, i / per)
  {
    forall i | 0 <= i < n ensures wired[i] == Gpu(kind, i / per) {
      AttachedAt(ports, start, n, per, kind, i, wired[i]);
    }
  }

  lemma {:induction false} AttachedAt(ports: seq<Sequencer>, start: nat, n: nat, per: nat, kind: Kind, i: nat,
                                      s: Sequencer)
    requires i < n && per >= 1 && start + CeilDiv(n, per) <= |ports|
    requires ports[start..start + CeilDiv(n, per)] == Each(CeilDiv(n, per), kind)
    requires PortOf(ports, start, i, per, s)
    ensures s == Gpu(kind, i / per)
  {
    MovesIsDiv(i, per);
    CeilIsLast(n, per);
    DivMonotone(i, n - 1, per);
    SliceAt(ports, start, CeilDiv(n, per), i / per);
  }

  lemma {:induction false} SliceAt(ports: seq<Sequencer>, start: nat, n: nat, i: nat)
    requires start + n <= |ports| && i < n
    ensures ports[start + i] == ports[start..start + n][i]
  {
  }

  /** Only the TCPs of the CUs are coalescers. */
  predicate IsCoalescer(s: Sequencer) {
    s.Gpu? && s.kind == Tcp
  }

  /** The coalescers of a list, in order. */
  function Coalescers(ports: seq<Sequencer>): seq<Sequencer> {
    if ports == [] then []
    else if IsCoalescer(ports[|ports| - 1]) then Coalescers(ports[..|ports| - 1]) + [ports[|ports| - 1]]
    else Coalescers(ports[..|ports| - 1])
  }

  /** The search for the token ports. */
  method WalkTokens(ports: seq<Sequencer>) returns (tokens: seq<Sequencer>)
    ensures tokens == Coalescers(ports)
  {
    tokens := [];
    for i := 0 to |ports|
      invariant tokens == Coalescers(ports[..i])
    {
      assert ports[..i + 1][..i] == ports[..i];
      if IsCoalescer(ports[i]) {
        tokens := tokens + [ports[i]];
      }
    }
    assert ports[..|ports|] == ports;
  }

  /** Each CU gets its own coalescer, one port for each lane. */
  method AttachMemory(ports: seq<Sequencer>, start: nat, n: nat, wavefront: nat)
    returns (memory: seq<seq<(Sequencer, nat)>>, idx: nat)
    requires start + n <= |ports| && ports[start..start + n] == Each(n, Tcp)
    ensures |memory| == n && idx == start + n
    ensures forall i :: 0 <= i < n ==> memory[i] == Lanes(Gpu(Tcp, i), wavefront)
  {
    memory, idx := [], start;
    for i := 0 to n
      invariant |memory| == i && idx == start + i
      invariant forall k :: 0 <= k < i ==> memory[k] == Lanes(Gpu(Tcp, k), wavefront)
    {
      SliceAt(ports, start, n, i);
      var lanes := [];
      for j := 0 to wavefront
        invariant lanes == Lanes(ports[idx], j)
      {
        lanes := lanes + [(ports[idx], j)];
      }
      memory := memory + [lanes];
      idx := idx + 1;
    }
  }

  /** Lane `j` of a CU uses the `j`-th port of the sequencer. */
  function Lanes(s: Sequencer, n: nat): (r: seq<(Sequencer, nat)>)
    ensures |r| == n && forall j :: 0 <= j < n ==> r[j] == (s, j)
  {
    seq(n, j => (s, j))
  }

  /** Each CP gets its own pair of sequencers. */
  method AttachCps(ports: seq<Sequencer>, start: nat, n: nat) returns (data: seq<Sequencer>, inst: seq<Sequencer>)
    requires start <= |ports| && ports[start..] == CmdProcs(n)
    ensures |data| == n && |inst| == n
    ensures forall i :: 0 <= i < n ==> data[i] == CpData(i) && inst[i] == CpInst(i)
  {
    data, inst := [], [];
    for i := 0 to n
      invariant |data| == i && |inst| == i
      invariant forall k :: 0 <= k < i ==> data[k] == CpData(k) && inst[k] == CpInst(k)
    {
      assert ports[start + i * 2] == ports[start..][2 * i] && ports[start + i * 2 + 1] == ports[start..][2 * i + 1];
      data := data + [ports[start + i * 2]];
      inst := inst + [ports[start + i * 2 + 1]];
    }
  }

  // ---------------------------------------------------------------- agreement

  lemma {:induction false} CoalescersConcat(a: seq<Sequencer>, b: seq<Sequencer>)
    ensures Coalescers(a + b) == Coalescers(a) + Coalescers(b)
  {
    if b == [] {
      assert a + b == a;
    } else {
      assert (a + b)[..|a + b| - 1] == a + b[..|b| - 1];
      CoalescersConcat(a, b[..|b| - 1]);
    }
  }

  lemma {:induction false} NoCoalescers(s: seq<Sequencer>)
    requires forall i :: 0 <= i < |s| ==> !IsCoalescer(s[i])
    ensures Coalescers(s) == []
  {
    if s != [] {
      NoCoalescers(s[..|s| - 1]);
    }
  }

  lemma {:induction false} OnlyCoalescers(s: seq<Sequencer>)
    requires forall i :: 0 <= i < |s| ==> IsCoalescer(s[i])
    ensures Coalescers(s) == s
  {
    if s != [] {
      OnlyCoalescers(s[..|s| - 1]);
      assert s == s[..|s| - 1] + [s[|s| - 1]];
    }
  }

  lemma {:induction false} PairsAreCpus(n: nat)
    ensures forall i :: 0 <= i < 2 * n ==> Pairs(n)[i].Cpu?
  {
    if n > 0 {
      PairsAreCpus(n - 1);
    }
  }

  lemma {:induction false} CmdProcsAreNot(n: nat)
    ensures forall i :: 0 <= i < 2 * n ==> !IsCoalescer(CmdProcs(n)[i])
  {
    if n > 0 {
      CmdProcsAreNot(n - 1);
    }
  }

  /** The token ports are those of the TCPs of the CUs, in order. */
  lemma {:induction false} TokensOfLayout(pairs: nat, tcps: nat, sqcs: nat, scalars: nat, cps: nat)
    ensures Coalescers(Layout(pairs, tcps, sqcs, scalars, cps)) == Each(tcps, Tcp)
  {
    var a, b, c, d, e := Pairs(pairs), Each(tcps, Tcp), Each(sqcs, Sqc), Each(scalars, Scalar), CmdProcs(cps);
    PairsAreCpus(pairs);
    CmdProcsAreNot(cps);
    NoCoalescers(a);
    OnlyCoalescers(b);
    NoCoalescers(c);
    NoCoalescers(d);
    NoCoalescers(e);
    CoalescersConcat(a + b + c + d, e);
    CoalescersConcat(a + b + c, d);
    CoalescersConcat(a + b, c);
    CoalescersConcat(a, b);
  }

  /** The stretches of the list behind the first `base` sequencers. */
  ghost predicate Stretches(ports: seq<Sequencer>, base: nat, tcps: nat, sqcs: nat, scalars: nat, cps: nat) {
    && |ports| == base + tcps + sqcs + scalars + 2 * cps
    && ports[base..base + tcps] == Each(tcps, Tcp)
    && ports[base + tcps..base + tcps + sqcs] == Each(sqcs, Sqc)
    && ports[base + tcps + sqcs..base + tcps + sqcs + scalars] == Each(scalars, Scalar)
    && ports[base + tcps + sqcs + scalars..] == CmdProcs(cps)
  }

  lemma {:induction false} StretchesOfLayout(pairs: nat, tcps: nat, sqcs: nat, scalars: nat, cps: nat)
    ensures Stretches(Layout(pairs, tcps, sqcs, scalars, cps), 2 * pairs, tcps, sqcs, scalars, cps)
  {
  }

  /** Every CU and CP is connected to its own sequencers, or to those of its group. */
  ghost predicate RightlyWired(o: Options, w: Wiring)
    requires Accepted(o)
  {
    && w.tokens == Each(o.cus, Tcp)
    && |w.memory| == |w.sqc| == |w.scalar| == o.cus
    && (forall i :: 0 <= i < o.cus ==> w.memory[i] == Lanes(Gpu(Tcp, i), o.wavefront))
    && (forall i :: 0 <= i < o.cus ==> w.sqc[i] == Gpu(Sqc, i / o.cuPerSqc))
    && (forall i :: 0 <= i < o.cus ==> w.scalar[i] == Gpu(Scalar, i / o.cuPerScalar))
    && |w.cpData| == |w.cpInst| == o.cps
    && (forall i :: 0 <= i < o.cps ==> w.cpData[i] == CpData(i) && w.cpInst[i] == CpInst(i))
  }

  /** The wiring loops on the list that `create_system` built. */
  method Wire(o: Options, ports: seq<Sequencer>) returns (w: Wiring)
    requires Accepted(o) && ports == Sequencers(o)
    ensures RightlyWired(o, w)
  {
    SequencersAre(o);
    w := WireStretches(o, ports, NumSqc(o), NumScalar(o), 2 * ((o.cpus + 1) / 2));
  }

  lemma {:induction false} SequencersAre(o: Options)
    requires Accepted(o)
    ensures Stretches(Sequencers(o), 2 * ((o.cpus + 1) / 2), o.cus, NumSqc(o), NumScalar(o), o.cps)
    ensures Coalescers(Sequencers(o)) == Each(o.cus, Tcp)
  {
    var pairs := (o.cpus + 1) / 2;
    StretchesOfLayout(pairs, o.cus, NumSqc(o), NumScalar(o), o.cps);
    TokensOfLayout(pairs, o.cus, NumSqc(o), NumScalar(o), o.cps);
  }

  method WireStretches(o: Options, ports: seq<Sequencer>, sqcs: nat, scalars: nat, ghost base: nat) returns (w: Wiring)
    requires Accepted(o) && sqcs == CeilDiv(o.cus, o.cuPerSqc) && scalars == CeilDiv(o.cus, o.cuPerScalar)
    requires Stretches(ports, base, o.cus, sqcs, scalars, o.cps) && Coalescers(ports) == Each(o.cus, Tcp)
    ensures RightlyWired(o, w)
  {
    var idx: int := |ports| - o.cus - sqcs - scalars;
    idx := idx - o.cps * 2;
    var tokens := WalkTokens(ports);
    var memory, sqc, scalar, cpData, cpInst;
    memory, idx := AttachMemory(ports, idx, o.cus, o.wavefront);
    sqc, idx := AttachShared(ports, idx, o.cus, o.cuPerSqc, Sqc);
    scalar, idx := AttachShared(ports, idx, o.cus, o.cuPerScalar, Scalar);
    cpData, cpInst := AttachCps(ports, idx, o.cps);
    w := Wiring(tokens, memory, sqc, scalar, cpData, cpInst);
  }
}
