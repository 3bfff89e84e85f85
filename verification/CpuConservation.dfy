/**
 What the walked sum measures while the process table changes.

 The kernel's bookkeeping: a process runs, forks, exits (its children pass to init) and is reaped
 (its ticks pass to its parent).  The sum over the watched members obeys an exact conservation law,
 from which follows when it can and when it cannot fall.
 */
module CpuConservation {
  import opened ProcTree
  import opened ProcWork
  import opened Sets

  const INIT := 1

  ghost function Counted(nodes: Table, roots: seq<int>, excluded: int): set<int> {
    Members(nodes, roots) - (if excluded > 0 then {excluded} else {})
  }

  /** The watched CPU ticks, as a sum over a set of processes. */
  ghost function Cpu(nodes: Table, roots: seq<int>, excluded: int): nat {
    Total(Ticks(nodes), Counted(nodes, roots, excluded))
  }

  // ------------------------------------------------- the walked sum is a set's sum

  /** Whatever order the walk emits, its sum is the sum over the watched members. */
  lemma WalkedSum(nodes: Table, roots: seq<int>, procs: seq<Proc>, excluded: int)
    requires Shows(nodes, roots, procs)
    ensures Sum(procs, excluded).cpuTicks == Cpu(nodes, roots, excluded)
    ensures Sum(procs, excluded).ioBytes == Total(Bytes(nodes), Counted(nodes, roots, excluded))
  {
    WalkShowsMembers(nodes, roots, procs);
    SumOverSet(nodes, procs, excluded);
  }

  /** Between two samples, of whatever roots were watched at each: when no watched process joins and no
      counter of one rises, the later sum is no advance, whatever left in between. */
  lemma NoFalseAdvance(before: Table, after: Table, roots: seq<int>, roots': seq<int>, excluded: int,
                       p: seq<Proc>, q: seq<Proc>)
    requires Shows(before, roots, p) && Shows(after, roots', q)
    requires Members(after, roots') <= Members(before, roots)
    requires forall n :: n in Members(after, roots') ==>
               after[n].ticks <= before[n].ticks && after[n].ioBytes <= before[n].ioBytes
    ensures !Sum(q, excluded).AdvancedFrom(Sum(p, excluded))
  {
    WalkedSum(before, roots, p, excluded);
    WalkedSum(after, roots', q, excluded);
    TotalMonotone(Ticks(after), Counted(after, roots', excluded), Ticks(before), Counted(before, roots, excluded));
    TotalMonotone(Bytes(after), Counted(after, roots', excluded), Bytes(before), Counted(before, roots, excluded));
  }

  /** Nor is what the 64-bit counters hold of it, as long as the earlier sum fits them; and a rise of the
      sum shows in them, as long as the later sum does. */
  lemma CountersFollow(before: Work, after: Work)
    ensures before.Fits() && !after.AdvancedFrom(before) ==> !after.Wrapped().AdvancedFrom(before.Wrapped())
    ensures after.cpuTicks < TWO_64 && before.cpuTicks <= after.cpuTicks ==>
              after.Wrapped().cpuTicks - before.Wrapped().cpuTicks == after.cpuTicks - before.cpuTicks
    ensures after.ioBytes < TWO_64 && before.ioBytes <= after.ioBytes ==>
              after.Wrapped().ioBytes - before.Wrapped().ioBytes == after.ioBytes - before.ioBytes
  {
    if before.Fits() && !after.AdvancedFrom(before) {
      FitsUnwrapped(before);
      FitsUnwrapped(after);
    }
  }

  // ------------------------------------------------------------ the kernel's steps

  /** Parents are alive; init is its own tree's top. */
  ghost predicate Kernel(nodes: Table) {
    && (forall n :: n in nodes ==>
          && 0 < n && nodes[n].pid == n
          && (nodes[n].ppid == 0 || (nodes[n].ppid in nodes && !nodes[nodes[n].ppid].zombie)))
    && INIT in nodes && nodes[INIT].ppid == 0 && !nodes[INIT].zombie
  }

  ghost predicate AllLive(nodes: Table, roots: seq<int>) {
    forall r :: r in roots ==> LiveRoot(nodes, roots, r)
  }

  datatype Act = Run(p: int, ticks: nat) | Fork(p: int, c: int) | Exit(x: int) | Reap(c: int)

  ghost predicate CanAct(nodes: Table, a: Act) {
    match a
    case Run(p, _) => p in nodes && !nodes[p].zombie
    case Fork(p, c) => p in nodes && !nodes[p].zombie && c !in nodes && 0 < c
    case Exit(x) => x in nodes && !nodes[x].zombie && x != INIT
    case Reap(c) => c in nodes && nodes[c].zombie && nodes[c].ppid in nodes
  }

  ghost function Orphaned(x: int, q: Proc): Proc { if q.ppid == x then q.(ppid := INIT) else q }

  ghost function DoAct(nodes: Table, a: Act): Table
    requires CanAct(nodes, a)
  {
    match a
    case Run(p, d) => nodes[p := nodes[p].(ticks := nodes[p].ticks + d)]
    case Fork(p, c) => nodes[c := Proc(c, p, 0, 0, false)]
    case Exit(x) => map n | n in nodes :: if n == x then Orphaned(x, nodes[n]).(zombie := true) else Orphaned(x, nodes[n])
    case Reap(c) =>
      var p := nodes[c].ppid;
      (map n | n in nodes && n != c :: if n == p then nodes[n].(ticks := nodes[n].ticks + nodes[c].ticks) else nodes[n])
  }

  /** The watched roots outlive the run. */
  ghost predicate Keeps(roots: seq<int>, a: Act) { a.Exit? ==> a.x !in roots }

  lemma KernelKept(nodes: Table, roots: seq<int>, a: Act)
    requires Kernel(nodes) && AllLive(nodes, roots) && CanAct(nodes, a) && Keeps(roots, a)
    ensures Kernel(DoAct(nodes, a)) && AllLive(DoAct(nodes, a), roots)
  {
  }

  /** Parent links away from the childless process c carry over. */
  lemma {:induction false} BelowCarries(nodes: Table, nodes': Table, r: int, n: int, k: nat, c: int)
    requires Below(nodes, r, n, k) && n != c
    requires forall m :: m in nodes && nodes[m].ppid in nodes ==> nodes[m].ppid != c
    requires forall m :: m in nodes && m != c ==> m in nodes' && nodes'[m].ppid == nodes[m].ppid
    ensures Below(nodes', r, n, k)
    decreases k
  {
    if k > 0 {
      BelowCarries(nodes, nodes', r, nodes[n].ppid, k - 1, c);
    }
  }

  lemma MembersCarry(nodes: Table, nodes': Table, roots: seq<int>, c: int)
    requires AllLive(nodes, roots) && AllLive(nodes', roots)
    requires forall m :: m in nodes && nodes[m].ppid in nodes ==> nodes[m].ppid != c
    requires forall m :: m in nodes && m != c ==> m in nodes' && nodes'[m].ppid == nodes[m].ppid
    ensures Members(nodes, roots) - {c} <= Members(nodes', roots)
  {
    forall n | n in Members(nodes, roots) - {c} ensures n in Members(nodes', roots) {
      var r, k: nat :| LiveRoot(nodes, roots, r) && Below(nodes, r, n, k);
      BelowCarries(nodes, nodes', r, n, k, c);
      assert LiveRoot(nodes', roots, r);
    }
  }

  lemma ParentOfMember(nodes: Table, roots: seq<int>, n: int)
    requires n in nodes && n !in roots
    ensures n in Members(nodes, roots) <==> nodes[n].ppid in Members(nodes, roots)
  {
    if n in Members(nodes, roots) {
      var r, k: nat :| LiveRoot(nodes, roots, r) && Below(nodes, r, n, k);
      assert k > 0;
      assert Below(nodes, r, nodes[n].ppid, k - 1);
    }
    MembersClosed(nodes, roots);
  }

  // ------------------------------------------------------- what an exit takes away

  /** As Below, but through no parent link to x. */
  ghost predicate BelowAvoiding(nodes: Table, r: int, x: int, n: int, k: nat)
    decreases k
  {
    n in nodes && if k == 0 then n == r
                  else nodes[n].ppid != x && BelowAvoiding(nodes, r, x, nodes[n].ppid, k - 1)
  }

  /** The members that hang from a root only through x. */
  ghost function Orphans(nodes: Table, roots: seq<int>, x: int): set<int> {
    set n | n in Members(nodes, roots)
            && !exists r, k: nat :: LiveRoot(nodes, roots, r) && BelowAvoiding(nodes, r, x, n, k)
  }

  lemma {:induction false} AvoidingStays(nodes: Table, r: int, x: int, n: int, k: nat)
    requires Kernel(nodes) && CanAct(nodes, Exit(x)) && BelowAvoiding(nodes, r, x, n, k)
    ensures Below(DoAct(nodes, Exit(x)), r, n, k) && Below(nodes, r, n, k)
    decreases k
  {
    if k > 0 {
      AvoidingStays(nodes, r, x, nodes[n].ppid, k - 1);
    }
  }

  lemma NotBelowTop(nodes: Table, r: int, top: int, k: nat)
    requires r != top && (top in nodes ==> nodes[top].ppid !in nodes)
    ensures !Below(nodes, r, top, k)
  {
    if k > 0 {
      assert top in nodes ==> !Below(nodes, r, nodes[top].ppid, k - 1);
    }
  }

  lemma {:induction false} StayingAvoids(nodes: Table, r: int, x: int, n: int, k: nat)
    requires Kernel(nodes) && CanAct(nodes, Exit(x)) && r != INIT && Below(DoAct(nodes, Exit(x)), r, n, k)
    ensures BelowAvoiding(nodes, r, x, n, k)
    decreases k
  {
    if k > 0 {
      NotBelowTop(DoAct(nodes, Exit(x)), r, INIT, k - 1);
      StayingAvoids(nodes, r, x, nodes[n].ppid, k - 1);
    }
  }

  lemma ExitMembers(nodes: Table, roots: seq<int>, x: int)
    requires Kernel(nodes) && AllLive(nodes, roots) && CanAct(nodes, Exit(x)) && x !in roots && INIT !in roots
    ensures Members(DoAct(nodes, Exit(x)), roots) == Members(nodes, roots) - Orphans(nodes, roots, x)
  {
    var nodes' := DoAct(nodes, Exit(x));
    KernelKept(nodes, roots, Exit(x));
    forall n | n in Members(nodes', roots) ensures n in Members(nodes, roots) - Orphans(nodes, roots, x) {
      var r, k: nat :| LiveRoot(nodes', roots, r) && Below(nodes', r, n, k);
      StayingAvoids(nodes, r, x, n, k);
      AvoidingStays(nodes, r, x, n, k);
      assert LiveRoot(nodes, roots, r);
    }
    forall n | n in Members(nodes, roots) - Orphans(nodes, roots, x) ensures n in Members(nodes', roots) {
      var r, k: nat :| LiveRoot(nodes, roots, r) && BelowAvoiding(nodes, r, x, n, k);
      AvoidingStays(nodes, r, x, n, k);
      assert LiveRoot(nodes', roots, r);
    }
  }

  /** A process without children leaves no orphans. */
  lemma LeafLeavesNone(nodes: Table, roots: seq<int>, x: int)
    requires forall n :: n in nodes ==> nodes[n].ppid != x
    ensures Orphans(nodes, roots, x) == {}
  {
    forall n | n in Members(nodes, roots) ensures n !in Orphans(nodes, roots, x) {
      var r, k: nat :| LiveRoot(nodes, roots, r) && Below(nodes, r, n, k);
      LeafAvoids(nodes, r, x, n, k);
    }
  }

  lemma {:induction false} LeafAvoids(nodes: Table, r: int, x: int, n: int, k: nat)
    requires Below(nodes, r, n, k) && forall m :: m in nodes ==> nodes[m].ppid != x
    ensures BelowAvoiding(nodes, r, x, n, k)
    decreases k
  {
    if k > 0 {
      LeafAvoids(nodes, r, x, nodes[n].ppid, k - 1);
    }
  }

  // --------------------------------------------------------- the conservation law

  /** Ticks a step brings into the sum: what a counted process burns, and what a watched init adopts. */
  ghost function Gain(nodes: Table, roots: seq<int>, excluded: int, a: Act): nat
    requires CanAct(nodes, a)
  {
    match a
    case Run(p, d) => if p in Counted(nodes, roots, excluded) then d else 0
    case Exit(_) => if INIT in roots then Total(Ticks(nodes), Adopted(nodes, roots, excluded, a)) else 0
    case _ => 0
  }

  /** The counted processes after a step that were not counted before it. */
  ghost function Adopted(nodes: Table, roots: seq<int>, excluded: int, a: Act): set<int>
    requires CanAct(nodes, a)
  {
    Counted(DoAct(nodes, a), roots, excluded) - Counted(nodes, roots, excluded)
  }

  /** Ticks a step takes out of the sum: a reap into the excluded root, and the orphans of an exit
      if they pass to an init that is not watched. */
  ghost function Loss(nodes: Table, roots: seq<int>, excluded: int, a: Act): nat
    requires CanAct(nodes, a)
  {
    match a
    case Reap(c) => if c in Members(nodes, roots) && nodes[c].ppid == excluded then nodes[c].ticks else 0
    case Exit(x) =>
      if INIT in roots then 0 else Total(Ticks(nodes), Orphans(nodes, roots, x) - (if excluded > 0 then {excluded} else {}))
    case _ => 0
  }

  lemma RunLaw(nodes: Table, roots: seq<int>, excluded: int, p: int, d: nat)
    requires Kernel(nodes) && AllLive(nodes, roots) && CanAct(nodes, Run(p, d))
    ensures Cpu(DoAct(nodes, Run(p, d)), roots, excluded)
            == Cpu(nodes, roots, excluded) + Gain(nodes, roots, excluded, Run(p, d))
  {
    var nodes' := DoAct(nodes, Run(p, d));
    KernelKept(nodes, roots, Run(p, d));
    MembersCarry(nodes, nodes', roots, 0);
    MembersCarry(nodes', nodes, roots, 0);
    var s := Counted(nodes, roots, excluded);
    assert Counted(nodes', roots, excluded) == s;
    if p in s {
      TotalSplit(Ticks(nodes), s, p);
      TotalSplit(Ticks(nodes'), s, p);
    }
    TotalSame(Ticks(nodes), Ticks(nodes'), s - {p});
    assert p !in s ==> s - {p} == s;
  }

  lemma ForkLaw(nodes: Table, roots: seq<int>, excluded: int, p: int, c: int)
    requires Kernel(nodes) && AllLive(nodes, roots) && CanAct(nodes, Fork(p, c))
    ensures Cpu(DoAct(nodes, Fork(p, c)), roots, excluded) == Cpu(nodes, roots, excluded)
  {
    var nodes' := DoAct(nodes, Fork(p, c));
    KernelKept(nodes, roots, Fork(p, c));
    MembersCarry(nodes, nodes', roots, 0);
    MembersCarry(nodes', nodes, roots, c);
    var s, s' := Counted(nodes, roots, excluded), Counted(nodes', roots, excluded);
    TotalSame(Ticks(nodes), Ticks(nodes'), s);
    if c in s' {
      TotalSplit(Ticks(nodes'), s', c);
      assert s' - {c} == s;
    } else {
      assert s' == s;
    }
  }

  lemma ReapLaw(nodes: Table, roots: seq<int>, excluded: int, c: int)
    requires Kernel(nodes) && AllLive(nodes, roots) && CanAct(nodes, Reap(c))
    requires excluded == 0 || excluded in roots
    ensures Cpu(DoAct(nodes, Reap(c)), roots, excluded) + Loss(nodes, roots, excluded, Reap(c))
            == Cpu(nodes, roots, excluded)
  {
    var nodes', p := DoAct(nodes, Reap(c)), nodes[c].ppid;
    KernelKept(nodes, roots, Reap(c));
    MembersCarry(nodes, nodes', roots, c);
    MembersCarry(nodes', nodes, roots, c);
    var s, s' := Counted(nodes, roots, excluded), Counted(nodes', roots, excluded);
    assert s' == s - {c};
    assert c !in roots;
    ParentOfMember(nodes, roots, c);
    if c in s {
      TotalSplit(Ticks(nodes), s, c);
    }
    if p in s {
      TotalSplit(Ticks(nodes), s - {c}, p);
      TotalSplit(Ticks(nodes'), s', p);
    }
    TotalSame(Ticks(nodes), Ticks(nodes'), s - {c} - {p});
    assert p !in s ==> s - {c} - {p} == s - {c};
    assert c !in s ==> s - {c} == s;
  }

  lemma {:induction false} StillMember(nodes: Table, roots: seq<int>, x: int, r: int, n: int, k: nat)
    requires Kernel(nodes) && AllLive(nodes, roots) && CanAct(nodes, Exit(x)) && x !in roots && INIT in roots
    requires r in roots && Below(nodes, r, n, k)
    ensures n in Members(DoAct(nodes, Exit(x)), roots)
    decreases k
  {
    var nodes' := DoAct(nodes, Exit(x));
    KernelKept(nodes, roots, Exit(x));
    MembersClosed(nodes', roots);
    if k > 0 && nodes[n].ppid != x {
      StillMember(nodes, roots, x, r, nodes[n].ppid, k - 1);
    }
  }

  lemma UnwatchedExitLaw(nodes: Table, roots: seq<int>, excluded: int, x: int)
    requires Kernel(nodes) && AllLive(nodes, roots) && CanAct(nodes, Exit(x)) && x !in roots && INIT !in roots
    ensures Cpu(DoAct(nodes, Exit(x)), roots, excluded) + Loss(nodes, roots, excluded, Exit(x))
            == Cpu(nodes, roots, excluded)
  {
    var nodes' := DoAct(nodes, Exit(x));
    ExitMembers(nodes, roots, x);
    var drop := if excluded > 0 then {excluded} else {};
    var s, s', o := Counted(nodes, roots, excluded), Counted(nodes', roots, excluded), Orphans(nodes, roots, x) - drop;
    assert s == s' + o;
    TotalUnion(Ticks(nodes), s', o);
    TotalSame(Ticks(nodes), Ticks(nodes'), s');
  }

  lemma WatchedExitLaw(nodes: Table, roots: seq<int>, excluded: int, x: int)
    requires Kernel(nodes) && AllLive(nodes, roots) && CanAct(nodes, Exit(x)) && x !in roots && INIT in roots
    ensures Cpu(DoAct(nodes, Exit(x)), roots, excluded)
            == Cpu(nodes, roots, excluded) + Gain(nodes, roots, excluded, Exit(x))
  {
    var nodes' := DoAct(nodes, Exit(x));
    forall n | n in Members(nodes, roots) ensures n in Members(nodes', roots) {
      var r, k: nat :| LiveRoot(nodes, roots, r) && Below(nodes, r, n, k);
      StillMember(nodes, roots, x, r, n, k);
    }
    var s, joined := Counted(nodes, roots, excluded), Adopted(nodes, roots, excluded, Exit(x));
    assert Counted(nodes', roots, excluded) == s + joined;
    TotalUnion(Ticks(nodes'), s, joined);
    TotalSame(Ticks(nodes), Ticks(nodes'), s);
    TotalSame(Ticks(nodes), Ticks(nodes'), joined);
  }

  lemma ExitLaw(nodes: Table, roots: seq<int>, excluded: int, x: int)
    requires Kernel(nodes) && AllLive(nodes, roots) && CanAct(nodes, Exit(x)) && x !in roots
    ensures Cpu(DoAct(nodes, Exit(x)), roots, excluded) + Loss(nodes, roots, excluded, Exit(x))
            == Cpu(nodes, roots, excluded) + Gain(nodes, roots, excluded, Exit(x))
  {
    if INIT in roots {
      WatchedExitLaw(nodes, roots, excluded, x);
    } else {
      UnwatchedExitLaw(nodes, roots, excluded, x);
    }
  }

  /** An exit lowers the watched sum exactly when init is not itself watched and a counted process
      with ticks of its own hung from a root only through the one that exits. */
  lemma ExitLowersExactlyWhen(nodes: Table, roots: seq<int>, excluded: int, x: int)
    requires Kernel(nodes) && AllLive(nodes, roots) && CanAct(nodes, Exit(x)) && x !in roots
    ensures var orphans := Orphans(nodes, roots, x) - (if excluded > 0 then {excluded} else {});
            Cpu(DoAct(nodes, Exit(x)), roots, excluded) < Cpu(nodes, roots, excluded)
            <==> INIT !in roots && Total(Ticks(nodes), orphans) > 0
  {
    ExitLaw(nodes, roots, excluded, x);
  }

  lemma StepLaw(nodes: Table, roots: seq<int>, excluded: int, a: Act)
    requires Kernel(nodes) && AllLive(nodes, roots) && CanAct(nodes, a) && Keeps(roots, a)
    requires excluded == 0 || excluded in roots
    ensures Cpu(DoAct(nodes, a), roots, excluded) + Loss(nodes, roots, excluded, a)
            == Cpu(nodes, roots, excluded) + Gain(nodes, roots, excluded, a)
  {
    match a
    case Run(p, d) => RunLaw(nodes, roots, excluded, p, d);
    case Fork(p, c) => ForkLaw(nodes, roots, excluded, p, c);
    case Exit(x) => ExitLaw(nodes, roots, excluded, x);
    case Reap(c) => ReapLaw(nodes, roots, excluded, c);
  }

  ghost predicate Possible(nodes: Table, roots: seq<int>, acts: seq<Act>)
    decreases |acts|
  {
    |acts| == 0 || (CanAct(nodes, acts[0]) && Keeps(roots, acts[0]) && Possible(DoAct(nodes, acts[0]), roots, acts[1..]))
  }

  ghost function After(nodes: Table, roots: seq<int>, acts: seq<Act>): Table
    requires Possible(nodes, roots, acts)
    decreases |acts|
  {
    if |acts| == 0 then nodes else After(DoAct(nodes, acts[0]), roots, acts[1..])
  }

  ghost function Gains(nodes: Table, roots: seq<int>, excluded: int, acts: seq<Act>): nat
    requires Possible(nodes, roots, acts)
    decreases |acts|
  {
    if |acts| == 0 then 0
    else Gain(nodes, roots, excluded, acts[0]) + Gains(DoAct(nodes, acts[0]), roots, excluded, acts[1..])
  }

  ghost function Losses(nodes: Table, roots: seq<int>, excluded: int, acts: seq<Act>): nat
    requires Possible(nodes, roots, acts)
    decreases |acts|
  {
    if |acts| == 0 then 0
    else Loss(nodes, roots, excluded, acts[0]) + Losses(DoAct(nodes, acts[0]), roots, excluded, acts[1..])
  }

  /** CONSERVATION over every run of the process table: the watched sum is what it was, plus what
      the counted members burned or a watched init adopted, less what was reaped into an excluded root
      or orphaned away. */
  lemma {:induction false} CpuIsConserved(nodes: Table, roots: seq<int>, excluded: int, acts: seq<Act>)
    requires Kernel(nodes) && AllLive(nodes, roots) && Possible(nodes, roots, acts)
    requires excluded == 0 || excluded in roots
    ensures Cpu(After(nodes, roots, acts), roots, excluded) + Losses(nodes, roots, excluded, acts)
            == Cpu(nodes, roots, excluded) + Gains(nodes, roots, excluded, acts)
    decreases |acts|
  {
    if |acts| > 0 {
      StepLaw(nodes, roots, excluded, acts[0]);
      KernelKept(nodes, roots, acts[0]);
      CpuIsConserved(DoAct(nodes, acts[0]), roots, excluded, acts[1..]);
    }
  }

  ghost predicate LeafExits(nodes: Table, roots: seq<int>, acts: seq<Act>)
    requires Possible(nodes, roots, acts)
    decreases |acts|
  {
    |acts| > 0 ==>
      && (acts[0].Exit? ==> forall n :: n in nodes ==> nodes[n].ppid != acts[0].x)
      && LeafExits(DoAct(nodes, acts[0]), roots, acts[1..])
  }

  lemma {:induction false} LeafExitsLoseNothing(nodes: Table, roots: seq<int>, acts: seq<Act>)
    requires Kernel(nodes) && AllLive(nodes, roots) && Possible(nodes, roots, acts) && LeafExits(nodes, roots, acts)
    ensures Losses(nodes, roots, 0, acts) == 0
    decreases |acts|
  {
    if |acts| > 0 {
      if acts[0].Exit? {
        LeafLeavesNone(nodes, roots, acts[0].x);
      }
      KernelKept(nodes, roots, acts[0]);
      LeafExitsLoseNothing(DoAct(nodes, acts[0]), roots, acts[1..]);
    }
  }

  /** With nothing excluded, and only childless processes exiting, two samples of the watched trees
      never show the CPU sum falling, and show exactly the ticks gained in between. */
  lemma CpuNeverFalls(nodes: Table, roots: seq<int>, acts: seq<Act>, p: seq<Proc>, q: seq<Proc>)
    requires Kernel(nodes) && AllLive(nodes, roots)
    requires Possible(nodes, roots, acts) && LeafExits(nodes, roots, acts)
    requires Shows(nodes, roots, p) && Shows(After(nodes, roots, acts), roots, q)
    ensures Sum(q, 0).cpuTicks == Sum(p, 0).cpuTicks + Gains(nodes, roots, 0, acts)
  {
    CpuIsConserved(nodes, roots, 0, acts);
    LeafExitsLoseNothing(nodes, roots, acts);
    WalkedSum(nodes, roots, p, 0);
    WalkedSum(After(nodes, roots, acts), roots, q, 0);
  }

  /** The sum is not monotone across every exit: when a shell exits before its child, the child passes
      to init and its ticks leave the watched sum. */
  lemma OrphanLowersTheSum()
    ensures var nodes: Table := map[1 := Proc(1, 0, 0, 0, false), 5 := Proc(5, 1, 0, 0, false),
                                    6 := Proc(6, 5, 2, 0, false), 7 := Proc(7, 6, 9, 0, false)];
            && Kernel(nodes) && AllLive(nodes, [5]) && CanAct(nodes, Exit(6)) && Keeps([5], Exit(6))
            && Cpu(DoAct(nodes, Exit(6)), [5], 0) + 9 == Cpu(nodes, [5], 0)
  {
    var nodes: Table := map[1 := Proc(1, 0, 0, 0, false), 5 := Proc(5, 1, 0, 0, false),
                            6 := Proc(6, 5, 2, 0, false), 7 := Proc(7, 6, 9, 0, false)];
    ExitLaw(nodes, [5], 0, 6);
    assert Orphans(nodes, [5], 6) == {7} by {
      assert Below(nodes, 5, 5, 0) && Below(nodes, 5, 6, 1) && Below(nodes, 5, 7, 2);
      assert BelowAvoiding(nodes, 5, 6, 5, 0) && BelowAvoiding(nodes, 5, 6, 6, 1);
      assert LiveRoot(nodes, [5], 5);
      forall n | n in Members(nodes, [5]) ensures n in {5, 6, 7} {
        var r, k: nat :| LiveRoot(nodes, [5], r) && Below(nodes, r, n, k);
        assert k > 0 ==> Below(nodes, r, nodes[n].ppid, k - 1);
      }
      assert 7 in Members(nodes, [5]);
      forall r, k: nat | LiveRoot(nodes, [5], r) ensures !BelowAvoiding(nodes, r, 6, 7, k) {
      }
    }
    TotalSplit(Ticks(nodes), {7}, 7);
    assert {7} - {7} == {};
    assert Orphans(nodes, [5], 6) - {} == {7};
  }
}
