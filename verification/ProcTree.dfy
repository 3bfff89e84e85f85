/** The process-tree walk over one snapshot of the process table, and the sum of its work. */
module ProcTree {
  import opened Options
  import opened ProcWork
  import opened Sets

  datatype Proc = Proc(pid: int, ppid: int, ticks: nat, ioBytes: nat, zombie: bool)

  type Table = map<int, Proc>

  /** Every readable process is listed under its own pid, as the directory scan lists it. */
  ghost predicate Listed(nodes: Table) {
    forall n :: n in nodes ==> 0 < n && nodes[n].pid == n
  }

  /** n is r or lies k parent links below it, through processes of the table only. */
  ghost predicate Below(nodes: Table, r: int, n: int, k: nat)
    decreases k
  {
    n in nodes && if k == 0 then n == r else Below(nodes, r, nodes[n].ppid, k - 1)
  }

  ghost predicate LiveRoot(nodes: Table, roots: seq<int>, r: int) {
    r in roots && 0 < r && r in nodes && !nodes[r].zombie
  }

  ghost predicate Member(nodes: Table, roots: seq<int>, n: int) {
    exists r, k: nat :: LiveRoot(nodes, roots, r) && Below(nodes, r, n, k)
  }

  ghost function Members(nodes: Table, roots: seq<int>): set<int> {
    set n | n in nodes && Member(nodes, roots, n)
  }

  ghost predicate Distinct(s: seq<int>) {
    forall i, j :: 0 <= i < j < |s| ==> s[i] != s[j]
  }

  /** Element i is a listed root or stands behind its parent. */
  ghost predicate ParentFirst(nodes: Table, roots: seq<int>, s: seq<int>, i: int)
    requires 0 <= i < |s|
  {
    s[i] in nodes && (s[i] in roots || exists j :: 0 <= j < i && s[j] == nodes[s[i]].ppid)
  }

  /** What the walk promises: the members, once each, parents first. */
  ghost predicate Walk(nodes: Table, roots: seq<int>, s: seq<int>) {
    && Distinct(s)
    && (forall n :: n in s <==> n in Members(nodes, roots))
    && (forall i :: 0 <= i < |s| ==> ParentFirst(nodes, roots, s, i))
  }

  function Kids(children: map<int, seq<int>>, n: int): seq<int> {
    if n in children then children[n] else []
  }

  ghost predicate ChildIndex(nodes: Table, listed: set<int>, children: map<int, seq<int>>) {
    && (forall p, c :: p in children && c in children[p] ==> c in nodes && nodes[c].ppid == p)
    && (forall c :: c in listed && c in nodes ==> c in Kids(children, nodes[c].ppid))
  }

  lemma IndexOne(nodes: Table, listed: set<int>, children: map<int, seq<int>>, n: int)
    requires ChildIndex(nodes, listed, children) && n in nodes
    ensures ChildIndex(nodes, listed + {n}, children[nodes[n].ppid := Kids(children, nodes[n].ppid) + [n]])
  {
  }

  /** Groups the processes by parent, in whatever order the table is iterated. */
  method IndexChildren(nodes: Table) returns (children: map<int, seq<int>>)
    ensures ChildIndex(nodes, nodes.Keys, children)
  {
    children := map[];
    var todo: set<int> := nodes.Keys;
    while todo != {}
      invariant todo <= nodes.Keys
      invariant ChildIndex(nodes, nodes.Keys - todo, children)
    {
      var n := Pick(todo);
      IndexOne(nodes, nodes.Keys - todo, children, n);
      children := children[nodes[n].ppid := Kids(children, nodes[n].ppid) + [n]];
      todo := todo - {n};
      assert nodes.Keys - todo == nodes.Keys - (todo + {n}) + {n};
    }
  }

  /** Every child of a visited process is visited or waits on the stack. */
  ghost predicate ClosedUpTo(nodes: Table, seen: set<int>, stack: seq<int>) {
    forall n :: n in nodes && nodes[n].ppid in seen ==> n in seen || n in stack
  }

  ghost predicate StackOk(nodes: Table, roots: seq<int>, tree: set<int>, seen: set<int>, stack: seq<int>) {
    forall n :: n in stack ==> n in tree && n in nodes && (n in roots || nodes[n].ppid in seen)
  }

  /** `out` shows the processes of `seen`, all of them in `tree`, parents first. */
  ghost predicate Visited(nodes: Table, roots: seq<int>, tree: set<int>, seen: set<int>, out: seq<int>) {
    && Distinct(out)
    && (forall n :: n in out <==> n in seen)
    && seen <= tree
    && (forall i :: 0 <= i < |out| ==> ParentFirst(nodes, roots, out, i))
  }

  /** What the walk of one root keeps while its stack is not empty. */
  ghost predicate Walking(nodes: Table, roots: seq<int>, tree: set<int>, seen: set<int>, out: seq<int>, stack: seq<int>) {
    && Visited(nodes, roots, tree, seen, out)
    && StackOk(nodes, roots, tree, seen, stack)
    && ClosedUpTo(nodes, seen, stack)
  }

  lemma VisitedExtends(nodes: Table, roots: seq<int>, tree: set<int>, seen: set<int>, out: seq<int>, n: int)
    requires Visited(nodes, roots, tree, seen, out) && n !in seen
    requires n in tree && n in nodes && (n in roots || nodes[n].ppid in seen)
    ensures Visited(nodes, roots, tree, seen + {n}, out + [n])
  {
    var out' := out + [n];
    forall i | 0 <= i < |out'| ensures ParentFirst(nodes, roots, out', i) {
      if i < |out| {
        assert ParentFirst(nodes, roots, out, i);
        if out[i] !in roots {
          var j :| 0 <= j < i && out[j] == nodes[out[i]].ppid;
          assert out'[j] == out[j];
        }
      } else if n !in roots {
        assert nodes[n].ppid in out;
        var j :| 0 <= j < |out| && out[j] == nodes[n].ppid;
        assert out'[j] == out[j];
      }
    }
  }

  lemma PopSeen(nodes: Table, roots: seq<int>, tree: set<int>, seen: set<int>, out: seq<int>, stack: seq<int>, n: int)
    requires Walking(nodes, roots, tree, seen, out, stack + [n]) && n in seen
    ensures Walking(nodes, roots, tree, seen, out, stack)
  {
    assert forall m :: m in stack ==> m in stack + [n];
  }

  lemma PopNew(nodes: Table, children: map<int, seq<int>>, roots: seq<int>, tree: set<int>, seen: set<int>,
               out: seq<int>, stack: seq<int>, n: int)
    requires ChildIndex(nodes, nodes.Keys, children)
    requires forall c :: c in nodes && nodes[c].ppid in tree ==> c in tree
    requires Walking(nodes, roots, tree, seen, out, stack + [n]) && n !in seen
    ensures Walking(nodes, roots, tree, seen + {n}, out + [n], stack + Kids(children, n))
  {
    assert n in stack + [n];
    VisitedExtends(nodes, roots, tree, seen, out, n);
    assert StackOk(nodes, roots, tree, seen + {n}, stack + Kids(children, n)) by {
      assert forall m :: m in stack ==> m in stack + [n];
    }
    forall m | m in nodes && nodes[m].ppid in seen + {n}
      ensures m in seen + {n} || m in stack + Kids(children, n)
    {
      if nodes[m].ppid in seen {
        assert m in seen || m in stack + [n];
      } else {
        assert m in Kids(children, n);
      }
    }
  }

  /** Walks one live root's tree depth first with an explicit stack, skipping what earlier roots
      have shown. */
  method WalkRoot(nodes: Table, children: map<int, seq<int>>, roots: seq<int>, root: int,
                  ghost tree: set<int>, seen0: set<int>, out0: seq<int>) returns (seen: set<int>, out: seq<int>)
    requires ChildIndex(nodes, nodes.Keys, children) && root in roots && root in nodes && root in tree
    requires forall c :: c in nodes && nodes[c].ppid in tree ==> c in tree
    requires Visited(nodes, roots, tree, seen0, out0) && ClosedUpTo(nodes, seen0, [])
    ensures Visited(nodes, roots, tree, seen, out) && ClosedUpTo(nodes, seen, [])
    ensures root in seen && seen0 <= seen
  {
    seen, out := seen0, out0;
    var stack := [root];
    while |stack| > 0
      invariant Walking(nodes, roots, tree, seen, out, stack)
      invariant seen0 <= seen && (root in seen || root in stack)
      decreases nodes.Keys - seen, |stack|
    {
      var n := stack[|stack| - 1];
      var rest := stack[..|stack| - 1];
      assert stack == rest + [n];
      stack := rest;
      if n in seen {
        PopSeen(nodes, roots, tree, seen, out, rest, n);
      } else {
        PopNew(nodes, children, roots, tree, seen, out, rest, n);
        assert n in nodes.Keys - seen;
        seen := seen + {n};
        out := out + [n];
        stack := stack + Kids(children, n);
      }
    }
  }

  /** A closed set that holds every live root holds every member. */
  lemma {:induction false} ClosedHolds(nodes: Table, r: int, n: int, k: nat, seen: set<int>)
    requires ClosedUpTo(nodes, seen, []) && r in seen && Below(nodes, r, n, k)
    ensures n in seen
    decreases k
  {
    if k > 0 {
      ClosedHolds(nodes, r, nodes[n].ppid, k - 1, seen);
    }
  }

  lemma ClosedIsMembers(nodes: Table, roots: seq<int>, seen: set<int>)
    requires ClosedUpTo(nodes, seen, [])
    requires forall r :: LiveRoot(nodes, roots, r) ==> r in seen
    ensures Members(nodes, roots) <= seen
  {
    forall n | n in Members(nodes, roots) ensures n in seen {
      var r, k: nat :| LiveRoot(nodes, roots, r) && Below(nodes, r, n, k);
      ClosedHolds(nodes, r, n, k, seen);
    }
  }

  lemma MembersClosed(nodes: Table, roots: seq<int>)
    ensures forall c :: c in nodes && nodes[c].ppid in Members(nodes, roots) ==> c in Members(nodes, roots)
    ensures forall r :: LiveRoot(nodes, roots, r) ==> r in Members(nodes, roots)
  {
    forall c | c in nodes && nodes[c].ppid in Members(nodes, roots) ensures c in Members(nodes, roots) {
      var r, k: nat :| LiveRoot(nodes, roots, r) && Below(nodes, r, nodes[c].ppid, k);
      assert Below(nodes, r, c, k + 1);
    }
    forall r | LiveRoot(nodes, roots, r) ensures r in Members(nodes, roots) {
      assert Below(nodes, r, r, 0);
    }
  }

  /** Walks the roots in order over one shared set of visited processes. */
  method WalkRoots(nodes: Table, children: map<int, seq<int>>, roots: seq<int>, ghost tree: set<int>)
      returns (seen: set<int>, pids: seq<int>)
    requires ChildIndex(nodes, nodes.Keys, children)
    requires forall c :: c in nodes && nodes[c].ppid in tree ==> c in tree
    requires forall r :: LiveRoot(nodes, roots, r) ==> r in tree
    ensures Visited(nodes, roots, tree, seen, pids) && ClosedUpTo(nodes, seen, [])
    ensures forall r :: LiveRoot(nodes, roots, r) ==> r in seen
  {
    seen, pids := {}, [];
    for i := 0 to |roots|
      invariant Visited(nodes, roots, tree, seen, pids) && ClosedUpTo(nodes, seen, [])
      invariant forall j :: 0 <= j < i && LiveRoot(nodes, roots, roots[j]) ==> roots[j] in seen
    {
      var root := roots[i];
      if root > 0 && root in nodes && !nodes[root].zombie {
        assert LiveRoot(nodes, roots, root);
        seen, pids := WalkRoot(nodes, children, roots, root, tree, seen, pids);
      }
    }
  }

  method WalkAll(nodes: Table, roots: seq<int>) returns (pids: seq<int>)
    ensures Walk(nodes, roots, pids)
  {
    MembersClosed(nodes, roots);
    var children := IndexChildren(nodes);
    var seen;
    seen, pids := WalkRoots(nodes, children, roots, Members(nodes, roots));
    ClosedIsMembers(nodes, roots, seen);
    assert seen == Members(nodes, roots);
  }

  /** The union of the watched trees.  None when the table cannot be read or no root is watched. */
  method ProcTrees(table: Option<Table>, roots: seq<int>) returns (out: Option<seq<Proc>>)
    requires table.Some? ==> Listed(table.value)
    ensures out.None? <==> table.None? || |roots| == 0
    ensures out.Some? ==> Shows(table.value, roots, out.value)
  {
    if |roots| == 0 || table.None? {
      return None;
    }
    var nodes := table.value;
    var pids := WalkAll(nodes, roots);
    forall i | 0 <= i < |pids| ensures pids[i] in nodes {
      assert ParentFirst(nodes, roots, pids, i);
    }
    var procs := seq(|pids|, i requires 0 <= i < |pids| => nodes[pids[i]]);
    assert forall i :: 0 <= i < |pids| ==> procs[i] == nodes[pids[i]] && procs[i].pid == pids[i];
    assert Pids(procs) == pids;
    out := Some(procs);
  }

  ghost function Pids(procs: seq<Proc>): (s: seq<int>)
    ensures |s| == |procs| && forall i :: 0 <= i < |s| ==> s[i] == procs[i].pid
  {
    seq(|procs|, i requires 0 <= i < |procs| => procs[i].pid)
  }

  /** `procs` are the table's own entries of a walk over `roots`. */
  ghost predicate Shows(nodes: Table, roots: seq<int>, procs: seq<Proc>) {
    && Walk(nodes, roots, Pids(procs))
    && (forall i :: 0 <= i < |procs| ==> procs[i].pid in nodes && procs[i] == nodes[procs[i].pid])
  }

  // ------------------------------------------------------------ the summed work

  /** What the entries but `excluded` add up to, before any wrap-around (0 excludes none). */
  ghost function Sum(procs: seq<Proc>, excluded: int): Work {
    if |procs| == 0 then NO_WORK
    else
      var before, p := Sum(procs[..|procs| - 1], excluded), procs[|procs| - 1];
      if excluded > 0 && p.pid == excluded then before
      else Work(before.cpuTicks + p.ticks, before.ioBytes + p.ioBytes)
  }

  ghost function Ticks(nodes: Table): map<int, nat> { map n | n in nodes :: nodes[n].ticks }

  ghost function Bytes(nodes: Table): map<int, nat> { map n | n in nodes :: nodes[n].ioBytes }

  ghost function PidSet(procs: seq<Proc>): set<int> { set i | 0 <= i < |procs| :: procs[i].pid }

  ghost predicate Entries(nodes: Table, procs: seq<Proc>) {
    && Distinct(Pids(procs))
    && (forall i :: 0 <= i < |procs| ==> procs[i].pid in nodes && procs[i] == nodes[procs[i].pid])
  }

  lemma {:induction false} SumOverSet(nodes: Table, procs: seq<Proc>, excluded: int)
    requires Entries(nodes, procs)
    ensures var s := PidSet(procs) - (if excluded > 0 then {excluded} else {});
            Sum(procs, excluded) == Work(Total(Ticks(nodes), s), Total(Bytes(nodes), s))
  {
    if |procs| > 0 {
      var n := |procs| - 1;
      var p := procs[n];
      var before := procs[..n];
      assert Pids(before) == Pids(procs)[..n];
      SumOverSet(nodes, before, excluded);
      assert PidSet(procs) == PidSet(before) + {p.pid};
      assert p.pid !in PidSet(before) by {
        forall i | 0 <= i < n ensures before[i].pid != p.pid {
          assert Pids(procs)[i] != Pids(procs)[n];
        }
      }
      var drop := if excluded > 0 then {excluded} else {};
      if excluded > 0 && p.pid == excluded {
        assert PidSet(procs) - drop == PidSet(before) - drop;
      } else {
        var s := PidSet(procs) - drop;
        TotalSplit(Ticks(nodes), s, p.pid);
        TotalSplit(Bytes(nodes), s, p.pid);
        assert s - {p.pid} == PidSet(before) - drop;
      }
    }
  }

  lemma WalkShowsMembers(nodes: Table, roots: seq<int>, procs: seq<Proc>)
    requires Shows(nodes, roots, procs)
    ensures PidSet(procs) == Members(nodes, roots) && Entries(nodes, procs)
  {
    forall n | n in Members(nodes, roots) ensures n in PidSet(procs) {
      assert n in Pids(procs);
    }
    forall n | n in PidSet(procs) ensures n in Members(nodes, roots) {
      var i :| 0 <= i < |procs| && procs[i].pid == n;
      assert Pids(procs)[i] == n;
    }
  }

  /** The processes whose work counts: what lies below the watched process or below a daemon, itself
      included, as far as these are alive, less the watched process if it is not attributable. */
  ghost function Watching(nodes: Table, pid: int, daemons: seq<int>, excludeRoot: bool): set<int> {
    set n | n in nodes && !(excludeRoot && n == pid)
            && exists r, k: nat :: (r == pid || r in daemons) && r in nodes && 0 < r && !nodes[r].zombie && Below(nodes, r, n, k)
  }

  /** What they have done together. */
  ghost function WorkOf(nodes: Table, s: set<int>): Work { Work(Total(Ticks(nodes), s), Total(Bytes(nodes), s)) }

  ghost function Live(procs: seq<Proc>, excluded: int): nat {
    if |procs| == 0 then 0
    else
      var p := procs[|procs| - 1];
      Live(procs[..|procs| - 1], excluded) + (if p.zombie || (excluded > 0 && p.pid == excluded) then 0 else 1)
  }

  ghost function Alive(nodes: Table, s: set<int>): set<int> { set n | n in s && n in nodes && !nodes[n].zombie }

  lemma AliveMore(nodes: Table, s: set<int>, n: int, drop: set<int>)
    requires n !in s && n in nodes
    ensures |Alive(nodes, s + {n} - drop)| == |Alive(nodes, s - drop)| + (if nodes[n].zombie || n in drop then 0 else 1)
  {
    var a, a' := Alive(nodes, s - drop), Alive(nodes, s + {n} - drop);
    assert a' == if nodes[n].zombie || n in drop then a else a + {n};
  }

  /** The live count is the number of the counted processes that are not yet dead. */
  lemma {:induction false} LiveIsAlive(nodes: Table, procs: seq<Proc>, excluded: int)
    requires Entries(nodes, procs)
    ensures Live(procs, excluded) == |Alive(nodes, PidSet(procs) - (if excluded > 0 then {excluded} else {}))|
  {
    var drop := if excluded > 0 then {excluded} else {};
    if |procs| == 0 {
      assert Alive(nodes, PidSet(procs) - drop) == {};
    } else {
      var n := |procs| - 1;
      var p, before := procs[n], procs[..n];
      assert Pids(before) == Pids(procs)[..n];
      LiveIsAlive(nodes, before, excluded);
      assert PidSet(procs) == PidSet(before) + {p.pid};
      assert p.pid !in PidSet(before) by {
        forall i | 0 <= i < n ensures before[i].pid != p.pid {
          assert Pids(procs)[i] != Pids(procs)[n];
        }
      }
      AliveMore(nodes, PidSet(before), p.pid, drop);
      assert nodes[p.pid] == p;
    }
  }

  /** Sums a walked union on unsigned 64-bit counters, and counts who is not yet reaped. */
  method TreeWork(procs: seq<Proc>, excluded: int) returns (w: Work, live: nat)
    ensures w == Sum(procs, excluded).Wrapped()
    ensures live == Live(procs, excluded)
  {
    w, live := NO_WORK, 0;
    for i := 0 to |procs|
      invariant w == Sum(procs[..i], excluded).Wrapped()
      invariant live == Live(procs[..i], excluded)
    {
      var p := procs[i];
      assert procs[..i + 1][..i] == procs[..i];
      if excluded > 0 && p.pid == excluded {
        continue;
      }
      if !p.zombie {
        live := live + 1;
      }
      WrapAdd(Sum(procs[..i], excluded), p.ticks, p.ioBytes);
      w := Work((w.cpuTicks + p.ticks) % TWO_64, (w.ioBytes + p.ioBytes) % TWO_64);
    }
    assert procs[..|procs|] == procs;
  }

  /** The clock's configuration of what it watches. */
  datatype Watched = Watched(pid: int, excludeRoot: bool, daemons: seq<int>) {

    /** The peer or host root, and for a compiled-in peer the detached daemons. */
    function Roots(): seq<int> { if pid <= 0 then [] else [pid] + daemons }

    function Excluded(): int { if excludeRoot then pid else 0 }

    /** One sample of the watched trees.  When the table cannot be walked the root's own ticks stand
        in, but never for a compiled-in peer, whose root is the host itself. */
    method Work(table: Option<Table>, rootTicks: nat) returns (w: Work)
      requires table.Some? ==> Listed(table.value)
      ensures pid <= 0 ==> w == NO_WORK
      ensures pid > 0 && table.None? ==> w == ProcWork.Work(if excludeRoot then 0 else rootTicks, 0)
      ensures pid > 0 && table.Some? ==>
                exists procs :: Shows(table.value, Roots(), procs) && w == Sum(procs, Excluded()).Wrapped()
      ensures pid > 0 && table.Some? ==>
                w == WorkOf(table.value, Watching(table.value, pid, daemons, excludeRoot)).Wrapped()
    {
      if |Roots()| == 0 {
        return NO_WORK;
      }
      var procs := ProcTrees(table, Roots());
      if procs.None? {
        return if excludeRoot || rootTicks == 0 then NO_WORK else ProcWork.Work(rootTicks, 0);
      }
      var live;
      w, live := TreeWork(procs.value, Excluded());
      WatchedSum(table.value, procs.value);
    }

    /** Whatever order the walk of the roots emits, its sum is the work of what is watched. */
    lemma WatchedSum(nodes: Table, procs: seq<Proc>)
      requires pid > 0 && Shows(nodes, Roots(), procs)
      ensures Sum(procs, Excluded()) == WorkOf(nodes, Watching(nodes, pid, daemons, excludeRoot))
    {
      WalkShowsMembers(nodes, Roots(), procs);
      SumOverSet(nodes, procs, Excluded());
      var s := PidSet(procs) - (if Excluded() > 0 then {Excluded()} else {});
      var s' := Watching(nodes, pid, daemons, excludeRoot);
      forall n ensures n in s <==> n in s' {
        if n in s {
          var r, k: nat :| LiveRoot(nodes, Roots(), r) && Below(nodes, r, n, k);
          assert r == pid || r in daemons;
        }
        if n in s' {
          var r, k: nat :| (r == pid || r in daemons) && r in nodes && 0 < r && !nodes[r].zombie && Below(nodes, r, n, k);
          assert LiveRoot(nodes, Roots(), r);
        }
      }
      assert s == s';
    }
  }
}
