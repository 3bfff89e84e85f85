/**
 Plugin loading: the declared-dependency gate, the on-demand connect chain and the project load,
 which call one another over a shared in-flight map and a registry that only grows.

 `depth` is the call stack: each nested gate takes one frame, and running out of it is the crash of
 the process.  The order of registrations and every steady property of the registry are proved for
 every depth and every behaviour of the oracles; the ghost switches of `Mode` say which further
 hypotheses a run is entitled to.
 */
module Loader {
  import opened Capability
  import opened Options
  import opened Project
  import opened Registry
  import opened Sets

  datatype Outcome = Ok | Failed | Overflow

  /** The units whose gates are on the stack, by the keys they hold in flight. */
  type Marks = map<Key, string>

  /** bounded: the project is Bounded; covering: the steady property is Covering; serving: besides all
      that, the project is Serving, the steady property Clean, and no two gated units overlap in part;
      lone: unit u is Lone. */
  datatype Mode = Mode(bounded: bool, covering: bool, serving: bool, lone: bool, u: string)

  datatype Hypothesis = Steadiness | Boundedness | Coverage | Separation | Cleanness | Service | Loneliness

  /** The identities a gate of a unit holding `own` would leave outside the in-flight map. */
  ghost function Room(universe: set<Key>, held: set<Key>): nat { |universe - held| }

  /** A frame more than the identities need, where a loose unit may be gated again. */
  ghost function Spare(loose: set<string>): nat { if loose == {} then 0 else 1 }

  /** A gate of unit `name` fits: the unit ranks no higher than any on the stack and is not there itself,
      and if nothing on the stack has an identity of it, the stack has a frame for every identity not in
      flight yet. */
  ghost predicate Fits(universe: set<Key>, rank: map<string, nat>, loose: set<string>, held: Marks, name: string,
                       own: set<Key>, depth: nat) {
    && Lowest(rank, held, name) && Absent(held, name)
    && (own !! held.Keys ==> Room(universe, held.Keys + own) + Spare(loose) < depth)
  }

  /** All identities of unit u are held by it. */
  ghost predicate Atop(own: map<string, set<Key>>, held: Marks, u: string) {
    u in own && forall k :: k in own[u] ==> k in held && held[k] == u
  }

  /** A gate of a loose unit with these requirements halts at the first, an identity of a unit on the stack
      whose marks stay. */
  ghost predicate Blocked(own: map<string, set<Key>>, loose: set<string>, held: Marks, name: string, reqs: seq<Requirement>)
    requires |reqs| > 0
  {
    name in loose && exists u :: Atop(own, held, u) && u !in loose && HeadIn(reqs, own[u])
  }

  ghost predicate Halted(w: World, own: map<string, set<Key>>, loose: set<string>, held: Marks, name: string) {
    name in loose && exists u :: Atop(own, held, u) && u !in loose && Halts(w, name, own[u])
  }

  /** Unit n ranks no higher than any on the stack. */
  ghost predicate Lowest(rank: map<string, nat>, held: Marks, n: string) {
    n in rank && forall k :: k in held ==> held[k] in rank && rank[n] <= rank[held[k]]
  }

  ghost predicate Absent(held: Marks, n: string) { forall k :: k in held ==> held[k] != n }

  lemma RoomShrinks(universe: set<Key>, held: set<Key>, own: set<Key>, k: Key)
    requires k in own && own <= universe && k !in held
    ensures Room(universe, held + own) < Room(universe, held)
  {
    var a, b := universe - (held + own), universe - held;
    assert b == a + (b - a);
    assert k in b - a;
  }

  lemma RoomAtMost(universe: set<Key>, held: set<Key>)
    ensures Room(universe, held) <= |universe|
  {
    assert universe == (universe - held) + (universe * held);
  }

  /** The marks of the gates on the stack are in place, but for those of loose units, a unit on the stack
      holds all its keys, and every mark is one of its owner's own keys; one left behind is a twin's. */
  ghost predicate Marked(w: World, own: map<string, set<Key>>, loose: set<string>, inFlight: Marks, held: Marks) {
    && (forall k :: k in held ==> if k in inFlight then inFlight[k] == held[k] else held[k] in loose)
    && (forall k :: k in inFlight ==> inFlight[k] in own && k in own[inFlight[k]] && Gated(w, inFlight[k]))
    && (forall k :: k in inFlight ==> k in held || HasTwin(w, own, inFlight[k]))
    && Stacked(w, own, held)
  }

  ghost predicate Stacked(w: World, own: map<string, set<Key>>, held: Marks) {
    forall k :: k in held ==>
      held[k] in own && Gated(w, held[k]) && k in own[held[k]] && own[held[k]] <= held.Keys
  }

  ghost predicate OnStack(m: Mode, w: World, own: map<string, set<Key>>, loose: set<string>, inFlight: Marks, held: Marks) {
    m.bounded ==> Marked(w, own, loose, inFlight, held)
  }

  /** Without twins nothing is left behind. */
  lemma NothingLeft(w: World, own: map<string, set<Key>>, loose: set<string>, inFlight: Marks, held: Marks)
    requires Marked(w, own, loose, inFlight, held) && NoTwins(w, own)
    ensures inFlight.Keys <= held.Keys && (loose == {} ==> inFlight == held)
  {
  }

  // --------------------------------------------------- connecting a requirement

  /** Whatever a connect of c gates fits under the stack, or halts there. */
  ghost predicate Open(w: World, own: map<string, set<Key>>, rank: map<string, nat>, loose: set<string>, held: Marks, c: Cap) {
    forall l :: l in own && Loads(w, c, l) && Gated(w, l) ==>
      (Lowest(rank, held, l) && Absent(held, l)) || Halted(w, own, loose, held, l)
  }

  /** A requirement of the lowest unit that does not climb, and is held by none but a loose unit, opens. */
  lemma RequirementOpens(w: World, own: map<string, set<Key>>, rank: map<string, nat>, loose: set<string>, held: Marks,
                         u: string, c: Cap)
    requires u in own && own.Keys <= rank.Keys && NoClimb(w, own, rank, loose, u, c) && Apart(w, own, loose)
    requires Stacked(w, own, held) && Lowest(rank, held, u) && Atop(own, held, u)
    requires c.key in held ==> held[c.key] in loose
    ensures Open(w, own, rank, loose, held, c)
  {
    forall l | l in own && Loads(w, c, l) && Gated(w, l)
      ensures (Lowest(rank, held, l) && Absent(held, l)) || Halted(w, own, loose, held, l)
    {
      if Below(own, rank, loose, u, l, c) {
        forall k | k in held ensures held[k] in rank && rank[l] <= rank[held[k]] && held[k] != l {
          assert own[held[k]] <= held.Keys;
        }
      }
    }
  }

  lemma UnitIsRoomed(w: World, own: map<string, set<Key>>, universe: set<Key>, rank: map<string, nat>, loose: set<string>,
                     held: Marks, name: string, k: Key, depth: nat)
    requires name in own && own[name] <= universe && k in own[name] && Room(universe, held.Keys) + Spare(loose) <= depth
    requires (Lowest(rank, held, name) && Absent(held, name)) || Halted(w, own, loose, held, name)
    ensures Roomed(w, own, universe, rank, loose, held, name, depth)
  {
    if own[name] !! held.Keys {
      RoomShrinks(universe, held.Keys, own[name], k);
    }
  }

  /** No gated unit that a connect of c loads has an identity in flight. */
  ghost predicate LoadsReady(w: World, own: map<string, set<Key>>, held: Marks, c: Cap) {
    forall l :: l in own && Loads(w, c, l) && Gated(w, l) ==> own[l] !! held.Keys
  }

  /** An attainable requirement of the lowest unit is in flight for no other unit; and unless it is
      registered from the start, what a connect loads for it has nothing in flight. */
  lemma AttainableIsReady(w: World, own: map<string, set<Key>>, rank: map<string, nat>, loose: set<string>, start: Reg,
                          inFlight: Marks, held: Marks, u: string, q: Requirement)
    requires u in own && own.Keys <= rank.Keys && Attainable(w, own, rank, start, u, q)
    requires Marked(w, own, loose, inFlight, held) && NoTwins(w, own) && Lowest(rank, held, u)
    ensures q.cap.value.key in inFlight ==> inFlight[q.cap.value.key] == u
    ensures q.cap.value.key in start.byKey || LoadsReady(w, own, held, q.cap.value)
  {
    NothingLeft(w, own, loose, inFlight, held);
    var c := q.cap.value;
    if c.key !in start.byKey {
      forall l, k | l in own && Loads(w, c, l) && Gated(w, l) && k in held ensures k !in own[l] {
        assert Gated(w, held[k]) && k in own[held[k]] && own[held[k]] !! own[l];
      }
    }
  }

  /** Loading everything that provides its word attains an identity that some candy declares. */
  lemma WordAttained(w: World, own: map<string, set<Key>>, rank: map<string, nat>, start: Reg, t: nat, c: Cap,
                     names: set<string>, keys: set<Key>)
    requires own.Keys <= rank.Keys && Serving(w, own, rank, start) && w.scan(false, t) == Some(names)
    requires AllCoverable(w, start)
    requires IsParse(c) && Offered(w, c.key) && c.key !in w.baked && Covers(w, start, names, {c.word}, keys)
    ensures c.key in keys
  {
    var p :| p in w.candies && w.candies[p].OutOfTree() && c.key in DeclaredBy(w.candies[p]);
    assert CapsParse(w.candies[p]) && p in w.scan(false, t).value;
    DeclaredWord(w.candies[p], c);
    assert Coverable(w, start, p) && DeclaredBy(w.candies[p]) <= keys;
  }

  /** Every out-of-tree candy that a load of the words loads is ready to be gated. */
  ghost predicate AllReady(w: World, own: map<string, set<Key>>, held: Marks, words: set<string>) {
    forall n :: Referenced(w, n, words) ==> Ready(w, own, held, n)
  }

  ghost predicate Ready(w: World, own: map<string, set<Key>>, held: Marks, n: string) {
    n in own && Gated(w, n) ==> own[n] !! held.Keys
  }

  function KeySet(keys: seq<Key>): set<Key> { set k | k in keys }

  function With(held: Marks, keys: set<Key>, name: string): Marks {
    held + map k | k in keys :: name
  }

  /** A unit is the lowest, and holds its identities, once it is on the stack itself. */
  lemma WithIsLowest(own: map<string, set<Key>>, rank: map<string, nat>, held: Marks, keys: set<Key>, name: string)
    ensures With(held, keys, name).Keys == held.Keys + keys
    ensures Lowest(rank, held, name) ==> Lowest(rank, With(held, keys, name), name)
    ensures name in own && own[name] == keys ==> Atop(own, With(held, keys, name), name)
  {
  }

  /** How many of a unit's keys come before the first that another unit holds. */
  function Free(keys: seq<Key>, name: string, f: Marks): (n: nat)
    ensures n <= |keys| && (n < |keys| ==> keys[n] in f && f[keys[n]] != name)
    ensures forall j :: 0 <= j < n && keys[j] in f ==> f[keys[j]] == name
  {
    if |keys| == 0 || (keys[0] in f && f[keys[0]] != name) then 0 else 1 + Free(keys[1..], name, f)
  }

  /** The marks after a unit's keys were marked up to the first that another unit holds. */
  function MarkedBy(f: Marks, keys: seq<Key>, name: string): Marks {
    With(f, KeySet(keys[..Free(keys, name, f)]), name)
  }

  lemma MarkOne(f: Marks, part: set<Key>, name: string, k: Key)
    requires forall j :: j in part && j in f ==> f[j] == name
    ensures var g := With(f, part, name);
            && (k in g && g[k] != name <==> k in f && f[k] != name)
            && g[k := name] == With(f, part + {k}, name)
  {
  }

  lemma KeySetSnoc(keys: seq<Key>, i: nat)
    requires i < |keys|
    ensures KeySet(keys[..i + 1]) == KeySet(keys[..i]) + {keys[i]}
  {
    assert keys[..i + 1] == keys[..i] + [keys[i]];
  }

  /** The next key is in the way exactly if it is the first that another unit holds; else it is marked. */
  lemma MarkStep(f: Marks, keys: seq<Key>, name: string, i: nat)
    requires i <= Free(keys, name, f) && i < |keys|
    ensures var g := With(f, KeySet(keys[..i]), name);
            && (keys[i] in g && g[keys[i]] != name <==> i == Free(keys, name, f))
            && g[keys[i] := name] == With(f, KeySet(keys[..i + 1]), name)
  {
    KeySetSnoc(keys, i);
    MarkOne(f, KeySet(keys[..i]), name, keys[i]);
  }

  /** A refused marking leaves marks behind exactly when a key before the one in the way was unmarked. */
  lemma LeaksExactlyWhen(f: Marks, keys: seq<Key>, name: string)
    ensures MarkedBy(f, keys, name) != f <==> exists j :: 0 <= j < Free(keys, name, f) && keys[j] !in f
  {
    var n := Free(keys, name, f);
    var part := KeySet(keys[..n]);
    assert forall j :: 0 <= j < n ==> keys[..n][j] == keys[j];
    if j :| 0 <= j < n && keys[j] !in f {
      assert keys[..n][j] in part;
    } else {
      AddsNothing(f, part, name);
    }
  }

  lemma AddsNothing(f: Marks, part: set<Key>, name: string)
    requires forall k :: k in part ==> k in f && f[k] == name
    ensures With(f, part, name) == f
  {
  }

  /** Marking a unit that is not on the stack either meets another unit's mark, or puts the unit on
      the stack.  A unit of the very same identities is met at the first key, before anything is marked. */
  lemma MarkingFits(w: World, own: map<string, set<Key>>, loose: set<string>, f: Marks, held: Marks, name: string, keys: seq<Key>)
    requires Marked(w, own, loose, f, held) && name in own && Gated(w, name) && KeySet(keys) == own[name]
    requires Apart(w, own, loose) && Absent(held, name)
    ensures if Free(keys, name, f) == |keys|
            then KeySet(keys) !! held.Keys && Marked(w, own, loose, MarkedBy(f, keys, name), With(held, KeySet(keys), name))
            else Marked(w, own, loose, MarkedBy(f, keys, name), held)
  {
    var n := Free(keys, name, f);
    var upto := KeySet(keys[..n]);
    assert forall k :: k in upto ==> k in own[name] && (k in f ==> f[k] == name);
    OthersHeldAreMarked(w, own, loose, f, held, name);
    if n == |keys| {
      assert keys[..n] == keys;
      MarkedWhole(w, own, loose, f, held, name);
    } else {
      MarkingMeets(w, own, loose, f, held, name, keys);
      MarkedPart(w, own, loose, f, held, name, upto);
    }
  }

  /** An identity of a unit that is not on the stack is held by another only with its mark in place. */
  lemma OthersHeldAreMarked(w: World, own: map<string, set<Key>>, loose: set<string>, f: Marks, held: Marks, name: string)
    requires Marked(w, own, loose, f, held) && Apart(w, own, loose) && name in own && Gated(w, name) && Absent(held, name)
    ensures forall k :: k in own[name] && k in held ==> k in f && f[k] == held[k] && f[k] != name
  {
    forall k | k in own[name] && k in held ensures k in f {
      assert k in own[held[k]] && held[k] != name;
    }
  }

  lemma MarkedWhole(w: World, own: map<string, set<Key>>, loose: set<string>, f: Marks, held: Marks, name: string)
    requires Marked(w, own, loose, f, held) && name in own && Gated(w, name)
    requires forall k :: k in own[name] && k in held ==> k in f && f[k] == held[k] && f[k] != name
    requires forall k :: k in own[name] && k in f ==> f[k] == name
    ensures own[name] !! held.Keys && Marked(w, own, loose, With(f, own[name], name), With(held, own[name], name))
  {
  }

  lemma MarkedPart(w: World, own: map<string, set<Key>>, loose: set<string>, f: Marks, held: Marks, name: string, part: set<Key>)
    requires Marked(w, own, loose, f, held) && name in own && Gated(w, name) && part <= own[name]
    requires forall k :: k in own[name] && k in held ==> k in f && f[k] == held[k] && f[k] != name
    requires forall k :: k in part && k in f ==> f[k] == name
    requires part == {} || HasTwin(w, own, name)
    ensures Marked(w, own, loose, With(f, part, name), held)
  {
  }

  lemma MarkingMeets(w: World, own: map<string, set<Key>>, loose: set<string>, f: Marks, held: Marks, name: string, keys: seq<Key>)
    requires Marked(w, own, loose, f, held) && name in own && Gated(w, name) && KeySet(keys) == own[name]
    requires forall k :: k in own[name] && k in held ==> k in f && f[k] == held[k] && f[k] != name
    requires Free(keys, name, f) < |keys|
    ensures KeySet(keys[..Free(keys, name, f)]) == {} || HasTwin(w, own, name)
  {
    var k := keys[Free(keys, name, f)];
    var u := f[k];
    assert k in KeySet(keys) && k in own[u];
    if own[u] == own[name] {
      if k in held {
        assert keys[0] in KeySet(keys) && keys[0] in held;
      } else {
        var v :| v in own && Gated(w, v) && own[v] != own[u] && !(own[u] !! own[v]);
        assert own[v] != own[name] && !(own[name] !! own[v]);
      }
    }
  }

  /** Nothing is in the way of a loose unit, which may be on the stack already. */
  lemma MarkingLoose(w: World, own: map<string, set<Key>>, loose: set<string>, f: Marks, held: Marks, name: string, keys: seq<Key>)
    requires Marked(w, own, loose, f, held) && name in own && Gated(w, name) && KeySet(keys) == own[name]
    requires Apart(w, own, loose) && name in loose
    ensures Free(keys, name, f) == |keys|
    ensures Marked(w, own, loose, MarkedBy(f, keys, name), With(held, KeySet(keys), name))
  {
    var n := Free(keys, name, f);
    forall k | k in own[name] ensures (k in f ==> f[k] == name) && (k in held ==> held[k] == name) {
    }
    assert forall j :: 0 <= j < |keys| ==> keys[j] in KeySet(keys);
    assert keys[..n] == keys;
    MarkedAgain(w, own, loose, f, held, name);
  }

  lemma MarkedAgain(w: World, own: map<string, set<Key>>, loose: set<string>, f: Marks, held: Marks, name: string)
    requires Marked(w, own, loose, f, held) && name in own && Gated(w, name)
    requires forall k :: k in own[name] ==> (k in f ==> f[k] == name) && (k in held ==> held[k] == name)
    ensures Marked(w, own, loose, With(f, own[name], name), With(held, own[name], name))
  {
  }

  /** What unmarking a unit leaves; a loose one may be on the stack still. */
  lemma Unmarking(w: World, own: map<string, set<Key>>, loose: set<string>, f: Marks, held: Marks, name: string, keys: set<Key>)
    requires Marked(w, own, loose, f, With(held, keys, name)) && name in own && keys == own[name] && Gated(w, name)
    requires Stacked(w, own, held)
    requires keys !! held.Keys || (name in loose && Apart(w, own, loose))
    ensures Marked(w, own, loose, f - keys, held)
  {
    forall k | k in keys && k in held ensures held[k] in loose {
      assert k in own[held[k]] && held[k] == name;
    }
    assert forall k :: k in held && k !in keys ==> With(held, keys, name)[k] == held[k];
  }

  /** A gate that halts under u meets its mark, which no marking of its own identities takes away. */
  lemma BlockedIsHeld(w: World, own: map<string, set<Key>>, loose: set<string>, f: Marks, held: Marks, name: string,
                      keys: seq<Key>, reqs: seq<Requirement>)
    requires |reqs| > 0 && Blocked(own, loose, held, name, reqs) && Marked(w, own, loose, f, held) && Apart(w, own, loose)
    requires name in own && KeySet(keys) == own[name] && Gated(w, name) && "" !in own
    ensures HeadHeld(MarkedBy(f, keys, name), name, reqs)
  {
    var u :| Atop(own, held, u) && u !in loose && HeadIn(reqs, own[u]);
    var k := reqs[0].cap.value.key;
    assert held[k] == u && Gated(w, u) && own[name] !! own[u];
    assert forall j :: 0 <= j < |keys| ==> keys[j] in KeySet(keys);
  }

  /** The first requirement is in flight for another unit. */
  predicate HeadHeld(f: Marks, name: string, reqs: seq<Requirement>) {
    && |reqs| > 0 && reqs[0].cap.Some? && reqs[0].cap.value.key in f
    && f[reqs[0].cap.value.key] != "" && f[reqs[0].cap.value.key] != name
  }

  lemma StillMet(reg: Reg, f: Marks, name: string, keys: seq<Key>, reqs: seq<Requirement>)
    requires AllMet(reg, f, name, reqs) && Free(keys, name, f) == |keys|
    ensures AllMet(reg, MarkedBy(f, keys, name), name, reqs) && MarkedBy(f, keys, name) - KeySet(keys) == f - KeySet(keys)
  {
    assert keys[..|keys|] == keys;
  }

  /** Every requirement is registered, and in flight for no other unit. */
  ghost predicate AllMet(reg: Reg, f: Marks, name: string, reqs: seq<Requirement>) {
    forall i :: 0 <= i < |reqs| ==>
      && reqs[i].cap.Some? && reqs[i].cap.value.key in reg.byKey
      && (reqs[i].cap.value.key in f ==> f[reqs[i].cap.value.key] in {"", name})
  }

  class PluginLoader {
    const w: World
    ghost const m: Mode
    ghost const inv: Reg -> bool
    ghost const start: Reg
    ghost const own: map<string, set<Key>>
    ghost const universe: set<Key>
    ghost const rank: map<string, nat>
    ghost const loose: set<string>
    var reg: Reg
    var inFlight: Marks
    var clock: nat
    ghost var log: seq<Entry>

    /** What the run is entitled to; each hypothesis is used by its name. */
    ghost predicate Assumed() {
      && (m.serving ==> m.bounded && m.covering && loose == {}) && (m.bounded ==> own.Keys <= rank.Keys)
      && forall h :: Holds(h)
    }

    ghost predicate Holds(h: Hypothesis) {
      match h
      case Steadiness => Steady(w, inv)
      case Boundedness => m.bounded ==> Bounded(w, start, own, universe, rank, loose)
      case Coverage => m.covering ==> Covering(w, start, inv)
      case Separation => m.serving ==> NoTwins(w, own)
      case Cleanness => m.serving ==> Clean(w, inv)
      case Service => m.serving ==> own.Keys <= rank.Keys && Serving(w, own, rank, start) && AllCoverable(w, start)
      case Loneliness => m.lone ==> Lone(w, m.u)
    }

    ghost predicate Valid()
      reads this
    {
      inv(reg) && History(w, start, log, reg)
    }

    /** The lone unit is in no one else's way, and what its requirements come to is settled. */
    ghost predicate Alone(name: string)
      reads this
    {
      m.lone && name == m.u && m.u in w.candies && forall k :: k in inFlight ==> inFlight[k] == m.u
    }

    /** A connect of c comes round to the lone unit. */
    ghost predicate Comes(c: Cap)
      requires m.u in w.candies
    {
      c.key !in w.baked && Provides(w.candies[m.u], {c.word})
    }

    ghost function Verge(): Fate
      requires m.u in w.candies
      reads this
    {
      FateOf(w, w.candies[m.u], reg.byKey.Keys, w.candies[m.u].requirements)
    }

    /** A gate of the lone unit will come round to itself. */
    ghost predicate Stuck()
      reads this
    {
      && Alone(m.u) && Verge() == Circles
      && Verdict(reg, w.candies[m.u].source, DeclaredBy(w.candies[m.u])) != Collision
    }

    /** The lone unit's load overflows if it is stuck; if not, and its fate is clear, one frame is enough. */
    ghost predicate Foretold(stuck: bool, fate: Fate, r: Outcome, depth: nat) {
      if stuck then r.Overflow? else fate != Unclear && depth > 0 ==> !r.Overflow?
    }

    constructor (w: World, reg: Reg, ghost m: Mode, ghost inv: Reg -> bool,
                 ghost own: map<string, set<Key>>, ghost universe: set<Key>, ghost rank: map<string, nat>,
                 ghost loose: set<string>)
      requires inv(reg)
      ensures Valid() && this.reg == reg && inFlight == map[] && log == [] && start == reg
      ensures this.w == w && this.m == m && this.inv == inv && this.own == own && this.universe == universe
      ensures this.rank == rank && this.loose == loose
    {
      this.w, this.m, this.inv, this.start := w, m, inv, reg;
      this.own, this.universe, this.rank, this.loose := own, universe, rank, loose;
      this.reg, inFlight, clock, log := reg, map[], 0, [];
    }

    method Tick() returns (t: nat)
      modifies this`clock
      ensures t == old(clock)
    {
      t := clock;
      clock := clock + 1;
    }

    /** Marks a unit's own keys in flight.  On the first key another unit holds it stops, and what it
        has marked until then stays marked. */
    method Mark(name: string, keys: seq<Key>) returns (ok: bool)
      modifies this`inFlight
      ensures inFlight == MarkedBy(old(inFlight), keys, name)
      ensures ok <==> Free(keys, name, old(inFlight)) == |keys|
    {
      for i := 0 to |keys|
        invariant i <= Free(keys, name, old(inFlight))
        invariant inFlight == With(old(inFlight), KeySet(keys[..i]), name)
      {
        MarkStep(old(inFlight), keys, name, i);
        if keys[i] in inFlight && inFlight[keys[i]] != name {
          return false;
        }
        inFlight := inFlight[keys[i] := name];
      }
      ok := true;
    }

    /** The key is in flight for another unit. */
    predicate Elsewhere(name: string, k: Key)
      reads this
    {
      k in inFlight && inFlight[k] != "" && inFlight[k] != name
    }

    /** The first requirement is in flight for another unit. */
    predicate HeadElsewhere(name: string, reqs: seq<Requirement>)
      reads this
    {
      HeadHeld(inFlight, name, reqs)
    }

    /** Puts a unit on the stack of gates, or finds one of its identities in flight for another. */
    method Enlist(name: string, keys: seq<Key>, ghost held: Marks) returns (ok: bool)
      requires Assumed() && OnStack(m, w, own, loose, inFlight, held)
      requires m.bounded ==> name in own && Gated(w, name) && KeySet(keys) == own[name] && (Absent(held, name) || name in loose)
      modifies this`inFlight
      ensures inFlight == MarkedBy(old(inFlight), keys, name)
      ensures ok <==> Free(keys, name, old(inFlight)) == |keys|
      ensures m.bounded ==> if ok then OnStack(m, w, own, loose, inFlight, With(held, KeySet(keys), name))
                            else OnStack(m, w, own, loose, inFlight, held)
      ensures m.bounded && ok && Absent(held, name) ==> KeySet(keys) !! held.Keys
      ensures m.bounded && name in loose ==> ok
      ensures old(Alone(name)) ==> ok && Alone(name)
      ensures m.serving && KeySet(keys) !! held.Keys ==> ok
    {
      if m.bounded {
        MarkingFacts(name, keys, held, inFlight);
      }
      ok := Mark(name, keys);
    }

    /** What marking a unit comes to: nothing is in the way of a loose one, nor of one that shares no
        identity with the stack where nothing was left behind. */
    lemma MarkingFacts(name: string, keys: seq<Key>, held: Marks, f: Marks)
      requires Assumed() && m.bounded && Marked(w, own, loose, f, held)
      requires name in own && Gated(w, name) && KeySet(keys) == own[name] && (Absent(held, name) || name in loose)
      ensures var ok, g := Free(keys, name, f) == |keys|, MarkedBy(f, keys, name);
              && Marked(w, own, loose, g, if ok then With(held, KeySet(keys), name) else held)
              && (ok && Absent(held, name) ==> KeySet(keys) !! held.Keys)
              && (name in loose || (m.serving && KeySet(keys) !! held.Keys) ==> ok)
    {
      assert Holds(Boundedness) && Holds(Separation);
      if Absent(held, name) {
        MarkingFits(w, own, loose, f, held, name, keys);
      }
      if name in loose {
        MarkingLoose(w, own, loose, f, held, name, keys);
      }
      if m.serving {
        NothingLeft(w, own, loose, f, held);
        assert forall j :: 0 <= j < |keys| ==> keys[j] in KeySet(keys);
      }
    }

    /** Takes a unit off the stack of gates, whatever its gate returned. */
    method Discharge(name: string, keys: seq<Key>, ghost held: Marks)
      requires Assumed()
      requires m.bounded ==> && name in own && KeySet(keys) == own[name] && Gated(w, name)
                             && (KeySet(keys) !! held.Keys || name in loose)
      requires m.bounded ==> OnStack(m, w, own, loose, inFlight, With(held, KeySet(keys), name)) && Stacked(w, own, held)
      modifies this`inFlight
      ensures inFlight == old(inFlight) - KeySet(keys)
      ensures OnStack(m, w, own, loose, inFlight, held)
    {
      if m.bounded {
        assert Apart(w, own, loose) by {
          assert Holds(Boundedness);
        }
        Unmarking(w, own, loose, inFlight, held, name, KeySet(keys));
      }
      inFlight := inFlight - KeySet(keys);
    }

    /** The one gate body: marks the unit's own identities, resolves every requirement, unmarks. */
    method Gate(name: string, keys: seq<Key>, reqs: seq<Requirement>, ghost held: Marks, depth: nat) returns (r: Outcome)
      requires Assumed() && Valid() && OnStack(m, w, own, loose, inFlight, held)
      requires m.bounded && |reqs| > 0 ==> name in own && KeySet(keys) == own[name] && Gated(w, name)
                                           && Modest(w, start, own, rank, loose, name, reqs)
                                           && (|| Fits(universe, rank, loose, held, name, own[name], depth)
                                               || (Blocked(own, loose, held, name, reqs) && 0 < depth))
      modifies this`reg, this`inFlight, this`clock, this`log
      decreases depth, 1
      ensures Valid() && old(reg.byKey.Keys) <= reg.byKey.Keys
      ensures r.Ok? ==> Needs(reqs) <= reg.byKey.Keys
      ensures OnStack(m, w, own, loose, inFlight, held) && (m.bounded ==> !r.Overflow?)
      ensures old(Alone(name)) && reqs == w.candies[name].requirements ==>
                && (old(Stuck()) ==> r.Overflow?)
                && (old(Verge()) in {Passes, Stops} && depth > 0 ==> !r.Overflow?)
      ensures m.serving && name in own && AllAttainable(w, own, rank, start, name, reqs) && Ready(w, own, held, name) ==> r.Ok?
      ensures |reqs| == 0 ==> r.Ok? && unchanged(this)
      ensures |reqs| > 0 && Free(keys, name, old(inFlight)) < |keys| ==>
                && r.Failed? && reg == old(reg) && log == old(log) && clock == old(clock)
                && inFlight == MarkedBy(old(inFlight), keys, name)
      ensures |reqs| > 0 && Free(keys, name, old(inFlight)) == |keys| && !r.Overflow? ==> KeySet(keys) !! inFlight.Keys
      ensures |reqs| > 0 && Free(keys, name, old(inFlight)) == |keys| && depth > 0 && AllMet(old(reg), old(inFlight), name, reqs) ==>
                && r.Ok? && reg == old(reg) && log == old(log) && clock == old(clock)
                && inFlight == old(inFlight) - KeySet(keys)
    {
      if |reqs| == 0 {
        return Ok;
      }
      if m.bounded && Blocked(own, loose, held, name, reqs) {
        BlockedHalts(name, keys, held, inFlight, reqs);
      }
      var ok := Enlist(name, keys, held);
      if !ok {
        return Failed;
      }
      if depth == 0 {
        return Overflow;
      }
      if AllMet(reg, old(inFlight), name, reqs) {
        StillMet(reg, old(inFlight), name, keys, reqs);
      }
      r := Guarded(name, keys, reqs, held, depth - 1);
    }

    lemma BlockedHalts(name: string, keys: seq<Key>, held: Marks, f: Marks, reqs: seq<Requirement>)
      requires Assumed() && m.bounded && |reqs| > 0 && Blocked(own, loose, held, name, reqs)
      requires Marked(w, own, loose, f, held) && name in own && Gated(w, name) && KeySet(keys) == own[name]
      ensures name in loose && !m.serving && HeadHeld(MarkedBy(f, keys, name), name, reqs)
    {
      assert Holds(Boundedness);
      BlockedIsHeld(w, own, loose, f, held, name, keys, reqs);
    }

    /** A unit is the lowest on the stack, and there is room for what its requirements load. */
    ghost predicate Tops(name: string, held: Marks, depth: nat) {
      && name in own && own.Keys <= rank.Keys && Lowest(rank, held, name) && Atop(own, held, name)
      && Room(universe, held.Keys) + Spare(loose) <= depth
    }

    /** The requirements with the unit on the stack of gates, and off it again. */
    method Guarded(name: string, keys: seq<Key>, reqs: seq<Requirement>, ghost held: Marks, depth: nat) returns (r: Outcome)
      requires Assumed() && Valid() && OnStack(m, w, own, loose, inFlight, With(held, KeySet(keys), name))
      requires m.bounded ==> name in own && KeySet(keys) == own[name] && Modest(w, start, own, rank, loose, name, reqs)
                             && Gated(w, name) && Stacked(w, own, held) && (KeySet(keys) !! held.Keys || name in loose)
      requires m.bounded ==> || (!m.serving && HeadElsewhere(name, reqs))
                             || (Lowest(rank, held, name) && Room(universe, held.Keys + KeySet(keys)) + Spare(loose) <= depth)
      modifies this`reg, this`inFlight, this`clock, this`log
      decreases depth, 14
      ensures Valid() && old(reg.byKey.Keys) <= reg.byKey.Keys
      ensures r.Ok? ==> Needs(reqs) <= reg.byKey.Keys
      ensures OnStack(m, w, own, loose, inFlight, held) && (m.bounded ==> !r.Overflow?)
      ensures old(Alone(name)) && reqs == w.candies[name].requirements ==>
                && (old(Stuck()) ==> r.Overflow?)
                && (old(Verge()) in {Passes, Stops} ==> !r.Overflow?)
      ensures m.serving && AllAttainable(w, own, rank, start, name, reqs) ==> r.Ok?
      ensures KeySet(keys) !! inFlight.Keys
      ensures AllMet(old(reg), old(inFlight), name, reqs) ==>
                && r.Ok? && reg == old(reg) && log == old(log) && clock == old(clock)
                && inFlight == old(inFlight) - KeySet(keys)
    {
      WithIsLowest(own, rank, held, KeySet(keys), name);
      r := ResolveAll(name, reqs, With(held, KeySet(keys), name), depth);
      Discharge(name, keys, held);
    }

    /** The requirements in their authored order, up to the first that fails. */
    method ResolveAll(name: string, reqs: seq<Requirement>, ghost held: Marks, depth: nat) returns (r: Outcome)
      requires Assumed() && Valid() && OnStack(m, w, own, loose, inFlight, held)
      requires m.bounded ==> name in own && Modest(w, start, own, rank, loose, name, reqs)
                             && ((!m.serving && HeadElsewhere(name, reqs)) || Tops(name, held, depth))
      modifies this`reg, this`inFlight, this`clock, this`log
      decreases depth, 13
      ensures Valid() && old(reg.byKey.Keys) <= reg.byKey.Keys
      ensures r.Ok? ==> Needs(reqs) <= reg.byKey.Keys
      ensures OnStack(m, w, own, loose, inFlight, held) && (m.bounded ==> !r.Overflow?)
      ensures old(Alone(name)) && reqs == w.candies[name].requirements ==>
                && (old(Stuck()) ==> r.Overflow?)
                && (old(Verge()) in {Passes, Stops} ==> !r.Overflow?)
      ensures m.serving && AllAttainable(w, own, rank, start, name, reqs) ==> r.Ok?
      ensures AllMet(old(reg), old(inFlight), name, reqs) ==> r.Ok? && unchanged(this)
      ensures old(HeadElsewhere(name, reqs)) ==> r.Failed? && unchanged(this)
    {
      ghost var lone := Alone(name) && reqs == w.candies[name].requirements && (Stuck() || Verge() in {Passes, Stops});
      ghost var met := AllMet(reg, inFlight, name, reqs);
      ghost var keys, fate := reg.byKey.Keys, if lone then Verge() else Unclear;
      for i := 0 to |reqs|
        invariant Valid() && old(reg.byKey.Keys) <= reg.byKey.Keys
        invariant Needs(reqs[..i]) <= reg.byKey.Keys
        invariant OnStack(m, w, own, loose, inFlight, held)
        invariant met ==> unchanged(this)
        invariant old(HeadElsewhere(name, reqs)) ==> i == 0 && unchanged(this)
        invariant lone ==> reg == old(reg) && inFlight == old(inFlight) && fate == FateFrom(w, w.candies[name], keys, reqs, i)
      {
        r := ResolveNext(name, reqs, i, held, depth);
        if !r.Ok? {
          return;
        }
      }
      assert reqs[..|reqs|] == reqs;
      r := Ok;
    }

    /** One requirement more. */
    method ResolveNext(name: string, reqs: seq<Requirement>, i: nat, ghost held: Marks, depth: nat) returns (r: Outcome)
      requires Assumed() && Valid() && OnStack(m, w, own, loose, inFlight, held) && i < |reqs|
      requires m.bounded ==> name in own && Modest(w, start, own, rank, loose, name, reqs)
                             && ((!m.serving && i == 0 && HeadElsewhere(name, reqs)) || Tops(name, held, depth))
      modifies this`reg, this`inFlight, this`clock, this`log
      decreases depth, 12
      ensures Valid() && old(reg.byKey.Keys) <= reg.byKey.Keys
      ensures r.Ok? && Needs(reqs[..i]) <= reg.byKey.Keys ==> Needs(reqs[..i + 1]) <= reg.byKey.Keys
      ensures OnStack(m, w, own, loose, inFlight, held) && (m.bounded ==> !r.Overflow?)
      ensures old(Alone(name)) && reqs == w.candies[name].requirements ==>
                var fate, rest := FateFrom(w, w.candies[name], old(reg.byKey.Keys), reqs, i),
                                  FateFrom(w, w.candies[name], old(reg.byKey.Keys), reqs, i + 1);
                var clear := fate.Passes? || fate.Stops? || (fate.Circles? && old(Stuck()));
                (clear && r.Ok? ==> rest == fate && reg == old(reg) && inFlight == old(inFlight))
                && (clear && !r.Ok? ==> fate == if r.Overflow? then Circles else Stops)
      ensures m.serving && AllAttainable(w, own, rank, start, name, reqs) ==> r.Ok?
      ensures AllMet(old(reg), old(inFlight), name, reqs) ==> r.Ok? && unchanged(this)
      ensures i == 0 && old(HeadElsewhere(name, reqs)) ==> r.Failed? && unchanged(this)
    {
      NeedsSnoc(reqs, i);
      r := Resolve(name, reqs[i], held, depth);
    }

    /** One requirement: an identity in flight elsewhere is a cycle, a registered one is met, and any
        other is connected on demand; only an optional one may stay unmet. */
    method Resolve(name: string, req: Requirement, ghost held: Marks, depth: nat) returns (r: Outcome)
      requires Assumed() && Valid() && OnStack(m, w, own, loose, inFlight, held)
      requires m.bounded ==> && name in own && own.Keys <= rank.Keys
                             && (Tops(name, held, depth) || (!m.serving && req.cap.Some? && Elsewhere(name, req.cap.value.key)))
      requires m.bounded && req.cap.Some? && req.cap.value.key !in start.byKey ==>
                 req.cap.value.key !in own[name] && NoClimb(w, own, rank, loose, name, req.cap.value)
      modifies this`reg, this`inFlight, this`clock, this`log
      decreases depth, 11
      ensures Valid() && old(reg.byKey.Keys) <= reg.byKey.Keys
      ensures r.Ok? ==> req.cap.Some? && (!req.optional ==> req.cap.value.key in reg.byKey)
      ensures OnStack(m, w, own, loose, inFlight, held) && (m.bounded ==> !r.Overflow?)
      ensures old(Alone(name)) ==> Fated(old(OneFate(w, w.candies[name], reg.byKey.Keys, req)), old(Stuck()), r)
      ensures old(Alone(name)) && old(OneFate(w, w.candies[name], reg.byKey.Keys, req)).Passes? ==>
                reg == old(reg) && inFlight == old(inFlight)
      ensures req.cap.Some? && !old(Elsewhere(name, req.cap.value.key)) && Unserved(w, req.cap.value)
              && req.cap.value.key !in old(reg.byKey) ==>
                && r == (if req.optional then Ok else Failed)
                && reg == old(reg) && inFlight == old(inFlight) && log == old(log)
      ensures m.serving && Attainable(w, own, rank, start, name, req) ==> r.Ok?
      ensures req.cap.None? || old(Elsewhere(name, req.cap.value.key)) ==> r.Failed? && unchanged(this)
      ensures req.cap.Some? && !old(Elsewhere(name, req.cap.value.key)) ==>
                && (req.cap.value.key in old(reg.byKey) ==> r.Ok? && unchanged(this))
                && (req.optional ==> !r.Failed?)
                && (Reachable(w, req.cap.value, req.source, old(reg)) ==> r.Ok? && req.cap.value.key in reg.byKey)
    {
      if req.cap.None? {
        return Failed;
      }
      if m.serving || !Elsewhere(name, req.cap.value.key) {
        RequirementIsReady(name, req, held);
      }
      var c := req.cap.value;
      var owner := if c.key in inFlight then inFlight[c.key] else "";
      if owner != "" && owner != name {
        return Failed;
      }
      if c.key in reg.byKey {
        return Ok;
      }
      r := ConnectMissing(c, req.source, req.optional, held, depth);
    }

    /** What a unit on the stack may count on for a requirement that is neither in flight elsewhere nor
        registered: its connect opens; and an attainable one is in flight nowhere else and can be met. */
    lemma RequirementIsReady(name: string, req: Requirement, held: Marks)
      requires Assumed() && Valid() && OnStack(m, w, own, loose, inFlight, held) && req.cap.Some?
      requires m.bounded ==> name in own && own.Keys <= rank.Keys && Lowest(rank, held, name) && Atop(own, held, name)
      requires m.bounded && req.cap.value.key !in start.byKey ==>
                 req.cap.value.key !in own[name] && NoClimb(w, own, rank, loose, name, req.cap.value)
      ensures var c := req.cap.value;
              && (m.bounded && !Elsewhere(name, c.key) && c.key !in reg.byKey ==> Open(w, own, rank, loose, held, c))
              && (m.serving && Attainable(w, own, rank, start, name, req) ==>
                    !Elsewhere(name, c.key) && (c.key in reg.byKey || req.optional || Attains(c, held)))
    {
      var c := req.cap.value;
      HistoryGrows(w, start, log, reg);
      assert Holds(Boundedness) && Holds(Separation);
      if m.serving && Attainable(w, own, rank, start, name, req) {
        AttainableIsReady(w, own, rank, loose, start, inFlight, held, name, req);
      }
      if m.bounded && !Elsewhere(name, c.key) && c.key !in reg.byKey {
        RequirementOpens(w, own, rank, loose, held, name, c);
      }
    }

    /** The connect of a requirement that is not registered; a failure is forgiven if it is optional. */
    method ConnectMissing(c: Cap, source: string, optional: bool, ghost held: Marks, depth: nat) returns (r: Outcome)
      requires Assumed() && Valid() && OnStack(m, w, own, loose, inFlight, held) && c.key !in reg.byKey
      requires m.bounded ==> Open(w, own, rank, loose, held, c) && Room(universe, held.Keys) + Spare(loose) <= depth
      modifies this`reg, this`inFlight, this`clock, this`log
      decreases depth, 10
      ensures Valid() && old(reg.byKey.Keys) <= reg.byKey.Keys
      ensures r.Ok? ==> optional || c.key in reg.byKey
      ensures OnStack(m, w, own, loose, inFlight, held) && (m.bounded ==> !r.Overflow?)
      ensures old(Stuck()) && Comes(c) ==> r.Overflow?
      ensures Unserved(w, c) ==> r == (if optional then Ok else Failed) && reg == old(reg) && inFlight == old(inFlight) && log == old(log)
      ensures m.serving && Attains(c, held) ==> r.Ok?
      ensures optional ==> !r.Failed?
      ensures Reachable(w, c, source, old(reg)) ==> r.Ok? && c.key in reg.byKey
    {
      r := Connect(c, source, held, depth);
      if r.Failed? && optional {
        r := Ok;
      }
    }

    /** The on-demand connect of an identity: a baked binary first, then the project's own closure,
        then the closure with the identity's ref.  A failed load only warns. */
    method Connect(c: Cap, source: string, ghost held: Marks, depth: nat) returns (r: Outcome)
      requires Assumed() && Valid() && OnStack(m, w, own, loose, inFlight, held)
      requires m.bounded ==> Open(w, own, rank, loose, held, c) && Room(universe, held.Keys) + Spare(loose) <= depth
      modifies this`reg, this`inFlight, this`clock, this`log
      decreases depth, 9
      ensures Valid() && old(reg.byKey.Keys) <= reg.byKey.Keys
      ensures r.Ok? ==> c.key in reg.byKey
      ensures OnStack(m, w, own, loose, inFlight, held) && (m.bounded ==> !r.Overflow?)
      ensures old(Stuck()) && Comes(c) && c.key !in old(reg.byKey) ==> r.Overflow?
      ensures Unfound(w, c, false) && (!w.hasRef(c.key, source) || Unfound(w, c, true))
              && c.key !in w.baked && c.key !in old(reg.byKey) ==>
                r.Failed? && reg == old(reg) && inFlight == old(inFlight) && log == old(log)
      ensures Reachable(w, c, source, old(reg)) ==> r.Ok?
      ensures (forall t: nat :: !w.configOk(t)) && c.key !in w.baked && c.key !in old(reg.byKey) ==>
                r.Failed? && reg == old(reg) && inFlight == old(inFlight) && log == old(log)
      ensures m.serving && Attains(c, held) ==> r.Ok?
      ensures c.key in old(reg.byKey) ==> r.Ok? && unchanged(this)
      ensures r.Failed? && (forall t: nat :: w.configOk(t)) ==> c.key !in reg.byKey
    {
      r := ConnectBaked(c, held, depth);
      if !r.Failed? {
        return;
      }
      var t := Tick();
      assert m.serving || m.lone ==> w.configOk(t) by {
        assert Holds(Service) && Holds(Loneliness);
      }
      if !w.configOk(t) {
        return Failed;
      }
      r := SearchClosure(c, source, held, depth);
    }

    /** The project's own closure, then the closure with the identity's ref, if it has one. */
    method SearchClosure(c: Cap, source: string, ghost held: Marks, depth: nat) returns (r: Outcome)
      requires Assumed() && Valid() && OnStack(m, w, own, loose, inFlight, held)
      requires m.bounded ==> Open(w, own, rank, loose, held, c) && Room(universe, held.Keys) + Spare(loose) <= depth
      modifies this`reg, this`inFlight, this`clock, this`log
      decreases depth, 8
      ensures Valid() && old(reg.byKey.Keys) <= reg.byKey.Keys
      ensures !r.Overflow? ==> (r.Ok? <==> c.key in reg.byKey)
      ensures OnStack(m, w, own, loose, inFlight, held) && (m.bounded ==> !r.Overflow?)
      ensures old(Stuck()) && Comes(c) ==> r.Overflow?
      ensures Unfound(w, c, false) && (!w.hasRef(c.key, source) || Unfound(w, c, true)) && c.key !in old(reg.byKey) ==>
                r.Failed? && reg == old(reg) && inFlight == old(inFlight) && log == old(log)
      ensures c.key !in old(reg.byKey) && Reachable(w, c, source, old(reg)) ==> r.Ok?
      ensures m.serving && Attains(c, held) && c.key !in w.baked ==> r.Ok?
    {
      r := Pass(c, false, held, depth);
      if r.Failed? && w.hasRef(c.key, source) {
        r := Pass(c, true, held, depth);
      }
    }

    /** A connect of c must succeed: it is offered, and what it loads is ready to be gated. */
    ghost predicate Attains(c: Cap, held: Marks) { IsParse(c) && Offered(w, c.key) && LoadsReady(w, own, held, c) }

    /** What the hypotheses say of a scan for c: whatever it finds has room for its gates, and `one` is the
        candy that brings c, or comes round to the lone unit. */
    lemma ScanFacts(c: Cap, withRef: bool, t: nat, held: Marks, depth: nat) returns (one: string)
      requires Assumed() && (m.bounded ==> Open(w, own, rank, loose, held, c) && Room(universe, held.Keys) + Spare(loose) <= depth)
      ensures m.serving && !withRef ==> w.scan(withRef, t).Some?
      ensures w.scan(withRef, t).Some? ==>
                var names := w.scan(withRef, t).value;
                && (m.bounded ==> Roomy(w, own, universe, rank, loose, names, {c.word}, held, depth))
                && (Unfound(w, c, withRef) ==> Unreferenced(w, names, {c.word}))
      ensures Brings(w, c, withRef, reg) || (Stuck() && Comes(c) && !withRef) ==>
                && w.scan(withRef, t).Some? && one in w.scan(withRef, t).value && OnlyOne(w, w.scan(withRef, t).value, {c.word}, one)
                && (Brings(w, c, withRef, reg) ==> Registrable(w, one, reg) && c.key in DeclaredBy(w.candies[one]))
                && (Stuck() && Comes(c) && !withRef ==> Alone(one))
    {
      assert Holds(Boundedness) && Holds(Service) && Holds(Loneliness);
      if w.scan(withRef, t).Some? {
        var names := w.scan(withRef, t).value;
        if m.bounded {
          WordsFit(w, start, own, universe, rank, loose, held, c, names, depth);
        }
        if Unfound(w, c, withRef) {
          NothingServes(w, c, withRef, t, names);
        }
      }
      one := if Brings(w, c, withRef, reg) then Found(w, c, withRef, reg, t) else m.u;
    }

    lemma LoadAttains(c: Cap, t: nat, names: set<string>, held: Marks, keys: set<Key>)
      requires Assumed() && m.serving && Attains(c, held) && c.key !in w.baked
      requires w.scan(false, t) == Some(names) && Covers(w, start, names, {c.word}, keys)
      ensures c.key in keys
    {
      assert Holds(Boundedness) && Holds(Service);
      WordAttained(w, own, rank, start, t, c, names, keys);
    }

    /** One scan of the closure and a load scoped to the bare word. */
    method Pass(c: Cap, withRef: bool, ghost held: Marks, depth: nat) returns (r: Outcome)
      requires Assumed() && Valid() && OnStack(m, w, own, loose, inFlight, held)
      requires m.bounded ==> Open(w, own, rank, loose, held, c) && Room(universe, held.Keys) + Spare(loose) <= depth
      modifies this`reg, this`inFlight, this`clock, this`log
      decreases depth, 7
      ensures Valid() && old(reg.byKey.Keys) <= reg.byKey.Keys
      ensures !r.Overflow? ==> (r.Ok? <==> c.key in reg.byKey)
      ensures OnStack(m, w, own, loose, inFlight, held) && (m.bounded ==> !r.Overflow?)
      ensures old(Stuck()) && Comes(c) && !withRef ==> r.Overflow?
      ensures Unfound(w, c, withRef) && c.key !in old(reg.byKey) ==>
                r.Failed? && reg == old(reg) && inFlight == old(inFlight) && log == old(log)
      ensures Brings(w, c, withRef, old(reg)) ==> r.Ok?
      ensures m.serving && Attains(c, held) && c.key !in w.baked && !withRef ==> r.Ok?
    {
      var t := Tick();
      var names := w.scan(withRef, t);
      ghost var one := ScanFacts(c, withRef, t, held, depth);
      if names.Some? {
        r := LoadProject(names.value, {c.word}, held, depth, one);
        if r.Overflow? {
          return;
        }
        if m.serving && Attains(c, held) && c.key !in w.baked && !withRef {
          LoadAttains(c, t, names.value, held, reg.byKey.Keys);
        }
      }
      r := if c.key in reg.byKey then Ok else Failed;
    }

    /** The scoped load of a project: every out-of-tree candy that provides a referenced word is
        loaded, or found connected and then only gated; the first error ends it.  The candies come in
        any order; `one` is any of them. */
    method LoadProject(names: set<string>, words: set<string>, ghost held: Marks, depth: nat, ghost one: string) returns (r: Outcome)
      requires Assumed() && Valid() && OnStack(m, w, own, loose, inFlight, held)
      requires m.bounded ==> Roomy(w, own, universe, rank, loose, names, words, held, depth)
      modifies this`reg, this`inFlight, this`clock, this`log
      decreases depth, 6
      ensures Valid() && old(reg.byKey.Keys) <= reg.byKey.Keys
      ensures m.covering && r.Ok? ==> Covers(w, start, names, words, reg.byKey.Keys)
      ensures OnStack(m, w, own, loose, inFlight, held) && (m.bounded ==> !r.Overflow?)
      ensures one in names && OnlyOne(w, names, words, one) && old(Alone(one)) ==> Foretold(old(Stuck()), old(Verge()), r, depth)
      ensures m.serving && AllReady(w, own, held, words) ==> r.Ok?
      ensures Unreferenced(w, names, words) ==> r.Ok? && unchanged(this)
      ensures one in names && OnlyOne(w, names, words, one) && Registrable(w, one, old(reg)) ==>
                r.Ok? && DeclaredBy(w.candies[one]) <= reg.byKey.Keys
    {
      var todo := names;
      ghost var idle, only := Unreferenced(w, names, words), one in names && OnlyOne(w, names, words, one);
      ghost var lone, single := only && Alone(one), only && Registrable(w, one, reg);
      ghost var stuck := lone && Stuck();
      ghost var declared := if single then DeclaredBy(w.candies[one]) else {};
      ghost var quiet := true;
      while todo != {}
        invariant todo <= names && Valid() && old(reg.byKey.Keys) <= reg.byKey.Keys
        invariant m.covering ==> Covers(w, start, names - todo, words, reg.byKey.Keys)
        invariant OnStack(m, w, own, loose, inFlight, held)
        invariant quiet ==> unchanged(this)
        invariant idle ==> quiet
        invariant only ==> (quiet <==> one in todo)
        invariant (stuck ==> quiet) && (single && !quiet ==> declared <= reg.byKey.Keys)
        decreases todo
      {
        var n := Pick(todo);
        ghost var keys := reg.byKey.Keys;
        r := LoadIfReferenced(n, words, held, depth);
        if !r.Ok? {
          return;
        }
        quiet := quiet && !Referenced(w, n, words);
        if m.covering {
          CoversMore(w, start, names, todo, n, words, keys, reg.byKey.Keys);
        }
        todo := todo - {n};
      }
      assert names - todo == names;
      r := Ok;
    }

    /** A candy of the scan, if it is out of tree and provides a referenced word. */
    method LoadIfReferenced(n: string, words: set<string>, ghost held: Marks, depth: nat) returns (r: Outcome)
      requires Assumed() && Valid() && OnStack(m, w, own, loose, inFlight, held)
      requires m.bounded && Referenced(w, n, words) ==> Roomed(w, own, universe, rank, loose, held, n, depth)
      modifies this`reg, this`inFlight, this`clock, this`log
      decreases depth, 5
      ensures Valid() && old(reg.byKey.Keys) <= reg.byKey.Keys
      ensures m.covering && r.Ok? && Coverable(w, start, n) && Provides(w.candies[n], words) ==>
                DeclaredBy(w.candies[n]) <= reg.byKey.Keys
      ensures OnStack(m, w, own, loose, inFlight, held) && (m.bounded ==> !r.Overflow?)
      ensures old(Alone(n)) && Referenced(w, n, words) ==> Foretold(old(Stuck()), old(Verge()), r, depth)
      ensures m.serving && AllReady(w, own, held, words) ==> r.Ok?
      ensures !Referenced(w, n, words) ==> r.Ok? && unchanged(this)
      ensures Referenced(w, n, words) && Registrable(w, n, old(reg)) ==> r.Ok? && DeclaredBy(w.candies[n]) <= reg.byKey.Keys
    {
      if !Referenced(w, n, words) {
        return Ok;
      }
      r := LoadCandy(n, held, depth);
    }

    /** One load after another, until one crashes the process. */
    method LoadEach(loads: seq<Load>, depth: nat) returns (rs: seq<Outcome>)
      requires Assumed() && Valid() && OnStack(m, w, own, loose, inFlight, map[])
      requires m.bounded ==> |universe| + Spare(loose) < depth
      requires m.covering
      modifies this`reg, this`inFlight, this`clock, this`log
      ensures Valid() && OnStack(m, w, own, loose, inFlight, map[])
      ensures Outcomes(w, start, m, loads, rs, reg.byKey.Keys)
    {
      rs := [];
      for i := 0 to |loads|
        invariant Valid() && OnStack(m, w, own, loose, inFlight, map[])
        invariant |rs| == i && Outcomes(w, start, m, loads[..i], rs, reg.byKey.Keys)
        invariant forall j :: 0 <= j < i ==> !rs[j].Overflow?
      {
        ghost var keys := reg.byKey.Keys;
        var r := LoadNext(loads[i], depth);
        OutcomesSnoc(w, start, m, loads, rs, keys, r, reg.byKey.Keys);
        rs := rs + [r];
        if r.Overflow? {
          break;
        }
      }
      OutcomesWhole(w, start, m, loads, rs, reg.byKey.Keys);
    }

    /** One load with nothing on the stack of gates. */
    method LoadNext(load: Load, depth: nat) returns (r: Outcome)
      requires Assumed() && Valid() && OnStack(m, w, own, loose, inFlight, map[])
      requires m.bounded ==> |universe| + Spare(loose) < depth
      modifies this`reg, this`inFlight, this`clock, this`log
      ensures Valid() && old(reg.byKey.Keys) <= reg.byKey.Keys
      ensures OnStack(m, w, own, loose, inFlight, map[]) && (m.bounded ==> !r.Overflow?)
      ensures m.covering && r.Ok? ==> Covers(w, start, load.names, load.words, reg.byKey.Keys)
      ensures m.serving ==> r.Ok?
    {
      if m.bounded {
        assert Roomy(w, own, universe, rank, loose, load.names, load.words, map[], depth) by {
          assert Holds(Boundedness);
          NothingOnStackFits(w, start, own, universe, rank, loose, load.names, load.words, depth);
        }
      }
      r := LoadProject(load.names, load.words, map[], depth, "");
    }

    /** One referenced out-of-tree candy of the load. */
    method LoadCandy(n: string, ghost held: Marks, depth: nat) returns (r: Outcome)
      requires Assumed() && Valid() && OnStack(m, w, own, loose, inFlight, held) && n in w.candies && w.candies[n].OutOfTree()
      requires m.bounded ==> Roomed(w, own, universe, rank, loose, held, n, depth)
      modifies this`reg, this`inFlight, this`clock, this`log
      decreases depth, 4
      ensures Valid() && old(reg.byKey.Keys) <= reg.byKey.Keys
      ensures m.covering && r.Ok? && Coverable(w, start, n) ==> DeclaredBy(w.candies[n]) <= reg.byKey.Keys
      ensures OnStack(m, w, own, loose, inFlight, held) && (m.bounded ==> !r.Overflow?)
      ensures old(Alone(n)) ==>
                Foretold(old(Stuck()), old(Verge()), r, depth)
      ensures m.serving && Ready(w, own, held, n) ==> r.Ok?
      ensures Verdict(old(reg), w.candies[n].source, DeclaredBy(w.candies[n])) == Collision ==> r.Failed? && unchanged(this)
      ensures Registrable(w, n, old(reg)) ==> r.Ok? && DeclaredBy(w.candies[n]) <= reg.byKey.Keys
      ensures Verdict(old(reg), w.candies[n].source, DeclaredBy(w.candies[n])) == Connected ==>
                var keys := KeysDeclared(KeysOnly(w.candies[n].caps)); OnlyGated(n, keys, old(reg), old(inFlight), old(clock), old(log), r, depth)
    {
      CandyFacts(n, reg);
      assert Registrable(w, n, reg) ==> RegistersAt(w, n, reg, 0);
      var connected := AlreadyConnected(reg, w.candies[n].source, KeysOnly(w.candies[n].caps));
      match connected {
        case Collision => r := Failed;
        case Connected =>
          var keys := KeysDeclared(KeysOnly(w.candies[n].caps));
          if m.bounded && |w.candies[n].requirements| > 0 && Halted(w, own, loose, held, n) {
            HaltedCandyIsBlocked(w, own, loose, held, n);
          }
          r := Gate(n, keys, w.candies[n].requirements, held, depth);
        case Missing => r := LoadUnit(n, held, depth);
      }
    }

    /** What the hypotheses say of a candy that the load comes to. */
    lemma CandyFacts(n: string, r: Reg)
      requires Assumed() && inv(r) && n in w.candies && w.candies[n].OutOfTree()
      ensures m.bounded && |w.candies[n].requirements| > 0 ==>
                n in own && own[n] == DeclaredBy(w.candies[n]) && Modest(w, start, own, rank, loose, n, w.candies[n].requirements)
      ensures m.serving && |w.candies[n].requirements| > 0 ==>
                n in own && AllAttainable(w, own, rank, start, n, w.candies[n].requirements)
      ensures var v := Verdict(r, w.candies[n].source, DeclaredBy(w.candies[n]));
              && (m.serving ==> v != Collision)
              && (m.covering && v == Connected && Coverable(w, start, n) ==> DeclaredBy(w.candies[n]) <= r.byKey.Keys)
    {
      assert Holds(Boundedness) && Holds(Service) && Holds(Cleanness) && Holds(Coverage);
    }

    /** What a gate of candy n amounts to, as far as it can be told from the requirements alone. */
    ghost predicate OnlyGated(n: string, keys: seq<Key>, reg0: Reg, f: Marks, clock0: nat, log0: seq<Entry>, r: Outcome, depth: nat)
      requires n in w.candies
      reads this
    {
      var reqs := w.candies[n].requirements;
      && (r.Ok? ==> Needs(reqs) <= reg.byKey.Keys)
      && (|reqs| == 0 ==> r.Ok? && reg == reg0 && log == log0 && clock == clock0 && inFlight == f)
      && (|reqs| > 0 && Free(keys, n, f) < |keys| ==>
            r.Failed? && reg == reg0 && log == log0 && clock == clock0 && inFlight == MarkedBy(f, keys, n))
      && (|reqs| > 0 && Free(keys, n, f) == |keys| && depth > 0 && AllMet(reg0, f, n, reqs) ==>
            r.Ok? && reg == reg0 && log == log0 && clock == clock0 && inFlight == f - KeySet(keys))
    }

    /** Loads one out-of-tree unit: connect, schema gate, requirements, registration, in this order. */
    method LoadUnit(n: string, ghost held: Marks, depth: nat) returns (r: Outcome)
      requires Assumed() && Valid() && OnStack(m, w, own, loose, inFlight, held) && n in w.candies && w.candies[n].OutOfTree()
      requires m.bounded ==> Roomed(w, own, universe, rank, loose, held, n, depth)
      modifies this`reg, this`inFlight, this`clock, this`log
      decreases depth, 3
      ensures Valid() && old(reg.byKey.Keys) <= reg.byKey.Keys
      ensures m.covering && r.Ok? && Coverable(w, start, n) ==> DeclaredBy(w.candies[n]) <= reg.byKey.Keys
      ensures OnStack(m, w, own, loose, inFlight, held) && (m.bounded ==> !r.Overflow?)
      ensures old(Alone(n)) ==>
                && (old(Stuck()) ==> r.Overflow?)
                && (old(Verge()) in {Passes, Stops} && depth > 0 ==> !r.Overflow?)
      ensures m.serving && Ready(w, own, held, n) ==> r.Ok?
      ensures w.serveCandy(n, old(clock)).None? || !w.schemaOk(n, old(clock)) ==>
          r.Failed? && reg == old(reg) && log == old(log)
      ensures r.Ok? ==> Registered(FromCandy(n, old(clock)))
      ensures Registrable(w, n, old(reg)) ==> r.Ok? && DeclaredBy(w.candies[n]) <= reg.byKey.Keys
    {
      var t := Tick();
      var unit := w.serveCandy(n, t);
      if Registrable(w, n, reg) {
        assert RegistersAt(w, n, reg, t);
        PlainRegisters(w, n, reg, t);
      }
      assert m.serving || (m.lone && n == m.u) ==> unit.Some? && w.schemaOk(n, t) by {
        assert Holds(Service) && Holds(Loneliness);
      }
      if unit.None? || !w.schemaOk(n, t) {
        return Failed;
      }
      r := Admit(FromCandy(n, t), n, held, depth);
    }

    /** Connects a baked binary directly and gates it by the requirements on its wire. */
    method LoadBaked(bin: string, ghost held: Marks, depth: nat) returns (r: Outcome)
      requires Assumed() && Valid() && OnStack(m, w, own, loose, inFlight, held) && bin in w.baked.Values
      requires m.bounded ==> Roomed(w, own, universe, rank, loose, held, w.base(bin), depth)
      modifies this`reg, this`inFlight, this`clock, this`log
      decreases depth, 3
      ensures Valid() && old(reg.byKey.Keys) <= reg.byKey.Keys
      ensures OnStack(m, w, own, loose, inFlight, held) && (m.bounded ==> !r.Overflow?)
      ensures w.serveBin(bin, old(clock)).None? || !w.schemaOk(bin, old(clock)) ==>
          r.Failed? && reg == old(reg) && log == old(log)
      ensures r.Ok? ==> Registered(FromBin(bin, old(clock)))
      ensures m.serving && r.Ok? ==> BakedIn(w, bin) <= reg.byKey.Keys
      ensures m.serving && Ready(w, own, held, w.base(bin)) ==> r.Ok?
    {
      var t := Tick();
      var unit := w.serveBin(bin, t);
      assert m.serving ==> unit.Some? && w.schemaOk(bin, t) by {
        assert Holds(Service);
      }
      if unit.None? || !w.schemaOk(bin, t) {
        return Failed;
      }
      r := Admit(FromBin(bin, t), w.base(bin), held, depth);
    }

    /** Gates a connected unit by its own identities and requirements, then registers it. */
    method Admit(u: Unit, name: string, ghost held: Marks, depth: nat) returns (r: Outcome)
      requires Assumed() && Valid() && OnStack(m, w, own, loose, inFlight, held) && IsConnected(w, u) && Loadable(w, u)
      requires name == Named(w, u)
      requires m.bounded ==> Roomed(w, own, universe, rank, loose, held, name, depth)
      modifies this`reg, this`inFlight, this`clock, this`log
      decreases depth, 2
      ensures Valid() && old(reg.byKey.Keys) <= reg.byKey.Keys
      ensures OnStack(m, w, own, loose, inFlight, held) && (m.bounded ==> !r.Overflow?)
      ensures old(Alone(name)) && u.FromCandy? ==>
                && (old(Stuck()) ==> r.Overflow?)
                && (old(Verge()) in {Passes, Stops} && depth > 0 ==> !r.Overflow?)
      ensures r.Ok? ==> Registered(u)
      ensures m.covering && r.Ok? ==> Held(u) <= reg.byKey.Keys
      ensures m.serving && Ready(w, own, held, name) ==> r.Ok?
      ensures Authored(w, u) == [] ==>
                (reg, r) == (AfterUnit(w, old(reg), u).0, if AfterUnit(w, old(reg), u).1.Some? then Failed else Ok)
    {
      UnitFacts(u);
      if m.bounded && |Authored(w, u)| > 0 && Halted(w, own, loose, held, name) {
        HaltedIsBlocked(w, own, loose, held, u);
      }
      r := Gate(name, KeyList(Provided(w, u)), Authored(w, u), held, depth);
      if r.Ok? {
        r := RegisterUnit(u);
      }
    }

    /** What the hypotheses say of a connected unit. */
    lemma UnitFacts(u: Unit)
      requires Assumed() && IsConnected(w, u) && Loadable(w, u)
      ensures var name := Named(w, u);
              |Authored(w, u)| > 0 ==>
                && (m.bounded ==> && name in own && ServedBy(w, u) == own[name] && Gated(w, name)
                                  && Modest(w, start, own, rank, loose, name, Authored(w, u)))
                && (m.serving ==> name in own && AllAttainable(w, own, rank, start, name, Authored(w, u)))
    {
      assert Holds(Boundedness) && Holds(Service);
      if m.bounded && |Authored(w, u)| > 0 {
        UnitIsBounded(w, start, own, universe, rank, loose, u);
      }
    }

    /** What they say of its registration. */
    lemma RegistrationFacts(u: Unit, r: Reg)
      requires Assumed() && IsConnected(w, u) && Loadable(w, u) && inv(r)
      ensures var (r', e) := AfterUnit(w, r, u);
              inv(r') && (m.serving ==> e.None?) && (m.covering && e.None? ==> Held(u) <= r'.byKey.Keys)
    {
      assert Holds(Steadiness) && Holds(Cleanness) && Holds(Coverage);
    }

    /** Registers a connected unit's providers, up to the first that is refused. */
    method RegisterUnit(u: Unit) returns (r: Outcome)
      requires Assumed() && Valid() && IsConnected(w, u) && Loadable(w, u) && NeededBy(w, u) <= reg.byKey.Keys
      modifies this`reg, this`log
      ensures Valid() && old(reg.byKey.Keys) <= reg.byKey.Keys && !r.Overflow?
      ensures (reg, r) == (AfterUnit(w, old(reg), u).0, if AfterUnit(w, old(reg), u).1.Some? then Failed else Ok)
      ensures r.Ok? ==> Registered(u)
      ensures (m.serving ==> r.Ok?) && (m.covering && r.Ok? ==> Held(u) <= reg.byKey.Keys)
    {
      RegistrationFacts(u, reg);
      var (reg', e) := AfterUnit(w, reg, u);
      Enter(u);
      reg := reg';
      r := if e.Some? then Failed else Ok;
    }

    /** The identities that are registered for certain once the unit is. */
    ghost function Held(u: Unit): set<Key> {
      match u
      case FromCandy(n, _) => if Coverable(w, start, n) then DeclaredBy(w.candies[n]) else {}
      case FromBin(b, _) => if m.serving then BakedIn(w, b) else {}
    }

    /** A registered identity, or a baked binary connected for it. */
    method ConnectBaked(c: Cap, ghost held: Marks, depth: nat) returns (r: Outcome)
      requires Assumed() && Valid() && OnStack(m, w, own, loose, inFlight, held)
      requires m.bounded ==> Open(w, own, rank, loose, held, c) && Room(universe, held.Keys) + Spare(loose) <= depth
      modifies this`reg, this`inFlight, this`clock, this`log
      decreases depth, 4
      ensures Valid() && old(reg.byKey.Keys) <= reg.byKey.Keys
      ensures r.Ok? ==> c.key in reg.byKey
      ensures OnStack(m, w, own, loose, inFlight, held) && (m.bounded ==> !r.Overflow?)
      ensures c.key in old(reg.byKey) ==> r.Ok? && unchanged(this)
      ensures c.key !in old(reg.byKey) && c.key !in w.baked ==> r.Failed? && unchanged(this)
      ensures m.serving && c.key in w.baked && LoadsReady(w, own, held, c) ==> r.Ok?
    {
      if c.key in reg.byKey {
        return Ok;
      }
      if c.key in w.baked {
        var bin := w.baked[c.key];
        assert bin in w.baked.Values && c.key in BakedIn(w, bin) && Loads(w, c, w.base(bin));
        assert m.bounded && Gated(w, w.base(bin)) ==>
            w.base(bin) in own && own[w.base(bin)] == BakedIn(w, bin) && own[w.base(bin)] <= universe by {
          assert Holds(Boundedness);
        }
        if m.bounded && Gated(w, w.base(bin)) {
          UnitIsRoomed(w, own, universe, rank, loose, held, w.base(bin), c.key, depth);
        }
        r := LoadBaked(bin, held, depth);
        if r.Overflow? || (r.Ok? && c.key in reg.byKey) {
          return;
        }
      }
      r := Failed;
    }

    /** The latest registration was this unit's, and was not refused. */
    ghost predicate Registered(u: Unit)
      reads this
    {
      && |log| > 0 && log[|log| - 1].unit == u && IsConnected(w, u) && reg == log[|log| - 1].after
      && AfterUnit(w, log[|log| - 1].before, u).1.None?
    }

    /** Records the registration about to happen. */
    ghost method Enter(u: Unit)
      requires Valid() && IsConnected(w, u) && NeededBy(w, u) <= reg.byKey.Keys
      modifies this`log
      ensures log == old(log) + [Entry(u, reg, AfterUnit(w, reg, u).0)]
      ensures History(w, start, log, AfterUnit(w, reg, u).0) && reg.byKey.Keys <= AfterUnit(w, reg, u).0.byKey.Keys
    {
      var e := Entry(u, reg, AfterUnit(w, reg, u).0);
      HistorySnoc(w, start, log, e);
      UnitBringsItsOwn(w, reg, u);
      log := log + [e];
    }
  }

  /** The unit is one that a load may come to: an out-of-tree candy, or a baked binary. */
  predicate Loadable(w: World, u: Unit) {
    match u
    case FromCandy(n, _) => n in w.candies && w.candies[n].OutOfTree()
    case FromBin(b, _) => b in w.baked.Values
  }

  function Named(w: World, u: Unit): string {
    match u
    case FromCandy(n, _) => n
    case FromBin(b, _) => w.base(b)
  }

  lemma UnitIsBounded(w: World, start: Reg, own: map<string, set<Key>>, universe: set<Key>, rank: map<string, nat>,
                      loose: set<string>, u: Unit)
    requires Bounded(w, start, own, universe, rank, loose) && IsConnected(w, u) && Loadable(w, u) && |Authored(w, u)| > 0
    ensures var name := Named(w, u);
            && name in own && ServedBy(w, u) == own[name] && Gated(w, name)
            && Modest(w, start, own, rank, loose, name, Authored(w, u))
  {
  }

  /** An out-of-tree candy that provides one of the words. */
  predicate Referenced(w: World, n: string, words: set<string>) {
    n in w.candies && w.candies[n].OutOfTree() && Provides(w.candies[n], words)
  }

  /** Candy n is the only one of the scan that is referenced. */
  ghost predicate OnlyOne(w: World, names: set<string>, words: set<string>, n: string) {
    Referenced(w, n, words) && forall m :: m in names && Referenced(w, m, words) ==> m == n
  }

  /** Compiled-in sources are never loaded: a candy is loaded for a word only if it is a plugin with a source of
      its own, and declares a capability of that word. */
  lemma ReferencedExactly(w: World, n: string, words: set<string>)
    ensures Referenced(w, n, words) <==>
              && n in w.candies && w.candies[n].isPlugin && w.candies[n].source !in {"", "builtin"}
              && exists c: Cap :: Some(c) in w.candies[n].caps && c.word in words
  {
    if Referenced(w, n, words) {
      var i :| 0 <= i < |w.candies[n].caps| && w.candies[n].caps[i].Some? && w.candies[n].caps[i].value.word in words;
      assert Some(w.candies[n].caps[i].value) in w.candies[n].caps;
    }
  }

  /** A scan finds no referenced candy. */
  ghost predicate Unreferenced(w: World, names: set<string>, words: set<string>) {
    forall n :: n in names ==> !Referenced(w, n, words)
  }

  /** The candy that a scan finds for c. */
  ghost function Found(w: World, c: Cap, ref: bool, r: Reg, t: nat): (n: string)
    requires Brings(w, c, ref, r)
    ensures w.scan(ref, t).Some? && n in w.scan(ref, t).value && OnlyOne(w, w.scan(ref, t).value, {c.word}, n)
    ensures Registrable(w, n, r) && c.key in DeclaredBy(w.candies[n])
  {
    var n :| n in w.candies && Registrable(w, n, r) && Finds(w, c, ref, n)
             && c.key in DeclaredBy(w.candies[n]) && Provides(w.candies[n], {c.word});
    assert RegistersAt(w, n, r, t);
    n
  }

  lemma NothingServes(w: World, c: Cap, ref: bool, t: nat, names: set<string>)
    requires Unfound(w, c, ref) && w.scan(ref, t) == Some(names)
    ensures Unreferenced(w, names, {c.word})
  {
  }

  /** One requirement of a lone unit comes out as it must. */
  predicate Fated(f: Fate, stuck: bool, r: Outcome) {
    match f
    case Passes => r.Ok?
    case Stops => r.Failed?
    case Circles => stuck ==> r.Overflow?
    case Unclear => true
  }

  /** Every referenced candy among `names` that can be covered has its identities among `keys`. */
  ghost predicate Covers(w: World, start: Reg, names: set<string>, words: set<string>, keys: set<Key>) {
    forall n :: n in names && Coverable(w, start, n) && Provides(w.candies[n], words) ==> DeclaredBy(w.candies[n]) <= keys
  }

  lemma CoversMore(w: World, start: Reg, names: set<string>, todo: set<string>, n: string, words: set<string>,
                   keys: set<Key>, keys': set<Key>)
    requires Covers(w, start, names - todo, words, keys) && keys <= keys'
    requires Coverable(w, start, n) && Provides(w.candies[n], words) ==> DeclaredBy(w.candies[n]) <= keys'
    ensures Covers(w, start, names - (todo - {n}), words, keys')
  {
  }

  ghost predicate Roomy(w: World, own: map<string, set<Key>>, universe: set<Key>, rank: map<string, nat>, loose: set<string>,
                        names: set<string>, words: set<string>, held: Marks, depth: nat) {
    forall n :: n in names && Referenced(w, n, words) ==> Roomed(w, own, universe, rank, loose, held, n, depth)
  }

  /** The gate of unit n, if it has one, fits or halts. */
  ghost predicate Roomed(w: World, own: map<string, set<Key>>, universe: set<Key>, rank: map<string, nat>, loose: set<string>,
                         held: Marks, n: string, depth: nat)
  {
    Gated(w, n) ==> n in own && (|| Fits(universe, rank, loose, held, n, own[n], depth)
                                 || (Halted(w, own, loose, held, n) && 0 < depth))
  }

  /** A unit that halts in every form it may take, halts in this one. */
  lemma HaltedIsBlocked(w: World, own: map<string, set<Key>>, loose: set<string>, held: Marks, u: Unit)
    requires IsConnected(w, u) && Loadable(w, u) && |Authored(w, u)| > 0 && Halted(w, own, loose, held, Named(w, u))
    ensures Blocked(own, loose, held, Named(w, u), Authored(w, u))
  {
    var v :| Atop(own, held, v) && v !in loose && Halts(w, Named(w, u), own[v]);
    assert HeadIn(Authored(w, u), own[v]);
  }

  lemma HaltedCandyIsBlocked(w: World, own: map<string, set<Key>>, loose: set<string>, held: Marks, n: string)
    requires n in w.candies && w.candies[n].OutOfTree() && |w.candies[n].requirements| > 0 && Halted(w, own, loose, held, n)
    ensures Blocked(own, loose, held, n, w.candies[n].requirements)
  {
    var v :| Atop(own, held, v) && v !in loose && Halts(w, n, own[v]);
    assert HeadIn(w.candies[n].requirements, own[v]);
  }

  /** The candies loaded for the word of an open identity have room for their gates. */
  lemma WordsFit(w: World, start: Reg, own: map<string, set<Key>>, universe: set<Key>, rank: map<string, nat>, loose: set<string>,
                 held: Marks, c: Cap, names: set<string>, depth: nat)
    requires Bounded(w, start, own, universe, rank, loose) && Open(w, own, rank, loose, held, c)
    requires Room(universe, held.Keys) + Spare(loose) <= depth
    ensures Roomy(w, own, universe, rank, loose, names, {c.word}, held, depth)
  {
    forall n | n in names && Referenced(w, n, {c.word})
      ensures Roomed(w, own, universe, rank, loose, held, n, depth)
    {
      if Gated(w, n) {
        assert Loads(w, c, n);
        var i :| 0 <= i < |w.candies[n].caps| && w.candies[n].caps[i].Some? && w.candies[n].caps[i].value.word in {c.word};
        DeclaredKey(w.candies[n], i);
        UnitIsRoomed(w, own, universe, rank, loose, held, n, w.candies[n].caps[i].value.key, depth);
      }
    }
  }

  function KeyList(ps: seq<Provider>): (ks: seq<Key>)
    ensures KeySet(ks) == Keys(ps)
  {
    var ks := seq(|ps|, i requires 0 <= i < |ps| => ps[i].key);
    assert KeySet(ks) == Keys(ps) by {
      forall k | k in Keys(ps) ensures k in ks {
        var i :| 0 <= i < |ps| && ps[i].key == k;
        assert ks[i] == k;
      }
    }
    ks
  }

  /** The well-formed entries of a candy's capability list, in their order. */
  function KeysDeclared(caps: seq<Option<Key>>): (keys: seq<Key>)
    ensures KeySet(keys) == Declared(caps)
  {
    if |caps| == 0 then []
    else
      var n := |caps| - 1;
      var front := KeysDeclared(caps[..n]);
      DeclaredSnoc(caps, n);
      assert caps[..n + 1] == caps;
      if caps[n].Some? then
        assert KeySet(front + [caps[n].value]) == KeySet(front) + {caps[n].value};
        front + [caps[n].value]
      else front
  }

  lemma NeedsSnoc(reqs: seq<Requirement>, n: nat)
    requires n < |reqs|
    ensures Needs(reqs[..n + 1]) == Needs(reqs[..n])
              + (if reqs[n].cap.Some? && !reqs[n].optional then {reqs[n].cap.value.key} else {})
  {
    var upto := reqs[..n + 1];
    forall k | k in Needs(upto)
      ensures k in Needs(reqs[..n]) + (if reqs[n].cap.Some? && !reqs[n].optional then {reqs[n].cap.value.key} else {})
    {
      var i :| 0 <= i < n + 1 && upto[i].cap.Some? && !upto[i].optional && upto[i].cap.value.key == k;
      if i < n {
        assert reqs[..n][i] == upto[i];
      }
    }
    var front := reqs[..n];
    forall k | k in Needs(front) ensures k in Needs(upto) {
      var i :| 0 <= i < n && front[i].cap.Some? && !front[i].optional && front[i].cap.value.key == k;
      assert upto[i] == front[i];
    }
    assert upto[n] == reqs[n];
  }

  // --------------------------------------------------------------- whole loads

  /** The steady property a load keeps: nothing registered is lost, and no source that can be covered is
      divided; where the load must succeed, units stay whole and no other plugin takes a baked binary's
      identities. */
  ghost function Kept(w: World, start: Reg, m: Mode): Reg -> bool {
    if m.serving then (r: Reg) => AllClear(w, start, r) else (r: Reg) => AllUndivided(w, start, r)
  }

  lemma NothingOnStackFits(w: World, start: Reg, own: map<string, set<Key>>, universe: set<Key>, rank: map<string, nat>,
                           loose: set<string>, names: set<string>, words: set<string>, depth: nat)
    requires Bounded(w, start, own, universe, rank, loose) && |universe| + Spare(loose) < depth
    ensures Roomy(w, own, universe, rank, loose, names, words, map[], depth)
  {
    var none: Marks := map[];
    forall n | n in names && n in w.candies && w.candies[n].OutOfTree() && Gated(w, n)
      ensures Roomed(w, own, universe, rank, loose, none, n, depth)
    {
      RoomAtMost(universe, none.Keys + own[n]);
    }
  }

  /** Where every requirement is attainable, none climbs, not even to a loose unit. */
  lemma ServingDescends(w: World, start: Reg, own: map<string, set<Key>>, universe: set<Key>, rank: map<string, nat>,
                        loose: set<string>)
    requires Bounded(w, start, own, universe, rank, loose) && Serving(w, own, rank, start)
    ensures Bounded(w, start, own, universe, rank, {})
  {
    forall n | n in w.candies && w.candies[n].OutOfTree() && |w.candies[n].requirements| > 0
      ensures Modest(w, start, own, rank, {}, n, w.candies[n].requirements)
    {
      AttainableIsModest(w, start, own, universe, rank, loose, n, w.candies[n].requirements);
    }
    forall b, t: nat | b in w.baked.Values && w.serveBin(b, t).Some? && |w.serveBin(b, t).value.wire| > 0
      ensures Modest(w, start, own, rank, {}, w.base(b), w.serveBin(b, t).value.wire)
    {
      AttainableIsModest(w, start, own, universe, rank, loose, w.base(b), w.serveBin(b, t).value.wire);
    }
  }

  lemma AttainableIsModest(w: World, start: Reg, own: map<string, set<Key>>, universe: set<Key>, rank: map<string, nat>,
                           loose: set<string>, u: string, reqs: seq<Requirement>)
    requires Bounded(w, start, own, universe, rank, loose) && u in own
    requires Modest(w, start, own, rank, loose, u, reqs) && AllAttainable(w, own, rank, start, u, reqs)
    ensures Modest(w, start, own, rank, {}, u, reqs)
  {
    forall i | 0 <= i < |reqs| && reqs[i].cap.Some? && reqs[i].cap.value.key !in start.byKey
      ensures NoClimb(w, own, rank, {}, u, reqs[i].cap.value)
    {
      var c := reqs[i].cap.value;
      assert Attainable(w, own, rank, start, u, reqs[i]);
      forall v | v in own && Loads(w, c, v) && Gated(w, v) ensures rank[v] < rank[u] {
        LoadedHasIdentity(w, start, own, universe, rank, loose, c, v);
      }
    }
  }

  lemma LoadedHasIdentity(w: World, start: Reg, own: map<string, set<Key>>, universe: set<Key>, rank: map<string, nat>,
                          loose: set<string>, c: Cap, v: string)
    requires Bounded(w, start, own, universe, rank, loose) && v in own && Loads(w, c, v) && Gated(w, v)
    ensures own[v] != {}
  {
    if c.key in w.baked && v == w.base(w.baked[c.key]) {
      assert w.baked[c.key] in w.baked.Values && c.key in BakedIn(w, w.baked[c.key]);
    } else {
      var i :| 0 <= i < |w.candies[v].caps| && w.candies[v].caps[i].Some? && w.candies[v].caps[i].value.word in {c.word};
      DeclaredKey(w.candies[v], i);
    }
  }

  /** What a load may rely on in its project. */
  ghost function LoadMode(w: World, start: Reg, depth: nat, own: map<string, set<Key>>, universe: set<Key>,
                          rank: map<string, nat>, loose: set<string>): Mode {
    var bounded := Bounded(w, start, own, universe, rank, loose) && |universe| + Spare(loose) < depth;
    var tidy := Tidy(w, start) && AllWhole(w, start, start);
    Mode(bounded, true, bounded && tidy && NoTwins(w, own) && Serving(w, own, rank, start) && BinsClear(w, start), false, "")
  }

  lemma LoadModeHolds(w: World, start: Reg, depth: nat, own: map<string, set<Key>>, universe: set<Key>,
                      rank: map<string, nat>, loose: set<string>)
    requires Inv(start)
    ensures var m := LoadMode(w, start, depth, own, universe, rank, loose);
            var inv := Kept(w, start, m);
            && Steady(w, inv) && inv(start) && (forall r :: inv(r) ==> Inv(r) && Extends(start, r))
            && Covering(w, start, inv) && (m.serving ==> Clean(w, inv) && AllCoverable(w, start))
  {
    var m := LoadMode(w, start, depth, own, universe, rank, loose);
    if m.serving {
      TidyIsCoverable(w, start);
      TidyCovers(w, start);
      ClearIsClean(w, start);
    } else {
      UndividedCovers(w, start);
    }
  }

  /** One load of a process: what its scan found, and the words it is scoped by. */
  datatype Load = Load(names: set<string>, words: set<string>)

  /** A process's loads came out as its project promises: only the last can crash it, and none does in a
      bounded project; each that reports no error covers what it referred to; and all succeed in one that
      serves. */
  ghost predicate Outcomes(w: World, start: Reg, m: Mode, loads: seq<Load>, rs: seq<Outcome>, keys: set<Key>) {
    && |rs| <= |loads| && (|rs| < |loads| ==> |rs| > 0 && rs[|rs| - 1].Overflow?)
    && (forall i :: 0 <= i < |rs| - 1 || (m.bounded && i == |rs| - 1 >= 0) ==> !rs[i].Overflow?)
    && (forall i :: 0 <= i < |rs| && rs[i].Ok? ==> Covers(w, start, loads[i].names, loads[i].words, keys))
    && (m.serving ==> forall i :: 0 <= i < |rs| ==> rs[i].Ok?)
  }

  lemma OutcomesSnoc(w: World, start: Reg, m: Mode, loads: seq<Load>, rs: seq<Outcome>, keys: set<Key>, r: Outcome, keys': set<Key>)
    requires |rs| < |loads| && Outcomes(w, start, m, loads[..|rs|], rs, keys) && (forall i :: 0 <= i < |rs| ==> !rs[i].Overflow?)
    requires keys <= keys' && (m.bounded ==> !r.Overflow?) && (m.serving ==> r.Ok?)
    requires r.Ok? ==> Covers(w, start, loads[|rs|].names, loads[|rs|].words, keys')
    ensures Outcomes(w, start, m, loads[..|rs| + 1], rs + [r], keys')
  {
    var rs' := rs + [r];
    forall i | 0 <= i < |rs'| && rs'[i].Ok?
      ensures Covers(w, start, loads[..|rs| + 1][i].names, loads[..|rs| + 1][i].words, keys')
    {
      if i < |rs| {
        assert rs[i].Ok? && Covers(w, start, loads[..|rs|][i].names, loads[..|rs|][i].words, keys);
      }
    }
  }

  lemma OutcomesWhole(w: World, start: Reg, m: Mode, loads: seq<Load>, rs: seq<Outcome>, keys: set<Key>)
    requires |rs| <= |loads| && Outcomes(w, start, m, loads[..|rs|], rs, keys)
    requires |rs| < |loads| ==> |rs| > 0 && rs[|rs| - 1].Overflow?
    ensures Outcomes(w, start, m, loads, rs, keys)
  {
    forall i | 0 <= i < |rs| && rs[i].Ok?
      ensures Covers(w, start, loads[i].names, loads[i].words, keys)
    {
      assert loads[..|rs|][i] == loads[i];
    }
  }

  /** Any sequence of loads of one process, for every behaviour of the oracles and every order of the
      candies.  The log is the registry's whole history, every registration in it is lawful, and no
      earlier one is lost.  In a bounded project one stack frame more than there are identities, or
      two where some unit is loose, are enough for every load, whatever marks an earlier one left; and only a gated unit that shares some
      but not all identities with another leaves any. */
  method LoadAll(w: World, start: Reg, loads: seq<Load>, depth: nat,
                 ghost own: map<string, set<Key>>, ghost universe: set<Key>, ghost rank: map<string, nat>,
                 ghost loose: set<string>)
      returns (rs: seq<Outcome>, reg: Reg, inFlight: Marks, ghost log: seq<Entry>)
    requires Inv(start)
    ensures Inv(reg) && Extends(start, reg) && History(w, start, log, reg)
    ensures Outcomes(w, start, LoadMode(w, start, depth, own, universe, rank, loose), loads, rs, reg.byKey.Keys)
    ensures Bounded(w, start, own, universe, rank, loose) && |universe| + Spare(loose) < depth ==> Marked(w, own, loose, inFlight, map[])
  {
    ghost var m := LoadMode(w, start, depth, own, universe, rank, loose);
    LoadModeHolds(w, start, depth, own, universe, rank, loose);
    if m.serving {
      ServingDescends(w, start, own, universe, rank, loose);
    }
    var loader := new PluginLoader(w, start, m, Kept(w, start, m), own, universe, rank, if m.serving then {} else loose);
    rs := loader.LoadEach(loads, depth);
    reg, inFlight, log := loader.reg, loader.inFlight, loader.log;
  }

  /** One load from a fresh process.  A load without an error leaves every referenced candy's identities
      registered, if its own source can be covered.  In a bounded project one stack frame more than there
      are identities is enough, or two where some unit is loose, and when no two gated units overlap in
      part nothing is left in flight.  When besides all this the project is tidy, starts whole and is
      serving, and no other plugin holds what is baked, the load succeeds. */
  method LoadPlugins(w: World, start: Reg, names: set<string>, words: set<string>, depth: nat,
                     ghost own: map<string, set<Key>>, ghost universe: set<Key>, ghost rank: map<string, nat>,
                     ghost loose: set<string>)
      returns (r: Outcome, reg: Reg, inFlight: Marks, ghost log: seq<Entry>)
    requires Inv(start)
    ensures Inv(reg) && Extends(start, reg) && History(w, start, log, reg)
    ensures r.Ok? ==> Covers(w, start, names, words, reg.byKey.Keys)
    ensures Bounded(w, start, own, universe, rank, loose) && |universe| + Spare(loose) < depth ==>
              !r.Overflow? && (NoTwins(w, own) ==> inFlight == map[])
    ensures (&& Bounded(w, start, own, universe, rank, loose) && |universe| + Spare(loose) < depth && NoTwins(w, own) && Tidy(w, start)
             && AllWhole(w, start, start) && BinsClear(w, start) && Serving(w, own, rank, start)) ==> r.Ok?
  {
    var rs;
    rs, reg, inFlight, log := LoadAll(w, start, [Load(names, words)], depth, own, universe, rank, loose);
    r := rs[0];
    if Bounded(w, start, own, universe, rank, loose) && |universe| + Spare(loose) < depth && NoTwins(w, own) {
      NothingLeft(w, own, loose, inFlight, map[]);
    }
  }

  /** A candy on its own recurses without end exactly when its first requirement that is neither met
      nor skipped is for its own word: then its load crashes at every stack depth, and otherwise one
      frame is enough. */
  method LoadLone(w: World, reg: Reg, u: string, words: set<string>, depth: nat) returns (r: Outcome)
    requires Lone(w, u) && Provides(w.candies[u], words)
    requires FateOf(w, w.candies[u], reg.byKey.Keys, w.candies[u].requirements) != Unclear
    ensures var circles := && FateOf(w, w.candies[u], reg.byKey.Keys, w.candies[u].requirements) == Circles
                           && Verdict(reg, w.candies[u].source, DeclaredBy(w.candies[u])) != Collision;
            (circles ==> r.Overflow?) && (depth > 0 && r.Overflow? ==> circles)
  {
    ghost var m := Mode(false, false, false, true, u);
    var loader := new PluginLoader(w, reg, m, (x: Reg) => true, map[], {}, map[], {});
    r := loader.LoadProject({u}, words, map[], depth, u);
  }

  /** Such projects exist, and every oracle may be at its best: a candy that requires its own
      capability (d == c), or another capability under one of its own words (d.word == c.word). */
  lemma LoopingExists(u: string, source: string, c: Cap, d: Cap, unit: Served)
    requires source != "" && source != BUILTIN && d.word == c.word
    ensures var candy := Candy(true, source, [Some(d)], [Requirement(Some(c), "", false)]);
            var w := World(map[u := candy], map[], b => b, (n, t) => Some(unit), (n, t) => Some(unit), (n, t) => true,
                           t => true, (ref, t) => Some({u}), (k, ref) => false, {});
            && Lone(w, u) && FateOf(w, candy, {}, candy.requirements) == Circles
            && Verdict(EMPTY, source, DeclaredBy(candy)) == Missing
  {
    var candy := Candy(true, source, [Some(d)], [Requirement(Some(c), "", false)]);
    DeclaredKey(candy, 0);
  }

  // ----------------------------------------------------------- projects that load

  function OneCap(source: string, c: Cap, requirements: seq<Requirement>): Candy {
    Candy(true, source, [Some(c)], requirements)
  }

  function OneProvider(c: Cap): Served { Served([Provider(c.key, c.word, "", 0)], []) }

  /** Two candies, the first requiring what the second declares; nothing fails and nothing is baked. */
  function Chain(a: string, b: string, x: string, y: string, c: Cap, d: Cap): World {
    World(map[a := OneCap(x, c, [Requirement(Some(d), "", false)]), b := OneCap(y, d, [])], map[], bin => bin,
          (n, t) => Some(OneProvider(if n == a then c else d)), (bin, t) => None, (n, t) => true, t => true,
          (ref, t) => Some({a, b}), (k, ref) => false, {})
  }

  lemma OneCapDeclares(source: string, c: Cap, requirements: seq<Requirement>)
    ensures DeclaredBy(OneCap(source, c, requirements)) == {c.key} == Keys(OneProvider(c).providers)
  {
    DeclaredKey(OneCap(source, c, requirements), 0);
    assert OneProvider(c).providers[0].key in Keys(OneProvider(c).providers);
  }

  lemma BoundedWithoutBins(w: World, start: Reg, own: map<string, set<Key>>, universe: set<Key>, rank: map<string, nat>,
                           loose: set<string>)
    requires w.baked == map[] && "" !in own && own.Keys <= rank.Keys && Apart(w, own, loose)
    requires forall u :: u in own ==> own[u] <= universe
    requires forall n :: n in w.candies ==>
               n in own && own[n] == DeclaredBy(w.candies[n]) && Modest(w, start, own, rank, loose, n, w.candies[n].requirements)
    requires forall n, t: nat :: n in w.candies && w.serveCandy(n, t).Some? ==>
               Keys(w.serveCandy(n, t).value.providers) == DeclaredBy(w.candies[n])
    ensures Bounded(w, start, own, universe, rank, loose)
  {
  }

  lemma ChainIsBounded(a: string, b: string, x: string, y: string, c: Cap, d: Cap)
    requires a != b && a != "" && b != "" && c.word != d.word && c.key != d.key
    ensures var w, own := Chain(a, b, x, y, c, d), map[a := {c.key}, b := {d.key}];
            Bounded(w, EMPTY, own, {c.key, d.key}, map[a := 1, b := 0], {}) && NoTwins(w, own)
  {
    var w, own, rank := Chain(a, b, x, y, c, d), map[a := {c.key}, b := {d.key}], map[a := 1, b := 0];
    OneCapDeclares(x, c, [Requirement(Some(d), "", false)]);
    OneCapDeclares(y, d, []);
    forall u | Gated(w, u) ensures u == a && !Loads(w, d, u) {
      ChainGates(a, b, x, y, c, d, u);
    }
    forall n | n in w.candies ensures n in own && Modest(w, EMPTY, own, rank, {}, n, w.candies[n].requirements) {
    }
  }

  /** Two candies in a circle: the first requires what the second declares, and the second another identity
      under the first one's word. */
  function Circle(a: string, b: string, x: string, y: string, c: Cap, d: Cap, e: Cap): World {
    Chain(a, b, x, y, c, d).(candies := map[a := OneCap(x, c, [Requirement(Some(d), "", false)]),
                                            b := OneCap(y, d, [Requirement(Some(e), "", false)])])
  }

  lemma CircleLoads(a: string, b: string, x: string, y: string, c: Cap, d: Cap, e: Cap, u: string)
    requires a != b && x != "" && x != BUILTIN && y != "" && y != BUILTIN && e.word == c.word != d.word
    ensures var w := Circle(a, b, x, y, c, d, e);
            (Loads(w, d, u) <==> u == b) && (Loads(w, e, u) <==> u == a) && (Gated(w, u) <==> u in {a, b})
  {
    var w := Circle(a, b, x, y, c, d, e);
    assert w.candies[a].caps[0].value.word in {e.word} && w.candies[b].caps[0].value.word in {d.word};
  }

  lemma CircleIsModest(a: string, b: string, x: string, y: string, c: Cap, d: Cap, e: Cap)
    requires a != b && x != "" && x != BUILTIN && y != "" && y != BUILTIN && e.word == c.word != d.word
    ensures var w, own, rank := Circle(a, b, x, y, c, d, e), map[a := {c.key}, b := {d.key}], map[a := 1, b := 0];
            NoClimb(w, own, rank, {a}, a, d) && NoClimb(w, own, rank, {a}, b, e)
  {
    var w := Circle(a, b, x, y, c, d, e);
    forall u ensures (Loads(w, d, u) <==> u == b) && (Loads(w, e, u) <==> u == a) && (Gated(w, u) <==> u in {a, b}) {
      CircleLoads(a, b, x, y, c, d, e, u);
    }
    assert Halts(w, a, {d.key});
  }

  /** A requirement of candy u that is not registered from the start does not climb. */
  lemma CandyDescends(w: World, start: Reg, own: map<string, set<Key>>, universe: set<Key>, rank: map<string, nat>, u: string,
                      v: string)
    requires Bounded(w, start, own, universe, rank, {}) && u in w.candies && w.candies[u].OutOfTree() && v in own && Gated(w, v)
    requires |w.candies[u].requirements| > 0 && w.candies[u].requirements[0].cap.Some?
    requires var c := w.candies[u].requirements[0].cap.value; c.key !in start.byKey && Loads(w, c, v)
    ensures u in rank && v in rank && rank[v] <= rank[u]
    ensures w.candies[u].requirements[0].cap.value.key !in own[v] ==> rank[v] < rank[u]
  {
    assert NoClimb(w, own, rank, {}, u, w.candies[u].requirements[0].cap.value);
  }

  /** Such a circle is bounded, for the first candy's second gate halts at the second one's mark. */
  lemma CircleIsBounded(a: string, b: string, x: string, y: string, c: Cap, d: Cap, e: Cap)
    requires a != b && a != "" && b != "" && x != "" && x != BUILTIN && y != "" && y != BUILTIN
    requires e.word == c.word != d.word && c.key != d.key && e.key !in {c.key, d.key}
    ensures var own := map[a := {c.key}, b := {d.key}];
            Bounded(Circle(a, b, x, y, c, d, e), EMPTY, own, {c.key, d.key}, map[a := 1, b := 0], {a})
  {
    var w, own, rank := Circle(a, b, x, y, c, d, e), map[a := {c.key}, b := {d.key}], map[a := 1, b := 0];
    OneCapDeclares(x, c, [Requirement(Some(d), "", false)]);
    OneCapDeclares(y, d, [Requirement(Some(e), "", false)]);
    CircleIsModest(a, b, x, y, c, d, e);
    BoundedWithoutBins(w, EMPTY, own, {c.key, d.key}, rank, {a});
  }

  /** But no ranking alone shows it. */
  lemma CircleClimbs(a: string, b: string, x: string, y: string, c: Cap, d: Cap, e: Cap, rank: map<string, nat>)
    requires a != b && x != "" && x != BUILTIN && y != "" && y != BUILTIN && e.word == c.word != d.word
    requires c.key != d.key && e.key !in {c.key, d.key}
    ensures !Bounded(Circle(a, b, x, y, c, d, e), EMPTY, map[a := {c.key}, b := {d.key}], {c.key, d.key}, rank, {})
  {
    var w, own := Circle(a, b, x, y, c, d, e), map[a := {c.key}, b := {d.key}];
    CircleLoads(a, b, x, y, c, d, e, a);
    CircleLoads(a, b, x, y, c, d, e, b);
    if Bounded(w, EMPTY, own, {c.key, d.key}, rank, {}) {
      CandyDescends(w, EMPTY, own, {c.key, d.key}, rank, a, b);
      CandyDescends(w, EMPTY, own, {c.key, d.key}, rank, b, a);
    }
  }

  lemma ChainIsTidy(a: string, b: string, x: string, y: string, c: Cap, d: Cap)
    requires a != b && x != y && c.key != d.key
    requires !c.key.cls.Other? && !d.key.cls.Other? && |c.word| > 0 && |d.word| > 0
    ensures Tidy(Chain(a, b, x, y, c, d), EMPTY) && AllWhole(Chain(a, b, x, y, c, d), EMPTY, EMPTY)
  {
    OneCapDeclares(x, c, [Requirement(Some(d), "", false)]);
    OneCapDeclares(y, d, []);
  }

  /** Only the first candy is gated, and a connect of the second's identity does not load it. */
  lemma ChainGates(a: string, b: string, x: string, y: string, c: Cap, d: Cap, u: string)
    requires a != b && c.word != d.word && Gated(Chain(a, b, x, y, c, d), u)
    ensures u == a && !Loads(Chain(a, b, x, y, c, d), d, u)
  {
  }

  lemma ChainIsServing(a: string, b: string, x: string, y: string, c: Cap, d: Cap)
    requires a != b && y != "" && y != BUILTIN && IsParse(c) && IsParse(d) && c.word != d.word
    ensures Serving(Chain(a, b, x, y, c, d), map[a := {c.key}, b := {d.key}], map[a := 1, b := 0], EMPTY)
  {
    var w, own, rank := Chain(a, b, x, y, c, d), map[a := {c.key}, b := {d.key}], map[a := 1, b := 0];
    var q := Requirement(Some(d), "", false);
    OneCapDeclares(x, c, [q]);
    OneCapDeclares(y, d, []);
    assert w.candies[b].OutOfTree() && d.key in DeclaredBy(w.candies[b]);
    assert Offered(w, d.key);
    forall u | Gated(w, u) ensures u == a && !Loads(w, d, u) {
      ChainGates(a, b, x, y, c, d, u);
    }
    assert Descends(w, own, rank, a, d);
    assert Attainable(w, own, rank, EMPTY, a, q);
    forall n | n in w.candies
      ensures CapsParse(w.candies[n]) && AllAttainable(w, own, rank, EMPTY, n, w.candies[n].requirements)
    {
    }
  }

  /** What a successful load relies on is consistent: any two capabilities of different words make a
      project that has it all. */
  lemma ServingExists(a: string, b: string, x: string, y: string, s: string, t: string)
    requires a != b && a != "" && b != "" && x != y && y != "" && y != BUILTIN
    requires ParsedCap(s).Some? && ParsedCap(t).Some? && ParsedCap(s).value.word != ParsedCap(t).value.word
    ensures var c, d := ParsedCap(s).value, ParsedCap(t).value;
            var w, own := Chain(a, b, x, y, c, d), map[a := {c.key}, b := {d.key}];
            && Bounded(w, EMPTY, own, {c.key, d.key}, map[a := 1, b := 0], {}) && NoTwins(w, own) && Tidy(w, EMPTY)
            && AllWhole(w, EMPTY, EMPTY) && BinsClear(w, EMPTY) && Serving(w, own, map[a := 1, b := 0], EMPTY)
  {
    var c, d := ParsedCap(s).value, ParsedCap(t).value;
    assert IsParse(c) && IsParse(d);
    if c.key == d.key {
      OneWord(c, d);
    }
    RenderOfParse(s);
    RenderOfParse(t);
    ChainIsBounded(a, b, x, y, c, d);
    ChainIsTidy(a, b, x, y, c, d);
    ChainIsServing(a, b, x, y, c, d);
  }
}
