/**
 A project as the plugin loader meets it: scanned candies, baked binaries, and oracles for
 everything the loader cannot see into (builds, connects, schema gates, scans), which may answer
 differently at every attempt.
 */
module Project {
  import opened Capability
  import opened Options
  import opened Registry

  /** A parsed capability: its key, and the bare word that scopes a load. */
  datatype Cap = Cap(key: Key, word: string)

  /** The parse of an authored capability string. */
  function ParsedCap(s: string): Option<Cap> {
    match SplitCapability(s)
    case None => None
    case Some(id) => Some(Cap(KeyOf(id), id.word))
  }

  /** An authored requirement; `cap` is None when its capability is off the grammar. */
  datatype Requirement = Requirement(cap: Option<Cap>, source: string, optional: bool)

  /** An authored well-formed identity, nested under a parent or not, is one capability: its word is the bare
      one, in whatever class, and its key tells it apart. */
  lemma CapOfRender(id: Identity)
    requires WellFormed(id)
    ensures ParsedCap(ProviderKey(id)) == Some(Cap(KeyOf(id), id.word))
  {
    ParseOfRender(id);
  }

  datatype Candy = Candy(isPlugin: bool, source: string, caps: seq<Option<Cap>>, requirements: seq<Requirement>) {

    /** Only an out-of-tree source is built and connected. */
    predicate OutOfTree() { isPlugin && source != "" && source != BUILTIN }
  }

  /** A connected unit: its providers and the requirements it carries on the wire. */
  datatype Served = Served(providers: seq<Provider>, wire: seq<Requirement>)

  datatype World = World(
    candies: map<string, Candy>,
    baked: map<Key, string>,                          // key -> baked binary
    base: string -> string,                           // a binary's unit name
    serveCandy: (string, nat) -> Option<Served>,      // build, connect and describe at attempt n
    serveBin: (string, nat) -> Option<Served>,
    schemaOk: (string, nat) -> bool,
    configOk: nat -> bool,
    scan: (bool, nat) -> Option<set<string>>,         // the candies a scan finds, without or with the extra ref
    hasRef: (Key, string) -> bool,                    // the requirement's source, or the generated index, names a ref
    reserved: set<string>)

  function LocalOrigin(bin: string): string { "local:" + bin }

  /** Each baked binary registers under an origin of its own. */
  lemma LocalOriginsDiffer(a: string, b: string)
    ensures LocalOrigin(a) == LocalOrigin(b) <==> a == b
    ensures LocalOrigin(a) != BUILTIN
  {
    assert LocalOrigin(a)[|"local:"|..] == a && LocalOrigin(b)[|"local:"|..] == b;
    assert LocalOrigin(a)[0] == 'l';
  }

  function KeysOnly(caps: seq<Option<Cap>>): (ks: seq<Option<Key>>)
    ensures |ks| == |caps|
  {
    seq(|caps|, i requires 0 <= i < |caps| => match caps[i] case None => None case Some(c) => Some(c.key))
  }

  /** The keys a candy declares. */
  function DeclaredBy(c: Candy): set<Key> { Declared(KeysOnly(c.caps)) }

  function BakedIn(w: World, bin: string): set<Key> { set k | k in w.baked && w.baked[k] == bin }

  /** The keys that must be registered before a unit with these requirements is. */
  function Needs(reqs: seq<Requirement>): set<Key> {
    set i | 0 <= i < |reqs| && reqs[i].cap.Some? && !reqs[i].optional :: reqs[i].cap.value.key
  }

  /** The perf-scoping test: some declared capability has a referenced word, in whatever class. */
  predicate Provides(c: Candy, words: set<string>) {
    exists i :: 0 <= i < |c.caps| && c.caps[i].Some? && c.caps[i].value.word in words
  }

  lemma DeclaredKey(c: Candy, i: int)
    requires 0 <= i < |c.caps| && c.caps[i].Some?
    ensures c.caps[i].value.key in DeclaredBy(c)
  {
    assert KeysOnly(c.caps)[i] == Some(c.caps[i].value.key);
  }

  // ------------------------------------------------- what one registration does

  /** The registry after candy n's unit, as connected at attempt t, was registered. */
  function AfterCandy(w: World, r: Reg, n: string, t: nat): (Reg, Option<Error>)
    requires n in w.candies && w.serveCandy(n, t).Some?
  {
    RegisterAll(w.reserved, r, w.serveCandy(n, t).value.providers, w.candies[n].source)
  }

  function AfterBin(w: World, r: Reg, bin: string, t: nat): (Reg, Option<Error>)
    requires w.serveBin(bin, t).Some?
  {
    RegisterAll(w.reserved, r, w.serveBin(bin, t).value.providers, LocalOrigin(bin))
  }

  // ------------------------------------------------- the order of registrations

  /** A unit as one attempt connected it: a candy's, or a baked binary's. */
  datatype Unit = FromCandy(name: string, t: nat) | FromBin(bin: string, t: nat)

  /** One registration, with the registry before and after it. */
  datatype Entry = Entry(unit: Unit, before: Reg, after: Reg)

  predicate IsConnected(w: World, u: Unit) {
    match u
    case FromCandy(n, t) => n in w.candies && w.serveCandy(n, t).Some?
    case FromBin(b, t) => w.serveBin(b, t).Some?
  }

  /** A unit's providers, and its requirements: a candy's by its manifest, a baked binary's by its wire. */
  function Provided(w: World, u: Unit): seq<Provider>
    requires IsConnected(w, u)
  {
    match u
    case FromCandy(n, t) => w.serveCandy(n, t).value.providers
    case FromBin(b, t) => w.serveBin(b, t).value.providers
  }

  function Authored(w: World, u: Unit): seq<Requirement>
    requires IsConnected(w, u)
  {
    match u
    case FromCandy(n, t) => w.candies[n].requirements
    case FromBin(b, t) => w.serveBin(b, t).value.wire
  }

  /** The keys a unit serves, and those that must be registered before it is. */
  function ServedBy(w: World, u: Unit): set<Key>
    requires IsConnected(w, u)
  {
    Keys(Provided(w, u))
  }

  function NeededBy(w: World, u: Unit): set<Key>
    requires IsConnected(w, u)
  {
    Needs(Authored(w, u))
  }

  function AfterUnit(w: World, r: Reg, u: Unit): (Reg, Option<Error>)
    requires IsConnected(w, u)
  {
    match u
    case FromCandy(n, t) => AfterCandy(w, r, n, t)
    case FromBin(b, t) => AfterBin(w, r, b, t)
  }

  /** A unit's registration, made when everything it needs was registered. */
  ghost predicate Lawful(w: World, e: Entry) {
    IsConnected(w, e.unit) && e.after == AfterUnit(w, e.before, e.unit).0 && NeededBy(w, e.unit) <= e.before.byKey.Keys
  }

  /** The log is the whole history of the registry from start to end, and every registration is lawful. */
  ghost predicate History(w: World, start: Reg, log: seq<Entry>, end: Reg) {
    if |log| == 0 then end == start
    else
      var n := |log| - 1;
      log[n].after == end && Lawful(w, log[n]) && History(w, start, log[..n], log[n].before)
  }

  lemma HistorySnoc(w: World, start: Reg, log: seq<Entry>, e: Entry)
    requires History(w, start, log, e.before) && Lawful(w, e)
    ensures History(w, start, log + [e], e.after)
  {
    assert (log + [e])[..|log|] == log;
  }

  lemma UnitBringsItsOwn(w: World, r: Reg, u: Unit)
    requires IsConnected(w, u)
    ensures r.byKey.Keys <= AfterUnit(w, r, u).0.byKey.Keys <= r.byKey.Keys + ServedBy(w, u)
  {
    match u
    case FromCandy(n, t) => BatchBringsItsOwn(w.reserved, r, w.serveCandy(n, t).value.providers, w.candies[n].source);
    case FromBin(b, t) => BatchBringsItsOwn(w.reserved, r, w.serveBin(b, t).value.providers, LocalOrigin(b));
  }

  lemma {:induction false} HistoryGrows(w: World, start: Reg, log: seq<Entry>, end: Reg)
    requires History(w, start, log, end)
    ensures start.byKey.Keys <= end.byKey.Keys
  {
    if |log| > 0 {
      var n := |log| - 1;
      HistoryGrows(w, start, log[..n], log[n].before);
      UnitBringsItsOwn(w, log[n].before, log[n].unit);
    }
  }

  /** Key k was there from the start, or a registration before the i-th brought it. */
  ghost predicate Earlier(start: Reg, log: seq<Entry>, i: int, k: Key)
    requires 0 <= i <= |log|
  {
    k in start.byKey || exists j :: 0 <= j < i && k in log[j].after.byKey && k !in log[j].before.byKey
  }

  lemma EarlierExtends(start: Reg, log: seq<Entry>, n: nat, i: nat, k: Key)
    requires i <= n <= |log| && Earlier(start, log[..n], i, k)
    ensures Earlier(start, log, i, k)
  {
    if k !in start.byKey {
      var j :| 0 <= j < i && k in log[..n][j].after.byKey && k !in log[..n][j].before.byKey;
      assert log[j] == log[..n][j];
    }
  }

  lemma {:induction false} EndHasSource(w: World, start: Reg, log: seq<Entry>, end: Reg, k: Key)
    requires History(w, start, log, end) && k in end.byKey
    ensures Earlier(start, log, |log|, k)
  {
    if |log| > 0 {
      var n := |log| - 1;
      if k in log[n].before.byKey {
        EndHasSource(w, start, log[..n], log[n].before, k);
        EarlierExtends(start, log, n, n, k);
      }
    }
  }

  /** The unit requires q: a candy by its manifest, a baked binary by the wire of that connect. */
  predicate Requires(w: World, u: Unit, q: Requirement)
    requires IsConnected(w, u)
  {
    match u
    case FromCandy(n, _) => q in w.candies[n].requirements
    case FromBin(b, t) => q in w.serveBin(b, t).value.wire
  }

  lemma RequiredIsNeeded(w: World, u: Unit, q: Requirement)
    requires IsConnected(w, u) && Requires(w, u, q) && q.cap.Some? && !q.optional
    ensures q.cap.value.key in NeededBy(w, u)
  {
    var i :| 0 <= i < |Authored(w, u)| && Authored(w, u)[i] == q;
  }

  /** DEPENDENCY CLOSURE: at every registration, each non-optional requirement of the unit had been
      registered strictly earlier. */
  lemma NeedsComeFirst(w: World, start: Reg, log: seq<Entry>, end: Reg, i: int, q: Requirement)
    requires History(w, start, log, end) && 0 <= i < |log|
    ensures IsConnected(w, log[i].unit)
    ensures Requires(w, log[i].unit, q) && q.cap.Some? && !q.optional ==> Earlier(start, log, i, q.cap.value.key)
  {
    NeededComeFirst(w, start, log, end, i, if q.cap.Some? then q.cap.value.key else Key(Verb, ""));
    if Requires(w, log[i].unit, q) && q.cap.Some? && !q.optional {
      RequiredIsNeeded(w, log[i].unit, q);
    }
  }

  lemma {:induction false} NeededComeFirst(w: World, start: Reg, log: seq<Entry>, end: Reg, i: int, k: Key)
    requires History(w, start, log, end) && 0 <= i < |log|
    ensures IsConnected(w, log[i].unit) && (k in NeededBy(w, log[i].unit) ==> Earlier(start, log, i, k))
  {
    var n := |log| - 1;
    if i < n {
      NeededComeFirst(w, start, log[..n], log[n].before, i, k);
      if k in NeededBy(w, log[i].unit) {
        EarlierExtends(start, log, n, i, k);
      }
    } else if k in NeededBy(w, log[n].unit) {
      EndHasSource(w, start, log[..n], log[n].before, k);
      EarlierExtends(start, log, n, n, k);
    }
  }

  /** Every unit that serves a key of c needs a key of c. */
  ghost predicate Knot(w: World, c: set<Key>) {
    forall u :: IsConnected(w, u) && !(ServedBy(w, u) !! c) ==> !(NeededBy(w, u) !! c)
  }

  /** No unit on a cycle of requirements is ever registered. */
  lemma {:induction false} CyclesStayOut(w: World, start: Reg, log: seq<Entry>, end: Reg, c: set<Key>)
    requires History(w, start, log, end) && Knot(w, c) && start.byKey.Keys !! c
    ensures end.byKey.Keys !! c
  {
    if |log| > 0 {
      var n := |log| - 1;
      CyclesStayOut(w, start, log[..n], log[n].before, c);
      assert NeededBy(w, log[n].unit) !! c;
      UnitBringsItsOwn(w, log[n].before, log[n].unit);
    }
  }

  // --------------------------------------------------------- what the code relies on

  /** Only a unit with requirements goes through a gate: an out-of-tree candy by its manifest, a baked
      binary by its wire. */
  ghost predicate Gated(w: World, u: string) {
    || (u in w.candies && w.candies[u].OutOfTree() && |w.candies[u].requirements| > 0)
    || exists b, t: nat :: b in w.baked.Values && w.base(b) == u && w.serveBin(b, t).Some? && |w.serveBin(b, t).value.wire| > 0
  }

  /** A connect of c may load unit u: the binary baked for its key, or an out-of-tree candy that provides
      its bare word, in whatever class. */
  ghost predicate Loads(w: World, c: Cap, u: string) {
    || (c.key in w.baked && u == w.base(w.baked[c.key]))
    || (u in w.candies && w.candies[u].OutOfTree() && Provides(w.candies[u], {c.word}))
  }

  /** What bounds the recursion: a gated unit's name determines its identities and it serves exactly
      those, and requirements never climb, except to a loose unit that halts at once.  `own` names their
      identities, all within `universe`; `rank` orders the units. */
  ghost predicate Bounded(w: World, start: Reg, own: map<string, set<Key>>, universe: set<Key>, rank: map<string, nat>,
                          loose: set<string>) {
    && "" !in own && own.Keys <= rank.Keys && Apart(w, own, loose)
    && (forall u :: u in own ==> own[u] <= universe)
    && (forall n :: n in w.candies && w.candies[n].OutOfTree() && Gated(w, n) ==> n in own && own[n] == DeclaredBy(w.candies[n]))
    && (forall n :: n in w.candies && w.candies[n].OutOfTree() && |w.candies[n].requirements| > 0 ==>
          n in own && Modest(w, start, own, rank, loose, n, w.candies[n].requirements))
    && (forall n, t: nat :: n in w.candies && w.candies[n].OutOfTree() && |w.candies[n].requirements| > 0
                            && w.serveCandy(n, t).Some? ==>
          n in own && Keys(w.serveCandy(n, t).value.providers) == own[n])
    && (forall b :: b in w.baked.Values && Gated(w, w.base(b)) ==> w.base(b) in own && own[w.base(b)] == BakedIn(w, b))
    && (forall b, t: nat :: b in w.baked.Values && w.serveBin(b, t).Some? && |w.serveBin(b, t).value.wire| > 0 ==>
          && w.base(b) in own && Keys(w.serveBin(b, t).value.providers) == own[w.base(b)]
          && Modest(w, start, own, rank, loose, w.base(b), w.serveBin(b, t).value.wire))
  }

  /** Each requirement of u is registered from the start, or names no identity of u itself and does not
      climb. */
  ghost predicate Modest(w: World, start: Reg, own: map<string, set<Key>>, rank: map<string, nat>, loose: set<string>,
                         u: string, reqs: seq<Requirement>)
    requires u in own && own.Keys <= rank.Keys
  {
    forall i :: 0 <= i < |reqs| && reqs[i].cap.Some? && reqs[i].cap.value.key !in start.byKey ==>
      reqs[i].cap.value.key !in own[u] && NoClimb(w, own, rank, loose, u, reqs[i].cap.value)
  }

  /** Whatever a connect of c loads and gates descends from u, or halts under it. */
  ghost predicate NoClimb(w: World, own: map<string, set<Key>>, rank: map<string, nat>, loose: set<string>, u: string, c: Cap)
    requires u in own && own.Keys <= rank.Keys
  {
    forall v :: v in own && Loads(w, c, v) && Gated(w, v) ==>
      Below(own, rank, loose, u, v, c) || (v in loose && u !in loose && Halts(w, v, own[u]))
  }

  /** Unit v ranks lower than u; or as low, if c is an identity of it whose mark no gate of v under its own
      can take away. */
  ghost predicate Below(own: map<string, set<Key>>, rank: map<string, nat>, loose: set<string>, u: string, v: string, c: Cap)
    requires u in own && v in own && own.Keys <= rank.Keys
  {
    rank[v] < rank[u] || (rank[v] == rank[u] && v !in loose && c.key in own[v])
  }

  /** The first requirement of unit v, in whatever form it has any, is for one of the identities. */
  ghost predicate Halts(w: World, v: string, ks: set<Key>) {
    && (v in w.candies && w.candies[v].OutOfTree() && |w.candies[v].requirements| > 0 ==> HeadIn(w.candies[v].requirements, ks))
    && (forall b, t: nat :: b in w.baked.Values && w.base(b) == v && w.serveBin(b, t).Some?
                            && |w.serveBin(b, t).value.wire| > 0 ==>
          HeadIn(w.serveBin(b, t).value.wire, ks))
  }

  predicate HeadIn(reqs: seq<Requirement>, ks: set<Key>)
    requires |reqs| > 0
  {
    reqs[0].cap.Some? && reqs[0].cap.value.key in ks
  }

  /** A loose unit, which may be gated again under its own gate, shares no identity with another gated one. */
  ghost predicate Apart(w: World, own: map<string, set<Key>>, loose: set<string>) {
    forall u, v :: u in loose && u in own && v in own && Gated(w, v) && v != u ==> own[u] !! own[v]
  }

  /** Two gated units share all their identities or none: one unit may go by two names. */
  ghost predicate NoTwins(w: World, own: map<string, set<Key>>) {
    forall u, v :: u in own && v in own && Gated(w, u) && Gated(w, v) ==> own[u] == own[v] || own[u] !! own[v]
  }

  /** Gated unit u shares some of its identities with another one, but not all of both. */
  ghost predicate HasTwin(w: World, own: map<string, set<Key>>, u: string) {
    u in own && Gated(w, u) && exists v :: v in own && Gated(w, v) && own[v] != own[u] && !(own[u] !! own[v])
  }

  // ------------------------------------------------------- a candy on its own

  /** No scan of the closure, without or with the identity's ref, finds a candy that provides its word. */
  ghost predicate Unfound(w: World, c: Cap, ref: bool) {
    forall t: nat, n :: w.scan(ref, t).Some? && n in w.scan(ref, t).value && n in w.candies && w.candies[n].OutOfTree() ==>
      !Provides(w.candies[n], {c.word})
  }

  /** Nothing a connect of c could find serves it. */
  ghost predicate Unserved(w: World, c: Cap) {
    c.key !in w.baked && Unfound(w, c, false) && Unfound(w, c, true)
  }

  /** Every scan of the closure, without or with the ref, finds candy n and no other out-of-tree one that
      provides the word. */
  ghost predicate Finds(w: World, c: Cap, ref: bool, n: string) {
    forall t: nat :: w.scan(ref, t).Some? && n in w.scan(ref, t).value
      && forall m :: m in w.scan(ref, t).value && m in w.candies && w.candies[m].OutOfTree() && Provides(w.candies[m], {c.word}) ==>
           m == n
  }

  /** Whenever it is attempted, candy n loads: it has no requirements, nothing about it fails, it serves
      what it declares, and none of that is held by another plugin, nor all of it by anyone. */
  ghost predicate Registrable(w: World, n: string, r: Reg) { forall t: nat :: RegistersAt(w, n, r, t) }

  ghost predicate RegistersAt(w: World, n: string, r: Reg, t: nat) {
    && n in w.candies && w.candies[n].OutOfTree() && w.candies[n].requirements == []
    && w.serveCandy(n, t).Some? && w.schemaOk(n, t)
    && Keys(w.serveCandy(n, t).value.providers) == DeclaredBy(w.candies[n])
    && Acceptable(w.reserved, w.serveCandy(n, t).value.providers)
    && Inv(r) && Verdict(r, w.candies[n].source, DeclaredBy(w.candies[n])) == Missing
  }

  /** A connect of c must succeed: nothing is baked for it, and the project's own closure has one plain
      candy that provides its word, or else the closure with its ref has; and that one declares it. */
  ghost predicate Reachable(w: World, c: Cap, source: string, r: Reg) {
    && c.key !in w.baked && (forall t: nat :: w.configOk(t))
    && (Brings(w, c, false, r) || (Unfound(w, c, false) && w.hasRef(c.key, source) && Brings(w, c, true, r)))
  }

  /** A scan brings c: it finds one candy that provides the word, which is plain and declares c. */
  ghost predicate Brings(w: World, c: Cap, ref: bool, r: Reg) {
    exists n :: n in w.candies && Registrable(w, n, r) && Finds(w, c, ref, n)
                && c.key in DeclaredBy(w.candies[n]) && Provides(w.candies[n], {c.word})
  }

  lemma PlainRegisters(w: World, n: string, r: Reg, t: nat)
    requires RegistersAt(w, n, r, t)
    ensures var (r', e) := AfterCandy(w, r, n, t); e.None? && DeclaredBy(w.candies[n]) <= r'.byKey.Keys
  {
    var ps := w.serveCandy(n, t).value.providers;
    AcceptedExactlyWhen(w.reserved, r, ps, w.candies[n].source);
    RegisterAllKeys(w.reserved, r, ps, w.candies[n].source);
  }

  datatype Fate = Passes | Stops | Circles | Unclear

  /** What becomes of one requirement of a lone candy once `keys` are registered: it passes when it is
      met or may be skipped, and it circles when the candy itself provides its word. */
  ghost function OneFate(w: World, c: Candy, keys: set<Key>, q: Requirement): Fate {
    if q.cap.None? then Stops
    else if q.cap.value.key in keys then Passes
    else if q.cap.value.key !in w.baked && Provides(c, {q.cap.value.word}) then Circles
    else if !Unserved(w, q.cap.value) then Unclear
    else if q.optional then Passes else Stops
  }

  /** What becomes of those from the i-th on, in their order: the first that does not pass decides. */
  ghost function FateFrom(w: World, c: Candy, keys: set<Key>, reqs: seq<Requirement>, i: nat): Fate
    requires i <= |reqs|
    decreases |reqs| - i
  {
    if i == |reqs| then Passes
    else
      var f := OneFate(w, c, keys, reqs[i]);
      if f.Passes? then FateFrom(w, c, keys, reqs, i + 1) else f
  }

  ghost function FateOf(w: World, c: Candy, keys: set<Key>, reqs: seq<Requirement>): Fate { FateFrom(w, c, keys, reqs, 0) }

  /** Candy u is all that a scan of the project finds, and nothing about it fails. */
  ghost predicate Lone(w: World, u: string) {
    && u in w.candies && w.candies[u].OutOfTree()
    && (forall t: nat :: w.configOk(t) && w.schemaOk(u, t) && w.serveCandy(u, t).Some? && w.scan(false, t) == Some({u}))
  }

  // ------------------------------------------------------------ when loads succeed

  ghost predicate IsParse(c: Cap) { exists s: string :: ParsedCap(s) == Some(c) }

  /** A key determines its word. */
  lemma OneWord(c: Cap, d: Cap)
    requires IsParse(c) && IsParse(d) && c.key == d.key
    ensures c.word == d.word
  {
    var s, t :| ParsedCap(s) == Some(c) && ParsedCap(t) == Some(d);
    var a, b := SplitCapability(s).value, SplitCapability(t).value;
    RenderOfParse(s);
    RenderOfParse(t);
    KeyDecides(a, b);
    KeyIsInjective(a, b);
  }

  /** Nothing fails, every scan finds every out-of-tree candy, and every requirement is attainable. */
  ghost predicate Serving(w: World, own: map<string, set<Key>>, rank: map<string, nat>, start: Reg)
    requires own.Keys <= rank.Keys
  {
    && (forall n, t: nat :: n in w.candies && w.candies[n].OutOfTree() ==> w.serveCandy(n, t).Some? && w.schemaOk(n, t))
    && (forall t: nat :: w.configOk(t) && w.scan(false, t).Some?)
    && (forall t: nat, n :: n in w.candies && w.candies[n].OutOfTree() ==> w.scan(false, t).Some? && n in w.scan(false, t).value)
    && (forall n :: n in w.candies && w.candies[n].OutOfTree() ==>
          && CapsParse(w.candies[n])
          && (|w.candies[n].requirements| > 0 ==> n in own && AllAttainable(w, own, rank, start, n, w.candies[n].requirements)))
    && (forall b, t: nat :: b in w.baked.Values ==>
          && w.serveBin(b, t).Some? && w.schemaOk(b, t) && Acceptable(w.reserved, w.serveBin(b, t).value.providers)
          && (|w.serveBin(b, t).value.wire| > 0 ==>
                w.base(b) in own && AllAttainable(w, own, rank, start, w.base(b), w.serveBin(b, t).value.wire)))
  }

  ghost predicate CapsParse(c: Candy) {
    forall i :: 0 <= i < |c.caps| && c.caps[i].Some? ==> IsParse(c.caps[i].value)
  }

  ghost predicate AllAttainable(w: World, own: map<string, set<Key>>, rank: map<string, nat>, start: Reg, u: string,
                                reqs: seq<Requirement>)
    requires u in own && own.Keys <= rank.Keys
  {
    forall i :: 0 <= i < |reqs| ==> Attainable(w, own, rank, start, u, reqs[i])
  }

  /** A requirement of u that its gate can meet: another gated unit that has the identity ranks lower;
      unless it is registered from the start, so does every gated unit that shares an identity with one
      a connect would load; and unless it is optional too, something serves it. */
  ghost predicate Attainable(w: World, own: map<string, set<Key>>, rank: map<string, nat>, start: Reg, u: string, q: Requirement)
    requires u in own && own.Keys <= rank.Keys
  {
    && q.cap.Some? && IsParse(q.cap.value)
    && (forall v :: v in own && v != u && Gated(w, v) && q.cap.value.key in own[v] ==> rank[v] < rank[u])
    && (q.cap.value.key in start.byKey || Descends(w, own, rank, u, q.cap.value))
    && (q.optional || q.cap.value.key in start.byKey || Offered(w, q.cap.value.key))
  }

  ghost predicate Descends(w: World, own: map<string, set<Key>>, rank: map<string, nat>, u: string, c: Cap)
    requires u in own && own.Keys <= rank.Keys
  {
    forall v, l :: v in own && Gated(w, v) && l in own && Loads(w, c, l) && Gated(w, l) && !(own[v] !! own[l]) ==>
      rank[v] < rank[u]
  }

  /** A baked binary or some out-of-tree candy serves the key. */
  ghost predicate Offered(w: World, k: Key) {
    k in w.baked || exists p :: p in w.candies && w.candies[p].OutOfTree() && k in DeclaredBy(w.candies[p])
  }

  lemma DeclaredWord(c: Candy, cap: Cap)
    requires CapsParse(c) && IsParse(cap) && cap.key in DeclaredBy(c)
    ensures Provides(c, {cap.word})
  {
    var i :| 0 <= i < |c.caps| && KeysOnly(c.caps)[i] == Some(cap.key);
    OneWord(c.caps[i].value, cap);
  }

  /** Under the property no source collides with a candy, no registration is refused, and a baked binary
      registers all that is baked. */
  ghost predicate Clean(w: World, inv: Reg -> bool) {
    && (forall r, n :: inv(r) && n in w.candies && w.candies[n].OutOfTree() ==>
          Verdict(r, w.candies[n].source, DeclaredBy(w.candies[n])) != Collision)
    && (forall r, n, t: nat :: inv(r) && n in w.candies && w.candies[n].OutOfTree() && w.serveCandy(n, t).Some? ==>
          AfterCandy(w, r, n, t).1.None?)
    && (forall r, b, t: nat :: inv(r) && b in w.baked.Values && w.serveBin(b, t).Some? ==>
          AfterBin(w, r, b, t).1.None? && BakedIn(w, b) <= AfterBin(w, r, b, t).0.byKey.Keys)
  }

  /** No other plugin holds an identity of a baked binary. */
  ghost predicate BinsClear(w: World, r: Reg) {
    forall b :: b in w.baked.Values ==> !Collides(r, LocalOrigin(b), BakedIn(w, b))
  }

  ghost predicate AllClear(w: World, start: Reg, r: Reg) { AllWhole(w, start, r) && BinsClear(w, r) }

  /** Keys brought in under one origin collide with none that are compiled in from the start. */
  lemma StaysClear(start: Reg, r: Reg, r': Reg, mine: string, ks: set<Key>, brought: set<Key>, origin: string)
    requires Inv(r) && Inv(r') && Extends(start, r) && Extends(r, r') && !Collides(r, mine, ks)
    requires r'.byKey.Keys <= r.byKey.Keys + brought
    requires forall k :: k in r'.byKey && k !in r.byKey ==> r'.origins[k] == origin
    requires origin == mine || SharedAreCompiledIn(start, brought, ks)
    ensures !Collides(r', mine, ks)
  {
    forall k | k in ks && k in r'.origins ensures r'.origins[k] == BUILTIN || r'.origins[k] == mine {
      if k in r.origins {
        assert r'.origins[k] == r.origins[k];
      } else {
        assert k in r'.byKey && k !in r.byKey;
      }
    }
  }

  lemma CandyKeepsClear(w: World, start: Reg, r: Reg, n: string, t: nat)
    requires Tidy(w, start) && AllClear(w, start, r)
    requires n in w.candies && w.candies[n].OutOfTree() && w.serveCandy(n, t).Some?
    ensures var (r', e) := AfterCandy(w, r, n, t); e.None? && AllClear(w, start, r')
  {
    var ps, source := w.serveCandy(n, t).value.providers, w.candies[n].source;
    var r' := AfterCandy(w, r, n, t).0;
    CandyKeepsWhole(w, start, r, n, t);
    RegisterAllKeeps(w.reserved, r, ps, source);
    RegisterAllKeys(w.reserved, r, ps, source);
    assert Keys(ps) == DeclaredBy(w.candies[n]);
    forall b | b in w.baked.Values ensures !Collides(r', LocalOrigin(b), BakedIn(w, b)) {
      assert SharedAreCompiledIn(start, BakedIn(w, b), DeclaredBy(w.candies[n]));
      StaysClear(start, r, r', LocalOrigin(b), BakedIn(w, b), Keys(ps), source);
    }
  }

  lemma BinKeepsClear(w: World, start: Reg, r: Reg, bin: string, t: nat)
    requires Tidy(w, start) && AllClear(w, start, r) && bin in w.baked.Values && w.serveBin(bin, t).Some?
    requires Acceptable(w.reserved, w.serveBin(bin, t).value.providers)
    ensures var (r', e) := AfterBin(w, r, bin, t); e.None? && AllClear(w, start, r')
  {
    var ps, origin := w.serveBin(bin, t).value.providers, LocalOrigin(bin);
    var r' := AfterBin(w, r, bin, t).0;
    assert origin[0] == 'l';
    BinKeepsWhole(w, start, r, bin, t);
    RegisterAllKeeps(w.reserved, r, ps, origin);
    RegisterAllKeys(w.reserved, r, ps, origin);
    RegistersCleanly(w.reserved, r, ps, origin);
    forall b | b in w.baked.Values ensures !Collides(r', LocalOrigin(b), BakedIn(w, b)) {
      StaysClear(start, r, r', LocalOrigin(b), BakedIn(w, b), Keys(ps), origin);
    }
  }

  lemma ClearIsClean(w: World, start: Reg)
    requires Tidy(w, start)
    requires forall b, t: nat :: b in w.baked.Values && w.serveBin(b, t).Some? ==>
               Acceptable(w.reserved, w.serveBin(b, t).value.providers)
    ensures Clean(w, (r: Reg) => AllClear(w, start, r)) && Steady(w, (r: Reg) => AllClear(w, start, r))
  {
    forall r, n | AllClear(w, start, r) && n in w.candies && w.candies[n].OutOfTree()
      ensures Verdict(r, w.candies[n].source, DeclaredBy(w.candies[n])) != Collision
    {
      assert Whole(r, w.candies[n].source, DeclaredBy(w.candies[n]));
    }
    forall r, n, t: nat | AllClear(w, start, r) && n in w.candies && w.candies[n].OutOfTree() && w.serveCandy(n, t).Some?
      ensures AfterCandy(w, r, n, t).1.None? && AllClear(w, start, AfterCandy(w, r, n, t).0)
    {
      CandyKeepsClear(w, start, r, n, t);
    }
    forall r, b, t: nat | AllClear(w, start, r) && b in w.baked.Values && w.serveBin(b, t).Some?
      ensures AfterBin(w, r, b, t).1.None? && AllClear(w, start, AfterBin(w, r, b, t).0)
              && BakedIn(w, b) <= AfterBin(w, r, b, t).0.byKey.Keys
    {
      BinKeepsClear(w, start, r, b, t);
      RegisterAllKeys(w.reserved, r, w.serveBin(b, t).value.providers, LocalOrigin(b));
    }
  }

  /** A property of registries that every registration keeps. */
  ghost predicate Steady(w: World, inv: Reg -> bool) {
    && (forall r, n, t: nat :: inv(r) && n in w.candies && w.candies[n].OutOfTree() && w.serveCandy(n, t).Some? ==>
          inv(AfterCandy(w, r, n, t).0))
    && (forall r, b, t: nat :: inv(r) && b in w.baked.Values && w.serveBin(b, t).Some? ==> inv(AfterBin(w, r, b, t).0))
  }

  // ------------------------------------------------- what a load without an error covers

  /** Candies of n's source all declare what n declares and their units serve exactly that, in providers
      the registry can accept; and no baked binary registers under that source. */
  ghost predicate Sound(w: World, n: string)
    requires n in w.candies
  {
    && (forall m, t: nat :: SameSource(w, m, n) && w.serveCandy(m, t).Some? ==>
          && Keys(w.serveCandy(m, t).value.providers) == DeclaredBy(w.candies[n])
          && Acceptable(w.reserved, w.serveCandy(m, t).value.providers))
    && (forall m :: SameSource(w, m, n) ==> DeclaredBy(w.candies[m]) == DeclaredBy(w.candies[n]))
    && (forall b :: b in w.baked.Values ==> LocalOrigin(b) != w.candies[n].source)
  }

  predicate SameSource(w: World, m: string, n: string)
    requires n in w.candies
  {
    m in w.candies && w.candies[m].OutOfTree() && w.candies[m].source == w.candies[n].source
  }

  /** Another source holds one of the identities, or this one holds none, or all are registered. */
  ghost predicate Undivided(r: Reg, source: string, declared: set<Key>) {
    Collides(r, source, declared) || !LoadedFrom(r, source, declared) || declared <= r.byKey.Keys
  }

  /** What a candy's own source must meet for a load to cover it; nothing is asked of other sources. */
  ghost predicate Coverable(w: World, start: Reg, n: string) {
    n in w.candies && w.candies[n].OutOfTree() && Sound(w, n) && Undivided(start, w.candies[n].source, DeclaredBy(w.candies[n]))
  }

  ghost predicate AllCoverable(w: World, start: Reg) {
    forall n :: n in w.candies && w.candies[n].OutOfTree() ==> Coverable(w, start, n)
  }

  ghost predicate AllUndivided(w: World, start: Reg, r: Reg) {
    && Inv(r) && Extends(start, r)
    && forall n :: Coverable(w, start, n) ==> Undivided(r, w.candies[n].source, DeclaredBy(w.candies[n]))
  }

  /** A batch under another origin leaves a source undivided; so does one of its own, for a refusal of
      acceptable providers is a collision that lasts. */
  lemma BatchKeepsUndivided(reserved: set<string>, r: Reg, ps: seq<Provider>, origin: string, source: string, declared: set<Key>)
    requires Inv(r) && origin != BUILTIN && Undivided(r, source, declared)
    requires origin == source ==> Keys(ps) == declared && Acceptable(reserved, ps)
    ensures Undivided(RegisterAll(reserved, r, ps, origin).0, source, declared)
  {
    var r' := RegisterAll(reserved, r, ps, origin).0;
    RegisterAllKeeps(reserved, r, ps, origin);
    RegisterAllKeys(reserved, r, ps, origin);
    if Collides(r, source, declared) {
      CollisionLasts(r, r', source, declared);
    } else if origin == source {
      AcceptedExactlyWhen(reserved, r, ps, origin);
    } else if !(declared <= r.byKey.Keys) {
      OthersBringNone(r, r', source, declared, origin);
    }
  }

  lemma CollisionLasts(r: Reg, r': Reg, source: string, declared: set<Key>)
    requires Extends(r, r') && Collides(r, source, declared)
    ensures Collides(r', source, declared)
  {
    var k :| k in declared && k in r.origins && r.origins[k] != BUILTIN && r.origins[k] != source;
    assert r'.origins[k] == r.origins[k];
  }

  lemma OthersBringNone(r: Reg, r': Reg, source: string, declared: set<Key>, origin: string)
    requires Inv(r) && Inv(r') && Extends(r, r') && !LoadedFrom(r, source, declared) && origin != source
    requires forall k :: k in r'.byKey && k !in r.byKey ==> r'.origins[k] == origin
    ensures !LoadedFrom(r', source, declared)
  {
    forall k | k in declared && k in r'.origins && r'.origins[k] == source ensures source == BUILTIN {
      assert k in r'.byKey;
      assert k in r.byKey && k in r.origins;
    }
  }

  lemma CandyKeepsUndivided(w: World, start: Reg, r: Reg, n: string, t: nat)
    requires AllUndivided(w, start, r) && n in w.candies && w.candies[n].OutOfTree() && w.serveCandy(n, t).Some?
    ensures AllUndivided(w, start, AfterCandy(w, r, n, t).0)
  {
    var ps, source := w.serveCandy(n, t).value.providers, w.candies[n].source;
    RegisterAllKeeps(w.reserved, r, ps, source);
    forall m | Coverable(w, start, m)
      ensures Undivided(AfterCandy(w, r, n, t).0, w.candies[m].source, DeclaredBy(w.candies[m]))
    {
      assert source == w.candies[m].source ==> SameSource(w, n, m);
      BatchKeepsUndivided(w.reserved, r, ps, source, w.candies[m].source, DeclaredBy(w.candies[m]));
    }
  }

  lemma BinKeepsUndivided(w: World, start: Reg, r: Reg, bin: string, t: nat)
    requires AllUndivided(w, start, r) && bin in w.baked.Values && w.serveBin(bin, t).Some?
    ensures AllUndivided(w, start, AfterBin(w, r, bin, t).0)
  {
    var ps, origin := w.serveBin(bin, t).value.providers, LocalOrigin(bin);
    assert origin[0] == 'l';
    RegisterAllKeeps(w.reserved, r, ps, origin);
    forall m | Coverable(w, start, m)
      ensures Undivided(AfterBin(w, r, bin, t).0, w.candies[m].source, DeclaredBy(w.candies[m]))
    {
      BatchKeepsUndivided(w.reserved, r, ps, origin, w.candies[m].source, DeclaredBy(w.candies[m]));
    }
  }

  /** A property under which a coverable candy that is found connected, or registers without an error,
      has all its identities registered. */
  ghost predicate Covering(w: World, start: Reg, inv: Reg -> bool) {
    && (forall r, n :: inv(r) && Coverable(w, start, n)
                       && Verdict(r, w.candies[n].source, DeclaredBy(w.candies[n])) == Connected ==>
          DeclaredBy(w.candies[n]) <= r.byKey.Keys)
    && (forall r, n, t: nat :: inv(r) && Coverable(w, start, n) && w.serveCandy(n, t).Some?
                               && AfterCandy(w, r, n, t).1.None? ==>
          DeclaredBy(w.candies[n]) <= AfterCandy(w, r, n, t).0.byKey.Keys)
  }

  lemma UndividedCovers(w: World, start: Reg)
    ensures var inv := (r: Reg) => AllUndivided(w, start, r); Steady(w, inv) && Covering(w, start, inv)
  {
    forall r, n, t: nat | AllUndivided(w, start, r) && n in w.candies && w.candies[n].OutOfTree() && w.serveCandy(n, t).Some?
      ensures AllUndivided(w, start, AfterCandy(w, r, n, t).0)
    {
      CandyKeepsUndivided(w, start, r, n, t);
    }
    forall r, b, t: nat | AllUndivided(w, start, r) && b in w.baked.Values && w.serveBin(b, t).Some?
      ensures AllUndivided(w, start, AfterBin(w, r, b, t).0)
    {
      BinKeepsUndivided(w, start, r, b, t);
    }
    forall r, n, t: nat | AllUndivided(w, start, r) && Coverable(w, start, n) && w.serveCandy(n, t).Some?
                          && AfterCandy(w, r, n, t).1.None?
      ensures DeclaredBy(w.candies[n]) <= AfterCandy(w, r, n, t).0.byKey.Keys
    {
      assert SameSource(w, n, n);
      RegisterAllKeys(w.reserved, r, w.serveCandy(n, t).value.providers, w.candies[n].source);
    }
  }

  /** What keeps every out-of-tree unit whole: it serves what it declares, the registry can accept each
      provider, one source means one set of identities, and no two sources declare the same identity
      unless it is compiled in from the start. */
  ghost predicate Tidy(w: World, start: Reg) {
    && (forall n, t: nat :: n in w.candies && w.candies[n].OutOfTree() && w.serveCandy(n, t).Some? ==>
          && Keys(w.serveCandy(n, t).value.providers) == DeclaredBy(w.candies[n])
          && Acceptable(w.reserved, w.serveCandy(n, t).value.providers))
    && (forall b, t: nat :: b in w.baked.Values && w.serveBin(b, t).Some? ==>
          Keys(w.serveBin(b, t).value.providers) == BakedIn(w, b))
    && (forall m, n :: m in w.candies && w.candies[m].OutOfTree() && n in w.candies && w.candies[n].OutOfTree() ==>
          SourcesApart(w, start, m, n))
    && (forall b, n :: b in w.baked.Values && n in w.candies && w.candies[n].OutOfTree() ==>
          LocalOrigin(b) != w.candies[n].source && SharedAreCompiledIn(start, BakedIn(w, b), DeclaredBy(w.candies[n])))
  }

  ghost predicate SourcesApart(w: World, start: Reg, m: string, n: string)
    requires m in w.candies && n in w.candies
  {
    if w.candies[m].source == w.candies[n].source then DeclaredBy(w.candies[m]) == DeclaredBy(w.candies[n])
    else SharedAreCompiledIn(start, DeclaredBy(w.candies[m]), DeclaredBy(w.candies[n]))
  }

  ghost predicate SharedAreCompiledIn(start: Reg, a: set<Key>, b: set<Key>) {
    forall k :: k in a && k in b ==> k in start.origins && start.origins[k] == BUILTIN
  }

  /** A source holds all of a candy's identities or none, and no other source but the compiled-in
      one holds any. */
  ghost predicate Whole(r: Reg, source: string, declared: set<Key>) {
    !Collides(r, source, declared) && (LoadedFrom(r, source, declared) ==> declared <= r.byKey.Keys)
  }

  ghost predicate AllWhole(w: World, start: Reg, r: Reg) {
    && Inv(r) && Extends(start, r)
    && forall n :: n in w.candies && w.candies[n].OutOfTree() ==> Whole(r, w.candies[n].source, DeclaredBy(w.candies[n]))
  }

  /** Keys brought in under one origin leave a candy whole, if they are all its own or none is. */
  lemma StaysWhole(start: Reg, r: Reg, r': Reg, source: string, declared: set<Key>, brought: set<Key>, origin: string)
    requires Inv(r) && Inv(r') && Extends(start, r) && Extends(r, r') && Whole(r, source, declared)
    requires r'.byKey.Keys <= r.byKey.Keys + brought
    requires forall k :: k in r'.byKey && k !in r.byKey ==> r'.origins[k] == origin
    requires if origin == source then declared == brought && brought <= r'.byKey.Keys
             else SharedAreCompiledIn(start, brought, declared)
    ensures Whole(r', source, declared)
  {
    forall k | k in declared && k in r'.origins ensures r'.origins[k] == BUILTIN || r'.origins[k] == source {
      if k in r.origins {
        assert r'.origins[k] == r.origins[k];
      } else {
        assert k in r'.byKey && k !in r.byKey;
      }
    }
    if origin != source && LoadedFrom(r', source, declared) {
      var k :| k in declared && k in r'.origins && r'.origins[k] == source;
      assert k in r.origins;
      assert LoadedFrom(r, source, declared);
    }
  }

  lemma CandyKeepsWhole(w: World, start: Reg, r: Reg, n: string, t: nat)
    requires Tidy(w, start) && AllWhole(w, start, r)
    requires n in w.candies && w.candies[n].OutOfTree() && w.serveCandy(n, t).Some?
    ensures var (r', e) := AfterCandy(w, r, n, t);
            e.None? && AllWhole(w, start, r') && DeclaredBy(w.candies[n]) <= r'.byKey.Keys
  {
    var ps, source := w.serveCandy(n, t).value.providers, w.candies[n].source;
    var r' := AfterCandy(w, r, n, t).0;
    assert Keys(ps) == DeclaredBy(w.candies[n]) && Acceptable(w.reserved, ps);
    assert Whole(r, source, Keys(ps));
    RegistersCleanly(w.reserved, r, ps, source);
    RegisterAllKeeps(w.reserved, r, ps, source);
    RegisterAllKeys(w.reserved, r, ps, source);
    forall m | m in w.candies && w.candies[m].OutOfTree()
      ensures Whole(r', w.candies[m].source, DeclaredBy(w.candies[m]))
    {
      assert SourcesApart(w, start, n, m);
      assert Whole(r, w.candies[m].source, DeclaredBy(w.candies[m]));
      StaysWhole(start, r, r', w.candies[m].source, DeclaredBy(w.candies[m]), Keys(ps), source);
    }
  }

  lemma BinKeepsWhole(w: World, start: Reg, r: Reg, bin: string, t: nat)
    requires Tidy(w, start) && AllWhole(w, start, r) && bin in w.baked.Values && w.serveBin(bin, t).Some?
    ensures AllWhole(w, start, AfterBin(w, r, bin, t).0)
  {
    var ps, origin := w.serveBin(bin, t).value.providers, LocalOrigin(bin);
    var r' := AfterBin(w, r, bin, t).0;
    RegisterAllKeeps(w.reserved, r, ps, origin);
    RegisterAllKeys(w.reserved, r, ps, origin);
    forall m | m in w.candies && w.candies[m].OutOfTree()
      ensures Whole(r', w.candies[m].source, DeclaredBy(w.candies[m]))
    {
      assert SharedAreCompiledIn(start, BakedIn(w, bin), DeclaredBy(w.candies[m]));
      assert Whole(r, w.candies[m].source, DeclaredBy(w.candies[m]));
      StaysWhole(start, r, r', w.candies[m].source, DeclaredBy(w.candies[m]), Keys(ps), origin);
    }
  }

  /** A tidy project that starts whole can be covered in all its candies. */
  lemma TidyIsCoverable(w: World, start: Reg)
    requires Tidy(w, start) && AllWhole(w, start, start)
    ensures AllCoverable(w, start)
  {
    forall n | n in w.candies && w.candies[n].OutOfTree() ensures Coverable(w, start, n) {
      assert Whole(start, w.candies[n].source, DeclaredBy(w.candies[n]));
      forall m | SameSource(w, m, n) ensures DeclaredBy(w.candies[m]) == DeclaredBy(w.candies[n]) {
        assert SourcesApart(w, start, m, n);
      }
    }
  }

  lemma TidyCovers(w: World, start: Reg)
    requires Tidy(w, start)
    ensures Covering(w, start, (r: Reg) => AllClear(w, start, r))
  {
    forall r, n | AllWhole(w, start, r) && Coverable(w, start, n)
                  && Verdict(r, w.candies[n].source, DeclaredBy(w.candies[n])) == Connected
      ensures DeclaredBy(w.candies[n]) <= r.byKey.Keys
    {
      assert Whole(r, w.candies[n].source, DeclaredBy(w.candies[n]));
    }
    forall r, n, t: nat | AllWhole(w, start, r) && Coverable(w, start, n) && w.serveCandy(n, t).Some?
      ensures DeclaredBy(w.candies[n]) <= AfterCandy(w, r, n, t).0.byKey.Keys
    {
      CandyKeepsWhole(w, start, r, n, t);
    }
  }
}
