/** The registry as an object, its in-tree units, and the set a serving process exposes from it. */
module RegistryObject {
  import opened Capability
  import opened Options
  import opened Registry
  import opened Sets
  import opened Strings

  datatype Unit = Unit(providers: seq<Provider>)

  function Flat(units: seq<Unit>): seq<Provider> {
    if |units| == 0 then [] else Flat(units[..|units| - 1]) + units[|units| - 1].providers
  }

  /** Every listed provider is the one registered under its key. */
  ghost predicate OwnEntries(byKey: map<Key, Provider>, ps: seq<Provider>) {
    forall p :: p in ps ==> p.key in byKey && byKey[p.key] == p
  }

  class ProviderRegistry {
    const reserved: set<string>
    var byKey: map<Key, Provider>
    var origins: map<Key, string>
    var primaries: map<string, string>
    var closers: seq<nat>
    var builtinUnits: seq<Unit>

    function View(): Reg reads this { Reg(byKey, origins, primaries) }

    ghost predicate Valid()
      reads this
    {
      Inv(View()) && OwnEntries(byKey, Flat(builtinUnits))
    }

    constructor (reserved: set<string>)
      ensures Valid() && View() == EMPTY && closers == [] && builtinUnits == [] && this.reserved == reserved
    {
      this.reserved := reserved;
      byKey, origins, primaries, closers, builtinUnits := map[], map[], map[], [], [];
    }

    method RegisterOne(p: Provider, origin: string) returns (e: Option<Error>)
      requires Valid()
      modifies this`byKey, this`origins, this`primaries
      ensures Valid() && (View(), e) == Register(reserved, old(View()), p, origin)
    {
      e := Refusal(reserved, p);
      if e.Some? {
        return;
      }
      if p.key.cls.Verb? && |p.primary| > 0 {
        primaries := primaries[p.word := p.primary];
      }
      if p.key in byKey {
        if origin != BUILTIN && (origins[p.key] == BUILTIN || origins[p.key] == origin) {
          return None;
        }
        return Some(Duplicate(Some(origins[p.key])));
      }
      EntryKeeps(View(), p, origin);
      OwnGrows(byKey, Flat(builtinUnits), p);
      byKey, origins := byKey[p.key := p], origins[p.key := origin];
    }

    /** Registers in order, up to the first refusal. */
    method RegisterEach(ps: seq<Provider>, origin: string) returns (e: Option<Error>)
      requires Valid()
      modifies this`byKey, this`origins, this`primaries
      ensures Valid() && (View(), e) == RegisterAll(reserved, old(View()), ps, origin)
    {
      for i := 0 to |ps|
        invariant Valid()
        invariant RegisterAll(reserved, old(View()), ps, origin) == RegisterAll(reserved, View(), ps[i..], origin)
      {
        assert ps[i..][1..] == ps[i + 1..];
        e := RegisterOne(ps[i], origin);
        if e.Some? {
          return;
        }
      }
      e := None;
    }

    /** Registers a connected plugin's providers; its connection is tracked only when all are accepted. */
    method RegisterPluginProviders(ps: seq<Provider>, origin: string, conn: Option<nat>) returns (e: Option<Error>)
      requires Valid()
      modifies this`byKey, this`origins, this`primaries, this`closers
      ensures Valid() && (View(), e) == RegisterAll(reserved, old(View()), ps, origin)
      ensures closers == old(closers) + (if e.None? && conn.Some? then [conn.value] else [])
    {
      e := RegisterEach(ps, origin);
      if e.None? && conn.Some? {
        closers := closers + [conn.value];
      }
    }

    /** Indexes an in-tree unit and registers its providers; a refusal is a startup panic. */
    method RegisterBuiltinUnit(u: Unit) returns (panicked: bool)
      requires Valid()
      modifies this`byKey, this`origins, this`primaries, this`builtinUnits
      ensures !panicked ==> Valid() && builtinUnits == old(builtinUnits) + [u]
      ensures !panicked <==> RegisterAll(reserved, old(View()), u.providers, BUILTIN).1.None?
      ensures !panicked ==> View() == RegisterAll(reserved, old(View()), u.providers, BUILTIN).0
    {
      BuiltinsOwn(reserved, View(), u.providers);
      FlatSnoc(builtinUnits, u);
      var e := RegisterEach(u.providers, BUILTIN);
      builtinUnits := builtinUnits + [u];
      panicked := e.Some?;
    }

    method SortedKeys() returns (keys: seq<Key>)
      ensures (set k | k in keys) == byKey.Keys && |keys| == |byKey.Keys| && InOrder(keys, Rendered)
    {
      keys := [];
      var todo := byKey.Keys;
      while todo != {}
        invariant todo <= byKey.Keys && (set k | k in keys) == byKey.Keys - todo && |keys| + |todo| == |byKey.Keys|
        decreases todo
      {
        var k := Pick(todo);
        assert (set j | j in keys + [k]) == (set j | j in keys) + {k};
        keys := keys + [k];
        todo := todo - {k};
      }
      ghost var found := keys;
      keys := SortBy(keys, Rendered);
      SameElements(found, keys);
    }

    /** Every registered provider once, sorted by key. */
    method AllProviders() returns (ps: seq<Provider>)
      requires Valid()
      ensures OwnEntries(byKey, ps) && Keys(ps) == byKey.Keys && |ps| == |byKey.Keys|
      ensures InOrder(ps, ByKey)
    {
      var keys := SortedKeys();
      forall k | k in keys ensures k in byKey && byKey[k].key == k {
        assert k in (set j | j in keys);
      }
      ps := Lookup(keys);
      KeySeqKeys(ps);
      OrderOfKeys(ps);
    }

    method Lookup(keys: seq<Key>) returns (ps: seq<Provider>)
      requires forall k :: k in keys ==> k in byKey && byKey[k].key == k
      ensures OwnEntries(byKey, ps) && KeySeq(ps) == keys
    {
      ps := [];
      for i := 0 to |keys|
        invariant OwnEntries(byKey, ps) && KeySeq(ps) == keys[..i]
      {
        ps := ps + [byKey[keys[i]]];
      }
    }

    /** The in-tree units as they are, then one unit of everything else, sorted, if there is any. */
    method AllServedUnits() returns (units: seq<Unit>)
      requires Valid()
      ensures OwnEntries(byKey, Flat(units)) && Keys(Flat(units)) == byKey.Keys
      ensures var n := |builtinUnits|; n <= |units| <= n + 1 && units[..n] == builtinUnits
      ensures |units| > |builtinUnits| ==> var rest := units[|builtinUnits|].providers;
                rest != [] && Keys(rest) == byKey.Keys - Keys(Flat(builtinUnits)) && InOrder(rest, ByKey)
    {
      var inUnit: set<Key> := {};
      units := [];
      for i := 0 to |builtinUnits|
        invariant units == builtinUnits[..i] && inUnit == Keys(Flat(units))
      {
        var u := builtinUnits[i];
        FlatSnoc(units, u);
        units := units + [u];
        inUnit := inUnit + Keys(u.providers);
      }
      assert builtinUnits[..|builtinUnits|] == builtinUnits;
      var rest := Others(inUnit);
      OwnKeys(byKey, Flat(units));
      assert byKey.Keys == Keys(Flat(units)) + Keys(rest);
      if |rest| > 0 {
        FlatSnoc(units, Unit(rest));
        units := units + [Unit(rest)];
      } else {
        assert Keys(rest) == {};
      }
    }

    /** The registered providers that are in no in-tree unit. */
    method Others(inUnit: set<Key>) returns (rest: seq<Provider>)
      requires Valid()
      ensures OwnEntries(byKey, rest) && Keys(rest) == byKey.Keys - inUnit && InOrder(rest, ByKey)
    {
      var all := AllProviders();
      rest := [];
      for i := 0 to |all|
        invariant Picked(byKey, all, i, rest, inUnit)
      {
        PickNext(byKey, all, i, rest, inUnit);
        if all[i].key !in inUnit {
          rest := rest + [all[i]];
        }
      }
      assert all[..|all|] == all;
    }

    /** The served set built from those units exposes exactly the registry's keys and providers. */
    method Serve() returns (served: map<Key, Provider>, provided: seq<Key>)
      requires Valid()
      ensures served == byKey
      ensures (set k | k in provided) == byKey.Keys && InOrder(provided, Rendered)
    {
      var units := AllServedUnits();
      served, provided := NewServedSet(units);
      TableOfOwn(byKey, Flat(units));
    }
  }

  /** Builtins that registered without a panic are all registered as themselves. */
  lemma {:induction false} BuiltinsOwn(reserved: set<string>, r: Reg, ps: seq<Provider>)
    requires Inv(r)
    ensures var (r', e) := RegisterAll(reserved, r, ps, BUILTIN); e.None? ==> OwnEntries(r'.byKey, ps)
    decreases |ps|
  {
    if |ps| > 0 {
      var (r1, e1) := Register(reserved, r, ps[0], BUILTIN);
      RegisterKeeps(reserved, r, ps[0], BUILTIN);
      if e1.None? {
        BuiltinsOwn(reserved, r1, ps[1..]);
        RegisterAllKeeps(reserved, r1, ps[1..], BUILTIN);
        var (r', e) := RegisterAll(reserved, r1, ps[1..], BUILTIN);
        if e.None? {
          OwnCons(r'.byKey, ps);
        }
      }
    }
  }

  lemma OwnGrows(byKey: map<Key, Provider>, ps: seq<Provider>, p: Provider)
    requires OwnEntries(byKey, ps) && p.key !in byKey
    ensures OwnEntries(byKey[p.key := p], ps)
  {
  }

  lemma OwnCons(byKey: map<Key, Provider>, ps: seq<Provider>)
    requires |ps| > 0 && OwnEntries(byKey, ps[1..]) && ps[0].key in byKey && byKey[ps[0].key] == ps[0]
    ensures OwnEntries(byKey, ps)
  {
    assert ps == [ps[0]] + ps[1..];
  }

  lemma KeysSnoc(ps: seq<Provider>, p: Provider)
    ensures Keys(ps + [p]) == Keys(ps) + {p.key}
  {
    KeysConcat(ps, [p]);
    assert Keys([p]) == {p.key} by {
      assert [p][0].key in Keys([p]);
    }
  }

  lemma KeysConcat(ps: seq<Provider>, qs: seq<Provider>)
    ensures Keys(ps + qs) == Keys(ps) + Keys(qs)
  {
    var all := ps + qs;
    forall k | k in Keys(all) ensures k in Keys(ps) + Keys(qs) {
      var i :| 0 <= i < |all| && all[i].key == k;
      if i < |ps| {
        assert ps[i].key == k;
      } else {
        assert qs[i - |ps|].key == k;
      }
    }
    forall k | k in Keys(ps) ensures k in Keys(all) {
      var i :| 0 <= i < |ps| && ps[i].key == k;
      assert all[i].key == k;
    }
    forall k | k in Keys(qs) ensures k in Keys(all) {
      var i :| 0 <= i < |qs| && qs[i].key == k;
      assert all[|ps| + i].key == k;
    }
  }

  lemma OwnKeys(byKey: map<Key, Provider>, ps: seq<Provider>)
    requires OwnEntries(byKey, ps)
    ensures Keys(ps) <= byKey.Keys
  {
    forall k | k in Keys(ps) ensures k in byKey {
      var i :| 0 <= i < |ps| && ps[i].key == k;
      assert ps[i] in ps;
    }
  }

  lemma FlatSnoc(units: seq<Unit>, u: Unit)
    ensures Flat(units + [u]) == Flat(units) + u.providers
    ensures Keys(Flat(units + [u])) == Keys(Flat(units)) + Keys(u.providers)
  {
    assert (units + [u])[..|units|] == units;
    KeysConcat(Flat(units), u.providers);
  }

  /** The providers outside the in-tree units among the first i. */
  ghost predicate Picked(byKey: map<Key, Provider>, all: seq<Provider>, i: nat, rest: seq<Provider>, inUnit: set<Key>)
    requires i <= |all|
  {
    && OwnEntries(byKey, rest) && Keys(rest) == Keys(all[..i]) - inUnit
    && InOrder(rest, ByKey) && forall p :: p in rest ==> p in all[..i]
  }

  lemma PickNext(byKey: map<Key, Provider>, all: seq<Provider>, i: nat, rest: seq<Provider>, inUnit: set<Key>)
    requires i < |all| && OwnEntries(byKey, all) && InOrder(all, ByKey) && Picked(byKey, all, i, rest, inUnit)
    ensures Picked(byKey, all, i + 1, if all[i].key in inUnit then rest else rest + [all[i]], inUnit)
  {
    KeysSnoc(all[..i], all[i]);
    assert all[..i + 1] == all[..i] + [all[i]];
    KeysSnoc(rest, all[i]);
    PickKeepsOrder(all, i, rest, ByKey);
  }

  lemma OrderOfKeys(ps: seq<Provider>)
    requires InOrder(KeySeq(ps), Rendered)
    ensures InOrder(ps, ByKey)
  {
    forall i, j | 0 <= i < j < |ps| ensures !Less(ByKey(ps[j]), ByKey(ps[i])) {
      assert !Less(Rendered(KeySeq(ps)[j]), Rendered(KeySeq(ps)[i]));
    }
  }

  function ByKey(p: Provider): string { Rendered(p.key) }

  function KeySeq(ps: seq<Provider>): (ks: seq<Key>)
    ensures |ks| == |ps|
  {
    seq(|ps|, i requires 0 <= i < |ps| => ps[i].key)
  }

  lemma KeySeqKeys(ps: seq<Provider>)
    ensures (set k | k in KeySeq(ps)) == Keys(ps)
  {
    forall k | k in Keys(ps) ensures k in KeySeq(ps) {
      var i :| 0 <= i < |ps| && ps[i].key == k;
      assert KeySeq(ps)[i] == k;
    }
  }

  lemma SameElements<T>(xs: seq<T>, ys: seq<T>)
    requires multiset(xs) == multiset(ys)
    ensures |xs| == |ys| && (set x | x in xs) == (set y | y in ys)
  {
    assert |xs| == |multiset(xs)| == |multiset(ys)| == |ys|;
    assert forall x :: x in xs <==> x in multiset(xs);
    assert forall y :: y in ys <==> y in multiset(ys);
  }

  /** The table a list of providers makes: the last of a key answers for it. */
  function Table(ps: seq<Provider>): map<Key, Provider> {
    if |ps| == 0 then map[] else Table(ps[..|ps| - 1])[ps[|ps| - 1].key := ps[|ps| - 1]]
  }

  lemma TableSnoc(ps: seq<Provider>, p: Provider)
    ensures Table(ps + [p]) == Table(ps)[p.key := p] && KeySeq(ps + [p]) == KeySeq(ps) + [p.key]
  {
    assert (ps + [p])[..|ps|] == ps;
  }

  lemma {:induction false} LastAnswers(ps: seq<Provider>, k: Key)
    ensures k in Table(ps) <==> k in Keys(ps)
    ensures k in Table(ps) ==>
              exists i :: 0 <= i < |ps| && ps[i].key == k && Table(ps)[k] == ps[i] && forall j :: i < j < |ps| ==> ps[j].key != k
  {
    if |ps| > 0 {
      var n := |ps| - 1;
      LastAnswers(ps[..n], k);
      assert ps == ps[..n] + [ps[n]];
      KeysSnoc(ps[..n], ps[n]);
      if ps[n].key != k && k in Table(ps) {
        var i :| 0 <= i < n && ps[..n][i].key == k && Table(ps[..n])[k] == ps[..n][i]
                 && forall j :: i < j < n ==> ps[..n][j].key != k;
        assert ps[i] == ps[..n][i] && forall j :: i < j < n ==> ps[j] == ps[..n][j];
      }
    }
  }

  lemma TableOfOwn(byKey: map<Key, Provider>, ps: seq<Provider>)
    requires OwnEntries(byKey, ps) && Keys(ps) == byKey.Keys
    ensures Table(ps) == byKey
  {
    forall k ensures (k in Table(ps) <==> k in byKey) && (k in byKey ==> Table(ps)[k] == byKey[k]) {
      LastAnswers(ps, k);
    }
  }

  /** Adds a unit's providers to the served table, and their identities to the list. */
  method ServeAlso(byKey: map<Key, Provider>, provided: seq<Key>, ghost before: seq<Provider>, ps: seq<Provider>)
      returns (byKey': map<Key, Provider>, provided': seq<Key>)
    requires byKey == Table(before) && provided == KeySeq(before)
    ensures byKey' == Table(before + ps) && provided' == KeySeq(before + ps)
  {
    byKey', provided' := byKey, provided;
    assert before + ps[..0] == before;
    for j := 0 to |ps|
      invariant byKey' == Table(before + ps[..j]) && provided' == KeySeq(before + ps[..j])
    {
      TableSnoc(before + ps[..j], ps[j]);
      assert before + ps[..j + 1] == before + ps[..j] + [ps[j]];
      byKey' := byKey'[ps[j].key := ps[j]];
      provided' := provided' + [ps[j].key];
    }
    assert ps[..|ps|] == ps;
  }

  /** The capability table of a serving process and its sorted list of capabilities. */
  method NewServedSet(units: seq<Unit>) returns (byKey: map<Key, Provider>, provided: seq<Key>)
    ensures byKey == Table(Flat(units)) && byKey.Keys == Keys(Flat(units)) == (set k | k in provided)
    ensures multiset(provided) == multiset(KeySeq(Flat(units))) && InOrder(provided, Rendered)
  {
    byKey, provided := map[], [];
    for i := 0 to |units|
      invariant byKey == Table(Flat(units[..i])) && provided == KeySeq(Flat(units[..i]))
    {
      FlatSnoc(units[..i], units[i]);
      assert units[..i + 1] == units[..i] + [units[i]];
      byKey, provided := ServeAlso(byKey, provided, Flat(units[..i]), units[i].providers);
    }
    assert units[..|units|] == units;
    ghost var all := Flat(units);
    forall k ensures k in byKey <==> k in Keys(all) {
      LastAnswers(all, k);
    }
    KeySeqKeys(all);
    ghost var listed := provided;
    provided := SortBy(provided, Rendered);
    SameElements(listed, provided);
  }
}
