/**
 The provider registry: one process-wide table from capability key to provider.

 A key is the part of an identity that tells rendered keys apart (Capability.KeyDecides).
 */
module Registry {
  import opened Capability
  import opened Options
  import opened Sets

  /** A provider under the key of its declared identity; `tag` tells apart two providers of one key. */
  datatype Provider = Provider(key: Key, word: string, primary: string, tag: nat)

  datatype Error = UnknownClass | EmptyWord | ReservedVerb | Duplicate(holder: Option<string>)

  /** The origin of everything compiled in. */
  const BUILTIN := "builtin"

  /** The registry's contents, with the table of verb words that declare a primary input. */
  datatype Reg = Reg(byKey: map<Key, Provider>, origins: map<Key, string>, primaries: map<string, string>)

  const EMPTY := Reg(map[], map[], map[])

  /** Why a provider cannot be registered at all.  `reserved` are the authored step fields, which no
      verb word may equal. */
  function Refusal(reserved: set<string>, p: Provider): Option<Error> {
    if p.key.cls.Other? then Some(UnknownClass)
    else if |p.word| == 0 then Some(EmptyWord)
    else if p.key.cls.Verb? && p.word in reserved then Some(ReservedVerb)
    else None
  }

  function NotePrimary(r: Reg, p: Provider): Reg {
    if p.key.cls.Verb? && |p.primary| > 0 then r.(primaries := r.primaries[p.word := p.primary]) else r
  }

  /** One registration: the registry afterwards, and the error if it was refused. */
  function Register(reserved: set<string>, r: Reg, p: Provider, origin: string): (Reg, Option<Error>) {
    var refusal := Refusal(reserved, p);
    if refusal.Some? then (r, refusal)
    else
      var r1 := NotePrimary(r, p);
      if p.key in r1.byKey then
        var holder := if p.key in r1.origins then Some(r1.origins[p.key]) else None;
        if origin != BUILTIN && (holder == Some(BUILTIN) || holder == Some(origin)) then (r1, None)
        else (r1, Some(Duplicate(holder)))
      else (r1.(byKey := r1.byKey[p.key := p], origins := r1.origins[p.key := origin]), None)
  }

  /** A plugin's providers in order, up to the first that is refused; those before it stay. */
  function RegisterAll(reserved: set<string>, r: Reg, ps: seq<Provider>, origin: string): (Reg, Option<Error>)
    decreases |ps|
  {
    if |ps| == 0 then (r, None)
    else
      var (r1, e) := Register(reserved, r, ps[0], origin);
      if e.Some? then (r1, e) else RegisterAll(reserved, r1, ps[1..], origin)
  }

  // ------------------------------------------------------- over every run

  ghost predicate Inv(r: Reg) {
    && r.byKey.Keys == r.origins.Keys
    && forall k :: k in r.byKey ==> r.byKey[k].key == k && !k.cls.Other? && |r.byKey[k].word| > 0
  }

  /** Everything registered before is registered still, unchanged. */
  ghost predicate Extends(r: Reg, r': Reg) {
    && (forall k :: k in r.byKey ==> k in r'.byKey && r'.byKey[k] == r.byKey[k])
    && (forall k :: k in r.origins ==> k in r'.origins && r'.origins[k] == r.origins[k])
  }

  datatype Call = Call(p: Provider, origin: string)

  function RunCalls(reserved: set<string>, r: Reg, calls: seq<Call>): Reg
    decreases |calls|
  {
    if |calls| == 0 then r
    else RunCalls(reserved, Register(reserved, r, calls[0].p, calls[0].origin).0, calls[1..])
  }

  lemma RegisterKeeps(reserved: set<string>, r: Reg, p: Provider, origin: string)
    requires Inv(r)
    ensures var r' := Register(reserved, r, p, origin).0; Inv(r') && Extends(r, r')
  {
    var r1 := NotePrimary(r, p);
    if Refusal(reserved, p).None? && p.key !in r1.byKey {
      EntryKeeps(r1, p, origin);
    }
  }

  lemma EntryKeeps(r: Reg, p: Provider, origin: string)
    requires Inv(r) && p.key !in r.byKey && !p.key.cls.Other? && |p.word| > 0
    ensures var r' := r.(byKey := r.byKey[p.key := p], origins := r.origins[p.key := origin]); Inv(r') && Extends(r, r')
  {
  }

  /** Over every run of registrations, refused ones included: providers and origins have the same
      keys, each key is its provider's own, and the first writer of a key is never replaced, so a
      builtin never yields to a plugin. */
  lemma {:induction false} FirstWriterStays(reserved: set<string>, r: Reg, calls: seq<Call>)
    requires Inv(r)
    ensures Inv(RunCalls(reserved, r, calls)) && Extends(r, RunCalls(reserved, r, calls))
    decreases |calls|
  {
    if |calls| > 0 {
      RegisterKeeps(reserved, r, calls[0].p, calls[0].origin);
      FirstWriterStays(reserved, Register(reserved, r, calls[0].p, calls[0].origin).0, calls[1..]);
    }
  }

  /** ONE REGISTRATION, EXACTLY: what is accepted, why anything else is not, and what it leaves. */
  lemma RegisterExactly(reserved: set<string>, r: Reg, p: Provider, origin: string)
    requires Inv(r)
    ensures var (r', e) := Register(reserved, r, p, origin);
            && (e == Some(UnknownClass) <==> p.key.cls.Other?)
            && (e == Some(EmptyWord) <==> !p.key.cls.Other? && p.word == "")
            && (e == Some(ReservedVerb) <==> p.key.cls.Verb? && p.word != "" && p.word in reserved)
            && ((e.Some? && e.value.Duplicate?) <==>
                  && !p.key.cls.Other? && p.word != "" && !(p.key.cls.Verb? && p.word in reserved)
                  && p.key in r.byKey && (origin == BUILTIN || r.origins[p.key] !in {BUILTIN, origin}))
            && (e.Some? && e.value.Duplicate? ==> p.key in r.byKey && e.value.holder == Some(r.origins[p.key]))
            && (if e.None? && p.key !in r.byKey
                then r'.byKey == r.byKey[p.key := p] && r'.origins == r.origins[p.key := origin]
                else r'.byKey == r.byKey && r'.origins == r.origins)
  {
    assert p.key in r.byKey <==> p.key in r.origins.Keys;
  }

  /** No verb is registered under an authored step field, over every run. */
  ghost predicate NoneReserved(reserved: set<string>, r: Reg) {
    forall k :: k in r.byKey && k.cls.Verb? ==> r.byKey[k].word !in reserved
  }

  lemma {:induction false} ReservedStayOut(reserved: set<string>, r: Reg, calls: seq<Call>)
    requires Inv(r) && NoneReserved(reserved, r)
    ensures NoneReserved(reserved, RunCalls(reserved, r, calls))
    decreases |calls|
  {
    if |calls| > 0 {
      RegisterExactly(reserved, r, calls[0].p, calls[0].origin);
      RegisterKeeps(reserved, r, calls[0].p, calls[0].origin);
      ReservedStayOut(reserved, Register(reserved, r, calls[0].p, calls[0].origin).0, calls[1..]);
    }
  }

  /** The call declares the word's primary input: a verb that the registry can accept, duplicate or not. */
  predicate DeclaresPrimary(reserved: set<string>, c: Call, word: string) {
    c.p.key.cls.Verb? && c.p.word == word && word != "" && word !in reserved && c.p.primary != ""
  }

  /** A word's primary input is the one the last such call declares, over every run. */
  lemma {:induction false} LastPrimaryStays(reserved: set<string>, r: Reg, calls: seq<Call>, word: string)
    ensures var r' := RunCalls(reserved, r, calls);
            && (word in r'.primaries <==>
                  word in r.primaries || exists i :: 0 <= i < |calls| && DeclaresPrimary(reserved, calls[i], word))
            && (forall i :: 0 <= i < |calls| && DeclaresPrimary(reserved, calls[i], word)
                            && (forall j :: i < j < |calls| ==> !DeclaresPrimary(reserved, calls[j], word)) ==>
                  r'.primaries[word] == calls[i].p.primary)
            && ((forall i :: 0 <= i < |calls| ==> !DeclaresPrimary(reserved, calls[i], word)) && word in r.primaries ==>
                  r'.primaries[word] == r.primaries[word])
    decreases |calls|
  {
    if |calls| > 0 {
      var r1 := Register(reserved, r, calls[0].p, calls[0].origin).0;
      LastPrimaryStays(reserved, r1, calls[1..], word);
      assert forall i :: 0 < i < |calls| ==> calls[i] == calls[1..][i - 1];
      PrimaryStep(reserved, r, calls[0], word);
    }
  }

  lemma PrimaryStep(reserved: set<string>, r: Reg, c: Call, word: string)
    ensures var r1 := Register(reserved, r, c.p, c.origin).0;
            if DeclaresPrimary(reserved, c, word) then word in r1.primaries && r1.primaries[word] == c.p.primary
            else (word in r1.primaries <==> word in r.primaries)
                 && (word in r.primaries ==> r1.primaries[word] == r.primaries[word])
  {
  }

  function Keys(ps: seq<Provider>): set<Key> {
    set i | 0 <= i < |ps| :: ps[i].key
  }

  lemma KeysCons(ps: seq<Provider>)
    requires |ps| > 0
    ensures Keys(ps) == {ps[0].key} + Keys(ps[1..])
  {
    forall k | k in Keys(ps) ensures k in {ps[0].key} + Keys(ps[1..]) {
      var i :| 0 <= i < |ps| && ps[i].key == k;
      if i > 0 {
        assert ps[1..][i - 1].key == k;
      }
    }
    forall k | k in Keys(ps[1..]) ensures k in Keys(ps) {
      var i :| 0 <= i < |ps[1..]| && ps[1..][i].key == k;
      assert ps[i + 1].key == k;
    }
  }

  /** What a batch does, refused or not: it keeps what there was, and adds under its own origin only. */
  lemma {:induction false} RegisterAllKeeps(reserved: set<string>, r: Reg, ps: seq<Provider>, origin: string)
    requires Inv(r)
    ensures var r' := RegisterAll(reserved, r, ps, origin).0;
            Inv(r') && Extends(r, r') && forall k :: k in r'.byKey && k !in r.byKey ==> r'.origins[k] == origin
    decreases |ps|
  {
    if |ps| > 0 {
      var (r1, e1) := Register(reserved, r, ps[0], origin);
      RegisterKeeps(reserved, r, ps[0], origin);
      if e1.None? {
        RegisterAllKeeps(reserved, r1, ps[1..], origin);
      }
    }
  }

  /** A batch adds keys of its own only; accepted, it leaves all its keys registered. */
  lemma {:induction false} RegisterAllKeys(reserved: set<string>, r: Reg, ps: seq<Provider>, origin: string)
    requires Inv(r)
    ensures var (r', e) := RegisterAll(reserved, r, ps, origin);
            r'.byKey.Keys <= r.byKey.Keys + Keys(ps) && (e.None? ==> Keys(ps) <= r'.byKey.Keys)
    decreases |ps|
  {
    if |ps| > 0 {
      var (r1, e1) := Register(reserved, r, ps[0], origin);
      RegisterKeeps(reserved, r, ps[0], origin);
      KeysCons(ps);
      if e1.None? {
        RegisterAllKeys(reserved, r1, ps[1..], origin);
        RegisterAllKeeps(reserved, r1, ps[1..], origin);
      }
    }
  }

  /** Whatever the registry holds, a batch only adds to its keys, and only keys of its own. */
  lemma {:induction false} BatchBringsItsOwn(reserved: set<string>, r: Reg, ps: seq<Provider>, origin: string)
    ensures r.byKey.Keys <= RegisterAll(reserved, r, ps, origin).0.byKey.Keys <= r.byKey.Keys + Keys(ps)
    decreases |ps|
  {
    if |ps| > 0 {
      KeysCons(ps);
      var (r1, e) := Register(reserved, r, ps[0], origin);
      if e.None? {
        BatchBringsItsOwn(reserved, r1, ps[1..], origin);
      }
    }
  }

  // -------------------------------------------- the check before a registration

  /** What the idempotency guard answers for a candy before it is loaded. */
  datatype Check = Collision | Connected | Missing

  /** The keys of the well-formed entries among a candy's capability strings. */
  function Declared(caps: seq<Option<Key>>): set<Key> {
    set i | 0 <= i < |caps| && caps[i].Some? :: caps[i].value
  }

  ghost predicate Collides(r: Reg, source: string, ks: set<Key>) {
    exists k :: k in ks && k in r.origins && r.origins[k] != BUILTIN && r.origins[k] != source
  }

  ghost predicate LoadedFrom(r: Reg, source: string, ks: set<Key>) {
    source != BUILTIN && exists k :: k in ks && k in r.origins && r.origins[k] == source
  }

  ghost function Verdict(r: Reg, source: string, ks: set<Key>): Check {
    if Collides(r, source, ks) then Collision
    else if LoadedFrom(r, source, ks) || ks <= r.origins.Keys then Connected
    else Missing
  }

  /** The check errs exactly on a declared identity that some other, non-builtin source holds; it
      answers "connected" when this source holds one, or when every declared identity is held. */
  method AlreadyConnected(r: Reg, source: string, caps: seq<Option<Key>>) returns (c: Check)
    ensures c == Verdict(r, source, Declared(caps))
  {
    var loaded, covered := false, true;
    for n := 0 to |caps|
      invariant loaded <==> LoadedFrom(r, source, Declared(caps[..n]))
      invariant covered <==> Declared(caps[..n]) <= r.origins.Keys
      invariant !Collides(r, source, Declared(caps[..n]))
    {
      DeclaredSnoc(caps, n);
      if caps[n].None? || (caps[n].value in r.origins && r.origins[caps[n].value] == BUILTIN) {
        continue;
      }
      var k := caps[n].value;
      assert k in Declared(caps[..n + 1]);
      if k !in r.origins {
        covered := false;
        continue;
      }
      if r.origins[k] != source {
        assert k in Declared(caps);
        return Collision;
      }
      loaded := true;
    }
    assert caps[..|caps|] == caps;
    c := if loaded || covered then Connected else Missing;
  }

  lemma DeclaredSnoc(caps: seq<Option<Key>>, n: nat)
    requires n < |caps|
    ensures Declared(caps[..n + 1]) == Declared(caps[..n]) + (if caps[n].Some? then {caps[n].value} else {})
    ensures caps[n].Some? ==> caps[n].value in Declared(caps)
  {
    var upto := caps[..n + 1];
    forall k | k in Declared(upto)
      ensures k in Declared(caps[..n]) + (if caps[n].Some? then {caps[n].value} else {})
    {
      var i :| 0 <= i < n + 1 && upto[i] == Some(k);
      if i < n {
        assert caps[..n][i] == Some(k);
      }
    }
    forall k | k in Declared(caps[..n]) ensures k in Declared(caps[..n + 1]) {
      var i :| 0 <= i < n && caps[..n][i] == Some(k);
      assert caps[..n + 1][i] == Some(k);
    }
    if caps[n].Some? {
      assert caps[..n + 1][n] == caps[n];
    }
  }

  /** Every provider of the list is acceptable by itself. */
  ghost predicate Acceptable(reserved: set<string>, ps: seq<Provider>) {
    forall i :: 0 <= i < |ps| ==> Refusal(reserved, ps[i]).None?
  }

  lemma {:induction false} RegistersCleanly(reserved: set<string>, r: Reg, ps: seq<Provider>, origin: string)
    requires Inv(r) && origin != BUILTIN && Acceptable(reserved, ps) && !Collides(r, origin, Keys(ps))
    ensures RegisterAll(reserved, r, ps, origin).1 == None
    decreases |ps|
  {
    if |ps| > 0 {
      assert Refusal(reserved, ps[0]).None?;
      KeysCons(ps);
      RegisterKeeps(reserved, r, ps[0], origin);
      var r1 := Register(reserved, r, ps[0], origin).0;
      assert ps[0].key in Keys(ps);
      RegistersCleanly(reserved, r1, ps[1..], origin);
    }
  }

  lemma HeldStays(reserved: set<string>, r: Reg, p: Provider, origin: string)
    requires Inv(r) && p.key in r.byKey
    ensures var r' := Register(reserved, r, p, origin).0; r'.byKey == r.byKey && r'.origins == r.origins
  {
  }

  lemma {:induction false} RegistersNothingNew(reserved: set<string>, r: Reg, ps: seq<Provider>, origin: string)
    requires Inv(r) && Keys(ps) <= r.byKey.Keys
    ensures var r' := RegisterAll(reserved, r, ps, origin).0; r'.byKey == r.byKey && r'.origins == r.origins
    decreases |ps|
  {
    if |ps| > 0 {
      KeysCons(ps);
      var r1 := Register(reserved, r, ps[0], origin).0;
      HeldStays(reserved, r, ps[0], origin);
      RegistersNothingNew(reserved, r1, ps[1..], origin);
    }
  }

  /** CHECK AND REGISTRATION AGREE: when the check finds a candy missing, registering a unit that
      serves exactly what it declares succeeds, the check then finds it connected, and registering it
      once more changes no key and no origin. */
  lemma CheckThenRegister(reserved: set<string>, r: Reg, source: string, ps: seq<Provider>)
    requires Inv(r) && source != BUILTIN && Acceptable(reserved, ps)
    requires Verdict(r, source, Keys(ps)) == Missing
    ensures var (r', e) := RegisterAll(reserved, r, ps, source);
            && e == None && Verdict(r', source, Keys(ps)) == Connected
            && RegisterAll(reserved, r', ps, source).0.byKey == r'.byKey
            && RegisterAll(reserved, r', ps, source).0.origins == r'.origins
  {
    RegistersCleanly(reserved, r, ps, source);
    RegisterAllKeeps(reserved, r, ps, source);
    RegisterAllKeys(reserved, r, ps, source);
    RegistersNothingNew(reserved, RegisterAll(reserved, r, ps, source).0, ps, source);
  }

  // ----------------------------------------------------- exactly what a batch does

  /** The registry refuses this provider under this origin. */
  predicate Refused(reserved: set<string>, r: Reg, p: Provider, origin: string) {
    || Refusal(reserved, p).Some?
    || (p.key in r.origins && r.origins[p.key] != BUILTIN && r.origins[p.key] != origin)
  }

  /** How many providers of a batch come before the first refused one. */
  function Accepted(reserved: set<string>, r: Reg, ps: seq<Provider>, origin: string): (n: nat)
    ensures n <= |ps| && (n < |ps| ==> Refused(reserved, r, ps[n], origin))
    ensures forall i :: 0 <= i < n ==> !Refused(reserved, r, ps[i], origin)
  {
    if |ps| == 0 || Refused(reserved, r, ps[0], origin) then 0 else 1 + Accepted(reserved, r, ps[1..], origin)
  }

  lemma {:induction false} AcceptedAfter(reserved: set<string>, r: Reg, r': Reg, ps: seq<Provider>, origin: string)
    requires Extends(r, r') && forall k :: k in r'.origins && k !in r.origins ==> r'.origins[k] == origin
    ensures Accepted(reserved, r', ps, origin) == Accepted(reserved, r, ps, origin)
  {
    if |ps| > 0 {
      AcceptedAfter(reserved, r, r', ps[1..], origin);
    }
  }

  lemma RefusedExactly(reserved: set<string>, r: Reg, p: Provider, origin: string)
    requires Inv(r) && origin != BUILTIN
    ensures Register(reserved, r, p, origin).1.None? <==> !Refused(reserved, r, p, origin)
  {
    assert p.key in r.byKey <==> p.key in r.byKey.Keys;
    assert p.key in r.origins <==> p.key in r.origins.Keys;
  }

  lemma RegisterAdds(reserved: set<string>, r: Reg, p: Provider, origin: string)
    requires Inv(r)
    ensures var (r', e) := Register(reserved, r, p, origin);
            && r'.byKey.Keys == r.byKey.Keys + (if e.None? then {p.key} else {})
            && forall k :: k in r'.origins && k !in r.origins ==> r'.origins[k] == origin
  {
    if p.key in r.byKey {
      assert r.byKey.Keys + {p.key} == r.byKey.Keys;
    }
  }

  lemma KeysOfPrefix(ps: seq<Provider>, n: nat)
    requires 0 < n <= |ps|
    ensures Keys(ps[..n]) == {ps[0].key} + Keys(ps[1..][..n - 1])
  {
    KeysCons(ps[..n]);
    assert ps[..n][1..] == ps[1..][..n - 1];
  }

  /** A batch under a plugin's origin adds exactly the providers before the first refused one, and
      fails exactly if there is one. */
  lemma {:induction false} RegistersExactly(reserved: set<string>, r: Reg, ps: seq<Provider>, origin: string)
    requires Inv(r) && origin != BUILTIN
    ensures var (r', e), n := RegisterAll(reserved, r, ps, origin), Accepted(reserved, r, ps, origin);
            r'.byKey.Keys == r.byKey.Keys + Keys(ps[..n]) && (e.None? <==> n == |ps|)
    decreases |ps|
  {
    if |ps| == 0 {
      assert Keys(ps[..0]) == {};
    } else {
      FirstOfBatch(reserved, r, ps, origin);
      if !Refused(reserved, r, ps[0], origin) {
        RegistersExactly(reserved, Register(reserved, r, ps[0], origin).0, ps[1..], origin);
      }
    }
  }

  /** What a batch's first provider leaves to the others. */
  lemma FirstOfBatch(reserved: set<string>, r: Reg, ps: seq<Provider>, origin: string)
    requires Inv(r) && origin != BUILTIN && |ps| > 0
    ensures var (r1, e1), n := Register(reserved, r, ps[0], origin), Accepted(reserved, r, ps, origin);
            if Refused(reserved, r, ps[0], origin)
            then e1.Some? && r1.byKey.Keys == r.byKey.Keys && n == 0 && Keys(ps[..n]) == {}
            else e1.None? && r1.byKey.Keys == r.byKey.Keys + {ps[0].key} && Inv(r1)
                 && n == 1 + Accepted(reserved, r1, ps[1..], origin) && Keys(ps[..n]) == {ps[0].key} + Keys(ps[1..][..n - 1])
  {
    RefusedExactly(reserved, r, ps[0], origin);
    RegisterAdds(reserved, r, ps[0], origin);
    RegisterKeeps(reserved, r, ps[0], origin);
    if !Refused(reserved, r, ps[0], origin) {
      AcceptedAfter(reserved, r, Register(reserved, r, ps[0], origin).0, ps[1..], origin);
      KeysOfPrefix(ps, Accepted(reserved, r, ps, origin));
    }
  }

  /** So a batch is accepted if and only if every provider is acceptable by itself and no other
      plugin holds a key of it. */
  lemma AcceptedExactlyWhen(reserved: set<string>, r: Reg, ps: seq<Provider>, origin: string)
    requires Inv(r) && origin != BUILTIN
    ensures RegisterAll(reserved, r, ps, origin).1.None? <==> Acceptable(reserved, ps) && !Collides(r, origin, Keys(ps))
  {
    RegistersExactly(reserved, r, ps, origin);
    var n := Accepted(reserved, r, ps, origin);
    if n == |ps| {
      forall k | k in Keys(ps) && k in r.origins ensures r.origins[k] == BUILTIN || r.origins[k] == origin {
        var i :| 0 <= i < |ps| && ps[i].key == k;
        assert !Refused(reserved, r, ps[i], origin);
      }
    } else {
      assert ps[n].key in Keys(ps);
    }
  }

  lemma KeysPrefix(ps: seq<Provider>, n: nat)
    requires n <= |ps|
    ensures Keys(ps[..n]) <= Keys(ps)
  {
    forall k | k in Keys(ps[..n]) ensures k in Keys(ps) {
      var i :| 0 <= i < n && ps[..n][i].key == k;
      assert ps[i].key == k;
    }
  }

  /** REGISTRATION IS NOT ATOMIC, exactly when: the check that found a candy missing finds it connected
      after its batch, although some identity of it is served by nobody, if and only if a provider
      before the first refused one was new and another one is left out. */
  lemma PartialExactlyWhen(reserved: set<string>, r: Reg, source: string, ps: seq<Provider>)
    requires Inv(r) && source != BUILTIN && Verdict(r, source, Keys(ps)) == Missing
    ensures var r', n := RegisterAll(reserved, r, ps, source).0, Accepted(reserved, r, ps, source);
            Verdict(r', source, Keys(ps)) == Connected && !(Keys(ps) <= r'.byKey.Keys) <==>
            !(Keys(ps[..n]) <= r.byKey.Keys) && !(Keys(ps) <= r.byKey.Keys + Keys(ps[..n]))
  {
    var r', n := RegisterAll(reserved, r, ps, source).0, Accepted(reserved, r, ps, source);
    RegistersExactly(reserved, r, ps, source);
    RegisterAllKeeps(reserved, r, ps, source);
    KeysPrefix(ps, n);
    if Keys(ps[..n]) <= r.byKey.Keys {
      assert r'.byKey.Keys == r.byKey.Keys;
      assert Verdict(r', source, Keys(ps)) == Missing;
    } else {
      var k :| k in Keys(ps[..n]) && k !in r.byKey.Keys;
      assert k in Keys(ps) && k in r'.byKey && r'.origins[k] == source;
    }
  }

  /** A refused registration is not undone: the providers before the refused one stay, so a later
      check finds the candy connected although one of its identities is served by nobody. */
  lemma PartialRegistrationStays(reserved: set<string>, r: Reg, source: string, good: Provider, bad: Provider)
    requires Inv(r) && source != BUILTIN && good.key !in r.byKey && bad.key !in r.byKey && good.key != bad.key
    requires Refusal(reserved, good).None? && Refusal(reserved, bad).Some?
    ensures var (r', e) := RegisterAll(reserved, r, [good, bad], source);
            && e == Refusal(reserved, bad)
            && Verdict(r', source, {good.key, bad.key}) == Connected
            && bad.key !in r'.byKey
  {
    var ps := [good, bad];
    assert ps[1..] == [bad] && ps[..1] == [good] && [bad][1..] == [];
    KeysCons(ps);
    KeysCons([good]);
    KeysCons([bad]);
    assert Accepted(reserved, r, ps, source) == 1;
    RegistersExactly(reserved, r, ps, source);
    PartialExactlyWhen(reserved, r, source, ps);
  }

  // ------------------------------------------------------- providers and connections

  /** A plugin as it was connected: its providers and where it came from. */
  datatype Plugin = Plugin(ps: seq<Provider>, source: string)

  /** The registry after a run of plugins was connected and registered, those whose connection is still
      open, and which plugin each new key came from. */
  datatype Attached = Attached(reg: Reg, open: set<nat>, from: map<Key, nat>)

  /** Each plugin's providers are registered in turn; its connection is closed when they are refused. */
  function AttachAll(reserved: set<string>, r: Reg, plugins: seq<Plugin>): Attached {
    if |plugins| == 0 then Attached(r, {}, map[])
    else
      var n := |plugins| - 1;
      var t := AttachAll(reserved, r, plugins[..n]);
      var (r', e) := RegisterAll(reserved, t.reg, plugins[n].ps, plugins[n].source);
      Attach(t, n, r', e.None?)
  }

  /** Plugin n left the registry as r'. */
  function Attach(t: Attached, n: nat, r': Reg, accepted: bool): Attached {
    Attached(r', if accepted then t.open + {n} else t.open, t.from + map k | k in r'.byKey.Keys - t.reg.byKey.Keys :: n)
  }

  /** The batch is refused at a provider that comes after one with a new key. */
  ghost predicate Strands(reserved: set<string>, r: Reg, p: Plugin) {
    var n := Accepted(reserved, r, p.ps, p.source);
    n < |p.ps| && !(Keys(p.ps[..n]) <= r.byKey.Keys)
  }

  /** Every key a plugin brought has an open connection behind it. */
  ghost predicate AllConnected(t: Attached) { forall k :: k in t.from ==> t.from[k] in t.open }

  /** The new keys are those that came from one of the first n plugins. */
  ghost predicate Traced(t: Attached, start: set<Key>, n: nat) {
    && start <= t.reg.byKey.Keys && t.from.Keys == t.reg.byKey.Keys - start
    && (forall k :: k in t.from ==> t.from[k] < n) && (forall i :: i in t.open ==> i < n)
  }

  lemma AttachTraced(t: Attached, start: set<Key>, n: nat, r': Reg, accepted: bool)
    requires Traced(t, start, n) && t.reg.byKey.Keys <= r'.byKey.Keys
    ensures Traced(Attach(t, n, r', accepted), start, n + 1)
    ensures AllConnected(Attach(t, n, r', accepted)) <==>
              AllConnected(t) && (accepted || r'.byKey.Keys == t.reg.byKey.Keys)
  {
    var t' := Attach(t, n, r', accepted);
    forall k | k in t.from ensures t'.from[k] == t.from[k] {
    }
    forall k | k in r'.byKey && k !in t.reg.byKey ensures k in t'.from && t'.from[k] == n {
    }
    if r'.byKey.Keys != t.reg.byKey.Keys {
      var k :| k in r'.byKey && k !in t.reg.byKey;
      assert t'.from[k] == n;
    }
  }

  lemma RefusalStrands(reserved: set<string>, r: Reg, p: Plugin)
    requires Inv(r) && p.source != BUILTIN
    ensures var (r', e) := RegisterAll(reserved, r, p.ps, p.source);
            Inv(r') && r.byKey.Keys <= r'.byKey.Keys && (e.None? || r'.byKey.Keys == r.byKey.Keys <==> !Strands(reserved, r, p))
  {
    RegisterAllKeeps(reserved, r, p.ps, p.source);
    RegistersExactly(reserved, r, p.ps, p.source);
  }

  /** Plugin i of the run stranded a provider. */
  ghost predicate StrandsAt(reserved: set<string>, r: Reg, plugins: seq<Plugin>, i: nat)
    requires i < |plugins|
  {
    Strands(reserved, AttachAll(reserved, r, plugins[..i]).reg, plugins[i])
  }

  /** None of the first n plugins of the run stranded a provider. */
  ghost predicate NoneStrands(reserved: set<string>, r: Reg, plugins: seq<Plugin>, n: nat)
    requires n <= |plugins|
  {
    forall i :: 0 <= i < n ==> !StrandsAt(reserved, r, plugins, i)
  }

  lemma StrandsBefore(reserved: set<string>, r: Reg, plugins: seq<Plugin>, n: nat)
    requires n < |plugins|
    ensures NoneStrands(reserved, r, plugins, n + 1) <==>
              NoneStrands(reserved, r, plugins[..n], n) && !StrandsAt(reserved, r, plugins, n)
  {
    forall i | 0 <= i < n ensures StrandsAt(reserved, r, plugins[..n], i) == StrandsAt(reserved, r, plugins, i) {
      assert plugins[..n][..i] == plugins[..i];
    }
  }

  lemma LastAttached(reserved: set<string>, r: Reg, plugins: seq<Plugin>, n: nat, t: Attached, start: set<Key>)
    requires |plugins| == n + 1 && t == AttachAll(reserved, r, plugins[..n])
    requires Inv(t.reg) && Traced(t, start, n) && plugins[n].source != BUILTIN
    ensures var t' := AttachAll(reserved, r, plugins);
            && Inv(t'.reg) && Traced(t', start, |plugins|)
            && (AllConnected(t') <==> AllConnected(t) && !StrandsAt(reserved, r, plugins, n))
  {
    RefusalStrands(reserved, t.reg, plugins[n]);
    var (r', e) := RegisterAll(reserved, t.reg, plugins[n].ps, plugins[n].source);
    AttachTraced(t, start, n, r', e.None?);
  }

  /** EVERY REGISTERED PLUGIN PROVIDER HAS AN OPEN CONNECTION, exactly when no plugin of the run was
      refused after it had brought a new key. */
  lemma {:induction false} ConnectedExactlyWhen(reserved: set<string>, r: Reg, plugins: seq<Plugin>)
    requires Inv(r) && forall i :: 0 <= i < |plugins| ==> plugins[i].source != BUILTIN
    ensures var t := AttachAll(reserved, r, plugins); Inv(t.reg) && Traced(t, r.byKey.Keys, |plugins|)
    ensures AllConnected(AttachAll(reserved, r, plugins)) <==>
            NoneStrands(reserved, r, plugins, |plugins|)
  {
    if |plugins| > 0 {
      var n := |plugins| - 1;
      ConnectedExactlyWhen(reserved, r, plugins[..n]);
      StrandsBefore(reserved, r, plugins, n);
      LastAttached(reserved, r, plugins, n, AttachAll(reserved, r, plugins[..n]), r.byKey.Keys);
    }
  }
}
