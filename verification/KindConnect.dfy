/**
 The kind-connect pass: connecting the plugins that serve a project's own kinds while the project
 is being loaded, although connecting one loads the project again.
 */
module KindConnect {
  import opened Options
  import opened Sets

  /** Why a declared kind is not connected. */
  datatype Cause = Project(attempt: nat) | NeverRegistered(word: string)

  /** What the loads and connects of a run meet, by the order in which they start. */
  datatype World = World(
    boundaries: nat -> seq<set<string>>,            // the kind words a load's prescan declares at each boundary
    loadFails: nat -> bool,
    connects: (nat, set<string>) -> seq<set<string>>,   // the kind words a connect registers, a load after each
    connectFails: nat -> bool,
    baked: set<string>)

  /** The words a pass is about end registered without a retained error, or unregistered with one: this
      pass's own failure if it had one, else the one retained before.  Other words' errors stay. */
  ghost predicate Finalized(need: set<string>, before: map<string, Cause>, after: map<string, Cause>,
                            registered: set<string>, failure: Option<Cause>) {
    && (forall w :: w !in need ==> Same(w, before, after))
    && (forall w :: w in need ==> Final(w, before, after, registered, failure))
  }

  predicate Same(w: string, before: map<string, Cause>, after: map<string, Cause>) {
    (w in before <==> w in after) && (w in before ==> before[w] == after[w])
  }

  predicate Final(w: string, before: map<string, Cause>, after: map<string, Cause>, registered: set<string>,
                  failure: Option<Cause>) {
    if w in registered then w !in after
    else
      w in after && after[w] == if failure.Some? then failure.value
                                else if w in before then before[w] else NeverRegistered(w)
  }

  /** An error is retained for declared, unregistered words only. */
  ghost predicate Consistent(declared: set<string>, registered: set<string>, errors: map<string, Cause>) {
    errors.Keys <= declared && errors.Keys !! registered
  }

  /** Each of the words is registered, or has an error retained, and not both. */
  ghost predicate Settled(words: set<string>, registered: set<string>, errors: map<string, Cause>) {
    forall w :: w in words ==> (w in registered <==> w !in errors)
  }

  /** A pass keeps the table consistent, and settles everything declared when it began. */
  lemma PassSettles(declared: set<string>, registered: set<string>, before: map<string, Cause>,
                    declared': set<string>, registered': set<string>, after: map<string, Cause>, failure: Option<Cause>)
    requires Consistent(declared, registered, before) && declared <= declared' && registered <= registered'
    requires Finalized(declared - registered, before, after, registered', failure)
    ensures Consistent(declared', registered', after) && Settled(declared, registered', after)
  {
    var need := declared - registered;
    assert forall w :: w in after && w in need ==> Final(w, before, after, registered', failure);
    assert forall w :: w in after && w !in need ==> Same(w, before, after);
    forall w | w in declared ensures w in registered' <==> w !in after {
      if w in need {
        assert Final(w, before, after, registered', failure);
      } else {
        assert w !in before.Keys && Same(w, before, after);
      }
    }
  }

  /** ONLY A PASS CLEARS AN ERROR: a registered word has one after a pass exactly if it had one before
      and the pass did not need it, being registered already or not declared. */
  lemma StaleErrorExactlyWhen(declared: set<string>, registered: set<string>, before: map<string, Cause>,
                              registered': set<string>, after: map<string, Cause>, failure: Option<Cause>, w: string)
    requires registered <= registered' && Finalized(declared - registered, before, after, registered', failure)
    requires w in registered'
    ensures w in after <==> w in before && (w in registered || w !in declared)
  {
    if w in declared - registered {
      assert Final(w, before, after, registered', failure);
    } else {
      assert Same(w, before, after);
    }
  }

  /** Such a word exists: a pass over a new table fails on it; then a connect outside any pass registers
      it, and no pass after that, whatever is declared and however it ends, clears the error. */
  lemma StaleErrorExists(word: string, cause: Cause, declared: set<string>, registered: set<string>,
                         before: map<string, Cause>, registered': set<string>, after: map<string, Cause>,
                         failure: Option<Cause>)
    requires word in registered && registered <= registered' && word in before && before[word] == cause
    requires Finalized(declared - registered, before, after, registered', failure)
    ensures Finalized({word}, map[], map[word := cause], {}, Some(cause))
    ensures word in registered' && word in after && after[word] == cause
  {
    StaleErrorExactlyWhen(declared, registered, before, registered', after, failure, word);
    assert Same(word, before, after);
  }

  /** Nothing fails, and a connect registers every word it is asked for. */
  ghost predicate ProjectServes(w: World) {
    && (forall t: nat :: !w.loadFails(t) && !w.connectFails(t))
    && (forall t: nat, words :: words <= AllWords(w.connects(t, words)))
  }

  /** A baked binary registers the word it is connected for. */
  ghost predicate BakedServes(w: World) {
    forall t: nat, word :: word in w.baked ==> word in AllWords(w.connects(t, {word}))
  }

  function AllWords(bs: seq<set<string>>): set<string> {
    if |bs| == 0 then {} else AllWords(bs[..|bs| - 1]) + bs[|bs| - 1]
  }

  /** When the project leg's load, scan and connect started. */
  datatype Legs = Legs(load: nat, scan: nat, connect: nat)

  predicate Fails(w: World, legs: Legs) {
    w.loadFails(legs.load) || w.loadFails(legs.scan) || w.connectFails(legs.connect)
  }

  /** Whenever the three start, it tells if none of them fails or if one always does. */
  ghost predicate FailsAlways(w: World, load: nat, failure: Option<Cause>) {
    && ((forall t: nat :: t >= load ==> !w.loadFails(t) && !w.connectFails(t)) ==> failure.None?)
    && ((forall t: nat :: t > load ==> w.loadFails(t)) || (forall t: nat :: t > load ==> w.connectFails(t)) ==> failure.Some?)
  }

  class KindTable {
    const w: World
    var inKindConnectPass: bool
    var declared: set<string>
    var registered: set<string>
    var errors: map<string, Cause>
    var clock: nat

    constructor (w: World, registered: set<string>)
      ensures this.w == w && !inKindConnectPass && declared == {} && errors == map[] && this.registered == registered
    {
      this.w, this.registered := w, registered;
      inKindConnectPass, declared, errors, clock := false, {}, map[], 0;
    }

    method Tick() returns (t: nat)
      modifies this`clock
      ensures t == old(clock) && clock == t + 1
    {
      t := clock;
      clock := clock + 1;
    }

    /** Loads the project: at each boundary the prescan declares kinds, then the pass runs.  Inside a
        pass a load only declares; outside one, every kind it declares ends settled. */
    method LoadConfig() returns (ok: bool)
      modifies this
      decreases if inKindConnectPass then 0 else 1, 2
      ensures (ok <==> !w.loadFails(old(clock))) && clock > old(clock)
      ensures inKindConnectPass == old(inKindConnectPass)
      ensures old(declared) + AllWords(w.boundaries(old(clock))) <= declared && old(registered) <= registered
      ensures old(inKindConnectPass) ==> errors == old(errors) && registered == old(registered)
      ensures !old(inKindConnectPass) && old(Consistent(declared, registered, errors)) ==>
                && Consistent(declared, registered, errors)
                && (Settled(AllWords(w.boundaries(old(clock))), registered, errors))
    {
      var t := Tick();
      var bs := w.boundaries(t);
      for i := 0 to |bs|
        invariant inKindConnectPass == old(inKindConnectPass) && old(clock) < clock
        invariant old(declared) + AllWords(bs[..i]) <= declared && old(registered) <= registered
        invariant old(inKindConnectPass) ==> errors == old(errors) && registered == old(registered)
        invariant !old(inKindConnectPass) && old(Consistent(declared, registered, errors)) ==>
                    Consistent(declared, registered, errors) && Settled(AllWords(bs[..i]), registered, errors)
      {
        assert bs[..i + 1][..i] == bs[..i];
        declared := declared + bs[i];
        ghost var _, _ := ConnectDeclaredKindPlugins();
      }
      assert bs[..|bs|] == bs;
      ok := !w.loadFails(t);
    }

    /** The pass.  Inside another pass it changes nothing, so the recursion through the loads below it
        ends; otherwise the flag is clear again and the words it found unconnected are finalized. */
    method ConnectDeclaredKindPlugins() returns (ghost failure: Option<Cause>, ghost legs: Legs)
      modifies this
      decreases if inKindConnectPass then 0 else 1, 1
      ensures inKindConnectPass == old(inKindConnectPass)
      ensures old(declared) <= declared && old(registered) <= registered && old(clock) <= clock
      ensures old(inKindConnectPass || declared <= registered) ==>
                && declared == old(declared) && registered == old(registered)
                && errors == old(errors) && clock == old(clock)
      ensures !old(inKindConnectPass) ==>
                && Finalized(old(declared - registered), old(errors), errors, registered, failure)
                && (failure.Some? ==> failure.value == Project(old(clock)))
      ensures !old(inKindConnectPass) && old(Consistent(declared, registered, errors)) ==>
                Consistent(declared, registered, errors) && Settled(old(declared), registered, errors)
      ensures !old(inKindConnectPass) ==>
                && (ProjectServes(w) ==> failure.None? && old(declared) <= registered)
                && (BakedServes(w) ==> old(declared) * w.baked <= registered)
                && (old(declared) - old(registered) != {} ==>
                      legs.load == old(clock) + 1 && (failure.Some? <==> Fails(w, legs)) && FailsAlways(w, legs.load, failure))
    {
      failure, legs := None, Legs(0, 0, 0);
      if inKindConnectPass {
        return;
      }
      var need := declared - registered;
      if need == {} {
        assert declared == need + declared * registered;
        return;
      }
      inKindConnectPass := true;
      var err;
      err, legs := ConnectDeclaredKindsFromProject(need);
      failure := err;
      if err.Some? {
        RecordDeclaredKindConnectError(need, err.value);
      }
      ConnectBaked(need);
      Finalize(need, old(errors), failure);
      inKindConnectPass := false;
      if old(Consistent(declared, registered, errors)) {
        PassSettles(old(declared), old(registered), old(errors), declared, registered, errors, failure);
      }
    }

    /** The project leg: load, scan (another load), connect what serves a needed word. */
    method ConnectDeclaredKindsFromProject(need: set<string>) returns (failure: Option<Cause>, ghost legs: Legs)
      requires inKindConnectPass
      modifies this
      decreases 0, 5
      ensures ProjectServes(w) ==> failure.None? && need <= registered
      ensures legs.load == old(clock) + 1 && (failure.Some? <==> Fails(w, legs)) && FailsAlways(w, legs.load, failure)
      ensures failure.Some? ==> failure.value == Project(old(clock))
      ensures inKindConnectPass && errors == old(errors)
      ensures old(declared) <= declared && old(registered) <= registered && old(clock) <= clock
    {
      var t := Tick();
      legs := Legs(clock, clock, clock);
      var ok := LoadConfig();
      if !ok {
        return Some(Project(t)), legs;
      }
      legs := legs.(scan := clock);
      ok := LoadConfig();
      if !ok {
        return Some(Project(t)), legs;
      }
      legs := legs.(connect := clock);
      ok := Connect(need);
      failure := if ok then None else Some(Project(t));
    }

    /** A connect registers whatever it serves, and may load the project for the requirements of what
        it serves. */
    method Connect(words: set<string>) returns (ok: bool)
      requires inKindConnectPass
      modifies this
      decreases 0, 3
      ensures AllWords(w.connects(old(clock), words)) <= registered && (ok <==> !w.connectFails(old(clock)))
      ensures inKindConnectPass && errors == old(errors)
      ensures old(declared) <= declared && old(registered) <= registered && old(clock) <= clock
    {
      var t := Tick();
      var batches := w.connects(t, words);
      for i := 0 to |batches|
        invariant inKindConnectPass && errors == old(errors) && old(clock) <= clock
        invariant old(declared) <= declared && old(registered) + AllWords(batches[..i]) <= registered
      {
        assert batches[..i + 1][..i] == batches[..i];
        registered := registered + batches[i];
        var _ := LoadConfig();
      }
      assert batches[..|batches|] == batches;
      ok := !w.connectFails(t);
    }

    /** The baked leg: each needed word that is still unconnected and has a baked binary, in any order. */
    method ConnectBaked(need: set<string>)
      requires inKindConnectPass
      modifies this
      decreases 0, 4
      ensures BakedServes(w) ==> need * w.baked <= registered
      ensures inKindConnectPass && errors == old(errors)
      ensures old(declared) <= declared && old(registered) <= registered && old(clock) <= clock
    {
      var todo := need;
      while todo != {}
        invariant inKindConnectPass && errors == old(errors) && old(clock) <= clock
        invariant old(declared) <= declared && old(registered) <= registered
        invariant BakedServes(w) ==> (need - todo) * w.baked <= registered
        decreases todo
      {
        var word := Pick(todo);
        todo := todo - {word};
        if word !in registered && word in w.baked {
          var _ := Connect({word});
        }
      }
    }

    method RecordDeclaredKindConnectError(need: set<string>, cause: Cause)
      modifies this`errors
      ensures errors == old(errors) + map word | word in need :: cause
    {
      var todo := need;
      while todo != {}
        invariant todo <= need
        invariant errors == old(errors) + map word | word in need - todo :: cause
        decreases todo
      {
        var word := Pick(todo);
        todo := todo - {word};
        errors := errors[word := cause];
      }
    }

    /** Clears the errors of the words that registered, and leaves every other needed word with one. */
    method Finalize(need: set<string>, ghost before: map<string, Cause>, ghost failure: Option<Cause>)
      requires errors == if failure.Some? then before + map word | word in need :: failure.value else before
      modifies this`errors
      ensures Finalized(need, before, errors, registered, failure)
    {
      var todo := need;
      while todo != {}
        invariant todo <= need
        invariant forall w :: w !in need ==> Same(w, before, errors)
        invariant forall w :: w in todo ==> Same(w, old(errors), errors)
        invariant forall w :: w in need && w !in todo ==> Final(w, before, errors, registered, failure)
        decreases todo
      {
        var word := Pick(todo);
        todo := todo - {word};
        if word in registered {
          errors := errors - {word};
        } else if word !in errors {
          errors := errors[word := NeverRegistered(word)];
        }
      }
    }
  }
}
