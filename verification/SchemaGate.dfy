/** The plugin schema gate: which served schemas join the process-wide compiled schema. */
module SchemaGate {
  import opened Options
  import opened Sets
  import opened Strings

  /** A unit's served schema: its source text, and the input definition of each capability key. */
  datatype Schema = Schema(source: string, inputDefs: map<string, string>)

  /** The unit that declared a definition. */
  datatype Declarer = Declarer(identity: string, name: string)

  datatype Error =
    | EmptySchema | NotStandalone | Redeclares(def: string, holder: Declarer) | DoesNotSplice | BadInput(key: string)

  /** The schema compiler, of which nothing is assumed. */
  datatype Cue = Cue(
    blank: string -> bool,                      // only white space
    defs: string -> Option<seq<string>>,        // the definitions a source declares, if it compiles alone
    splices: seq<string> -> bool,               // base ++ sources compiles
    finds: (seq<string>, string) -> bool,       // base ++ sources has the definition
    hasField: (seq<string>, string, string) -> bool)

  /** The process-wide set; `unified` is named by the sources it was compiled from. */
  datatype State = State(sources: seq<string>, defOwners: map<string, Declarer>, srcSeen: set<string>,
                         inputDefs: map<string, string>, unified: Option<seq<string>>)

  const FRESH := State([], map[], {}, map[], None)

  // ------------------------------------------------------------------ identities

  /** A unit is known by its capability keys; one that declares none, by its name. */
  function UnitSchemaIdentity(name: string, s: Schema): string {
    if s.inputDefs.Keys == {} then name else Join(Sorted(s.inputDefs.Keys), ',')
  }

  function DeclarerOf(name: string, s: Schema): Declarer { Declarer(UnitSchemaIdentity(name, s), name) }

  /** Units with comma-free keys have one identity exactly when they declare the same keys. */
  lemma IdentityIsTheKeySet(name: string, s: Schema, name': string, s': Schema)
    requires s.inputDefs.Keys != {} && s'.inputDefs.Keys != {}
    requires forall k :: k in s.inputDefs.Keys + s'.inputDefs.Keys ==> ',' !in k
    ensures UnitSchemaIdentity(name, s) == UnitSchemaIdentity(name', s') <==> s.inputDefs.Keys == s'.inputDefs.Keys
  {
    var a, b := Sorted(s.inputDefs.Keys), Sorted(s'.inputDefs.Keys);
    assert forall i :: 0 <= i < |a| ==> a[i] in (set x | x in a);
    assert forall i :: 0 <= i < |b| ==> b[i] in (set x | x in b);
    SplitOfJoin(a, ',');
    SplitOfJoin(b, ',');
  }

  /** A unit without capabilities shares the identity of one with comma-free keys exactly when its name
      lists those keys. */
  lemma NameMeetsKeys(name: string, s: Schema, name': string, s': Schema)
    requires s.inputDefs.Keys == {} && s'.inputDefs.Keys != {}
    requires forall k :: k in s'.inputDefs.Keys ==> ',' !in k
    ensures UnitSchemaIdentity(name, s) == UnitSchemaIdentity(name', s') <==> Split(name, ',') == Sorted(s'.inputDefs.Keys)
  {
    var keys := Sorted(s'.inputDefs.Keys);
    assert forall i :: 0 <= i < |keys| ==> keys[i] in (set x | x in keys);
    SplitOfJoin(keys, ',');
    JoinOfSplit(name, ',');
  }

  /** With commas in keys different units can share one: a key that lists two keys, and the two keys. */
  lemma CommaKeysCollide(name: string, name': string, a: string, b: string, def: string)
    requires Less(a, b)
    ensures var s, s' := Schema("", map[Join([a, b], ',') := def]), Schema("", map[a := def, b := def]);
            UnitSchemaIdentity(name, s) == UnitSchemaIdentity(name', s') && (',' !in b ==> s.inputDefs.Keys != s'.inputDefs.Keys)
  {
    var joined := Join([a, b], ',');
    SortedPair(a, b);
    assert Sorted({joined}) == [joined] by {
      assert Least(joined, {joined}) && {joined} - {joined} == {};
    }
    assert map[a := def, b := def].Keys == {a, b} && map[joined := def].Keys == {joined};
    if ',' !in b {
      assert [a, b][1..] == [b] && Join([b], ',') == b;
      assert joined == a + [','] + b;
      assert joined[|a|] == ',' && joined != b;
      assert b in {a, b};
    }
  }

  // -------------------------------------------------------------------- the gate

  /** The first listed definition that a unit of another identity owns. */
  function FirstClash(owners: map<string, Declarer>, defs: seq<string>, identity: string): Option<string> {
    if |defs| == 0 then None
    else if defs[0] in owners && owners[defs[0]].identity != identity then Some(defs[0])
    else FirstClash(owners, defs[1..], identity)
  }

  /** The verb word of a capability key. */
  function VerbWord(key: string): Option<string> {
    if |key| >= 5 && key[..5] == "verb:" then Some(key[5..]) else None
  }

  /** The primary of a verb that declares one is a field of the definition. */
  predicate HasPrimary(cue: Cue, primaries: map<string, string>, merged: seq<string>, key: string, def: string) {
    VerbWord(key).Some? && VerbWord(key).value in primaries ==> cue.hasField(merged, def, primaries[VerbWord(key).value])
  }

  predicate InputOk(cue: Cue, primaries: map<string, string>, merged: seq<string>, key: string, def: string) {
    cue.finds(merged, def) && HasPrimary(cue, primaries, merged, key, def)
  }

  function Merged(st: State, source: string): seq<string> {
    if source in st.srcSeen then st.sources else st.sources + [source]
  }

  predicate Declares(cue: Cue, source: string, d: string) {
    cue.defs(source).Some? && d in cue.defs(source).value
  }

  /** Gives the definitions nobody owns yet to the declarer. */
  function Own(owners: map<string, Declarer>, defs: seq<string>, d: Declarer): map<string, Declarer> {
    (map x | x in defs :: d) + owners
  }

  function Commit(cue: Cue, st: State, d: Declarer, s: Schema): State
    requires cue.defs(s.source).Some?
  {
    var merged := Merged(st, s.source);
    State(merged, Own(st.defOwners, cue.defs(s.source).value, d),
          st.srcSeen + {s.source}, st.inputDefs + s.inputDefs, Some(merged))
  }

  ghost predicate InputsOk(cue: Cue, primaries: map<string, string>, merged: seq<string>, s: Schema) {
    forall k :: k in s.inputDefs ==> InputOk(cue, primaries, merged, k, s.inputDefs[k])
  }

  /** What registering a unit's schema amounts to: a refusal changes nothing. */
  ghost predicate Gate(cue: Cue, primaries: map<string, string>, st: State, name: string, s: Schema, st': State,
                       e: Option<Error>) {
    var defs, merged, d := cue.defs(s.source), Merged(st, s.source), DeclarerOf(name, s);
    if cue.blank(s.source) then st' == st && e == Some(EmptySchema)
    else if defs.None? then st' == st && e == Some(NotStandalone)
    else
      var clash := if s.source in st.srcSeen then None else FirstClash(st.defOwners, defs.value, d.identity);
      if clash.Some? then
        st' == st && clash.value in st.defOwners && e == Some(Redeclares(clash.value, st.defOwners[clash.value]))
      else if !cue.splices(merged) then st' == st && e == Some(DoesNotSplice)
      else if InputsOk(cue, primaries, merged, s) then st' == Commit(cue, st, d, s) && e == None
      else
        && st' == st && e.Some? && e.value.BadInput? && e.value.key in s.inputDefs
        && !InputOk(cue, primaries, merged, e.value.key, s.inputDefs[e.value.key])
  }

  /** No definition of a source is owned under another identity. */
  ghost predicate NoneTaken(cue: Cue, st: State, source: string, identity: string) {
    cue.defs(source).Some? &&
      forall d :: d in cue.defs(source).value && d in st.defOwners ==> st.defOwners[d].identity == identity
  }

  /** Each input definition is found in the whole, and has the field that its verb declares as primary. */
  ghost predicate InputsFit(cue: Cue, primaries: map<string, string>, merged: seq<string>, s: Schema) {
    && (forall k :: k in s.inputDefs ==> cue.finds(merged, s.inputDefs[k]))
    && (forall w :: w in primaries && "verb:" + w in s.inputDefs ==> cue.hasField(merged, s.inputDefs["verb:" + w], primaries[w]))
  }

  /** ACCEPTED, EXACTLY WHEN: the schema is not blank and compiles alone; it is a replay, or none of its
      definitions is owned under another identity; the whole compiles with it; and its input definitions fit. */
  lemma AcceptedExactlyWhen(cue: Cue, primaries: map<string, string>, st: State, name: string, s: Schema, st': State,
                            e: Option<Error>)
    requires Gate(cue, primaries, st, name, s, st', e)
    ensures var merged := if s.source in st.srcSeen then st.sources else st.sources + [s.source];
            e.None? <==>
              && !cue.blank(s.source) && cue.defs(s.source).Some? && cue.splices(merged)
              && (s.source in st.srcSeen || NoneTaken(cue, st, s.source, UnitSchemaIdentity(name, s)))
              && InputsFit(cue, primaries, merged, s)
    ensures e.Some? ==> st' == st
    ensures e.Some? && e.value.Redeclares? ==>
              && Declares(cue, s.source, e.value.def) && e.value.def in st.defOwners
              && e.value.holder == st.defOwners[e.value.def] && e.value.holder.identity != UnitSchemaIdentity(name, s)
  {
    var identity := UnitSchemaIdentity(name, s);
    if cue.defs(s.source).Some? {
      FirstClashNone(st.defOwners, cue.defs(s.source).value, identity);
      FirstClashIs(st.defOwners, cue.defs(s.source).value, identity);
    }
    InputsFitExactly(cue, primaries, Merged(st, s.source), s);
  }

  lemma InputsFitExactly(cue: Cue, primaries: map<string, string>, merged: seq<string>, s: Schema)
    ensures InputsOk(cue, primaries, merged, s) <==> InputsFit(cue, primaries, merged, s)
  {
    if InputsOk(cue, primaries, merged, s) {
      forall w | w in primaries && "verb:" + w in s.inputDefs
        ensures cue.hasField(merged, s.inputDefs["verb:" + w], primaries[w])
      {
        VerbWordIs("verb:" + w, w);
        assert InputOk(cue, primaries, merged, "verb:" + w, s.inputDefs["verb:" + w]);
      }
      assert forall k :: k in s.inputDefs ==> InputOk(cue, primaries, merged, k, s.inputDefs[k]);
    }
    if InputsFit(cue, primaries, merged, s) {
      forall k | k in s.inputDefs ensures InputOk(cue, primaries, merged, k, s.inputDefs[k]) {
        if VerbWord(k).Some? {
          VerbWordIs(k, VerbWord(k).value);
        }
      }
    }
  }

  /** What an accepted schema leaves: its source spliced in once, and its definitions its own, but for those
      that had an owner. */
  lemma CommitIsExact(cue: Cue, st: State, name: string, s: Schema)
    requires cue.defs(s.source).Some?
    ensures var st' := Commit(cue, st, DeclarerOf(name, s), s);
            && st'.sources == (if s.source in st.srcSeen then st.sources else st.sources + [s.source])
            && st'.srcSeen == st.srcSeen + {s.source} && st'.unified == Some(st'.sources)
            && (forall d :: d in st'.defOwners <==> d in st.defOwners || Declares(cue, s.source, d))
            && (forall d :: d in st'.defOwners ==>
                  if d in st.defOwners then st'.defOwners[d] == st.defOwners[d]
                  else st'.defOwners[d] == Declarer(UnitSchemaIdentity(name, s), name))
  {
  }

  lemma VerbWordIs(k: string, w: string)
    ensures k == "verb:" + w <==> VerbWord(k) == Some(w)
  {
    if VerbWord(k) == Some(w) {
      assert k == k[..5] + k[5..];
    }
  }

  lemma {:induction false} FirstClashIs(owners: map<string, Declarer>, defs: seq<string>, identity: string)
    ensures var clash := FirstClash(owners, defs, identity);
            clash.Some? ==> clash.value in defs && clash.value in owners && owners[clash.value].identity != identity
  {
    if |defs| > 0 {
      FirstClashIs(owners, defs[1..], identity);
    }
  }

  class PluginSchemaSet {
    const cue: Cue
    var sources: seq<string>
    var defOwners: map<string, Declarer>
    var srcSeen: set<string>
    var inputDefs: map<string, string>
    var unified: Option<seq<string>>

    function View(): State reads this { State(sources, defOwners, srcSeen, inputDefs, unified) }

    constructor (cue: Cue)
      ensures this.cue == cue && View() == FRESH
    {
      this.cue := cue;
      sources, defOwners, srcSeen, inputDefs, unified := [], map[], {}, map[], None;
    }

    /** The load gate of every unit's schema. */
    method RegisterPluginUnitSchema(name: string, s: Schema, primaries: map<string, string>) returns (e: Option<Error>)
      modifies this
      ensures Gate(cue, primaries, old(View()), name, s, View(), e)
    {
      if cue.blank(s.source) {
        return Some(EmptySchema);
      }
      var newDefs := cue.defs(s.source);
      if newDefs.None? {
        return Some(NotStandalone);
      }
      var replay := s.source in srcSeen;
      if !replay {
        var clash := Clash(newDefs.value, UnitSchemaIdentity(name, s));
        if clash.Some? {
          return Some(Redeclares(clash.value, defOwners[clash.value]));
        }
      }
      var merged := if replay then sources else sources + [s.source];
      if !cue.splices(merged) {
        return Some(DoesNotSplice);
      }
      var bad := BadInputDef(s, primaries, merged);
      if bad.Some? {
        return Some(BadInput(bad.value));
      }
      sources, srcSeen := merged, srcSeen + {s.source};
      TakeDefs(newDefs.value, DeclarerOf(name, s));
      inputDefs := inputDefs + s.inputDefs;
      unified := Some(merged);
      e := None;
    }

    /** The collision gate: a definition of a unit of another identity. */
    method Clash(defs: seq<string>, identity: string) returns (clash: Option<string>)
      ensures clash == FirstClash(defOwners, defs, identity) && (clash.Some? ==> clash.value in defOwners)
    {
      for i := 0 to |defs|
        invariant FirstClash(defOwners, defs, identity) == FirstClash(defOwners, defs[i..], identity)
      {
        assert defs[i..][1..] == defs[i + 1..];
        if defs[i] in defOwners && defOwners[defs[i]].identity != identity {
          return Some(defs[i]);
        }
      }
      clash := None;
    }

    /** An input definition that is missing, or lacks its verb's primary; they are met in any order. */
    method BadInputDef(s: Schema, primaries: map<string, string>, merged: seq<string>) returns (bad: Option<string>)
      ensures bad.None? ==> InputsOk(cue, primaries, merged, s)
      ensures bad.Some? ==> bad.value in s.inputDefs && !InputOk(cue, primaries, merged, bad.value, s.inputDefs[bad.value])
    {
      var todo := s.inputDefs.Keys;
      while todo != {}
        invariant todo <= s.inputDefs.Keys
        invariant forall k :: k in s.inputDefs && k !in todo ==> InputOk(cue, primaries, merged, k, s.inputDefs[k])
        decreases todo
      {
        var key := Pick(todo);
        if !InputOk(cue, primaries, merged, key, s.inputDefs[key]) {
          return Some(key);
        }
        todo := todo - {key};
      }
      bad := None;
    }

    /** Records the declarer of every definition that has none yet. */
    method TakeDefs(defs: seq<string>, d: Declarer)
      modifies this`defOwners
      ensures defOwners == Own(old(defOwners), defs, d)
    {
      for i := 0 to |defs|
        invariant defOwners == Own(old(defOwners), defs[..i], d)
      {
        assert defs[..i + 1] == defs[..i] + [defs[i]];
        if defs[i] !in defOwners {
          defOwners := defOwners[defs[i] := d];
        }
      }
      assert defs[..|defs|] == defs;
    }
  }

  // ---------------------------------------------------------------- over every run

  /** One registration of a run, with the verb primaries known at its time. */
  datatype Step = Step(name: string, schema: Schema, primaries: map<string, string>, after: State, error: Option<Error>)

  function Last(start: State, run: seq<Step>): State {
    if |run| == 0 then start else run[|run| - 1].after
  }

  ghost predicate IsRun(cue: Cue, start: State, run: seq<Step>) {
    |run| == 0
    || var n, s := |run| - 1, run[|run| - 1];
       IsRun(cue, start, run[..n]) && Gate(cue, s.primaries, Last(start, run[..n]), s.name, s.schema, s.after, s.error)
  }

  /** Each committed source with the identity under which it was first committed. */
  ghost function Firsts(run: seq<Step>): map<string, string> {
    if |run| == 0 then map[]
    else
      var n, s := |run| - 1, run[|run| - 1];
      var before := Firsts(run[..n]);
      if s.error.None? && s.schema.source !in before
      then before[s.schema.source := UnitSchemaIdentity(s.name, s.schema)] else before
  }

  /** Every source is spliced in once, and every definition of a committed source is owned by the
      identity under which that source was first committed. */
  ghost predicate Owned(cue: Cue, st: State, firsts: map<string, string>) {
    && st.srcSeen == firsts.Keys && Spliced(cue, st)
    && AllOwned(cue, st.defOwners, firsts) && Sourced(cue, st.defOwners, firsts.Keys)
  }

  ghost predicate Spliced(cue: Cue, st: State) {
    && st.srcSeen == (set s | s in st.sources) && NoRepeats(st.sources)
    && (st.sources != [] ==> st.unified == Some(st.sources) && cue.splices(st.sources))
  }

  ghost predicate AllOwned(cue: Cue, owners: map<string, Declarer>, firsts: map<string, string>) {
    forall s :: s in firsts ==> cue.defs(s).Some? && OwnedBy(owners, cue.defs(s).value, firsts[s])
  }

  ghost predicate NoRepeats(s: seq<string>) {
    forall i, j :: 0 <= i < j < |s| ==> s[i] != s[j]
  }

  ghost predicate OwnedBy(owners: map<string, Declarer>, defs: seq<string>, identity: string) {
    forall d :: d in defs ==> d in owners && owners[d].identity == identity
  }

  lemma {:induction false} FirstClashNone(owners: map<string, Declarer>, defs: seq<string>, identity: string)
    ensures FirstClash(owners, defs, identity).None? <==> forall d :: d in defs && d in owners ==>
        owners[d].identity == identity
  {
    if |defs| > 0 {
      FirstClashNone(owners, defs[1..], identity);
      assert defs == [defs[0]] + defs[1..];
    }
  }

  lemma OwnKeeps(owners: map<string, Declarer>, defs: seq<string>, d: Declarer, others: seq<string>, identity: string)
    requires OwnedBy(owners, others, identity)
    ensures OwnedBy(Own(owners, defs, d), others, identity)
    ensures (forall x :: x in defs && x in owners ==> owners[x].identity == d.identity) ==>
        OwnedBy(Own(owners, defs, d), defs, d.identity)
  {
  }

  lemma OwnAgain(owners: map<string, Declarer>, defs: seq<string>, d: Declarer, identity: string)
    requires OwnedBy(owners, defs, identity)
    ensures Own(owners, defs, d) == owners
  {
  }

  /** Each owned definition comes from a committed source. */
  ghost predicate Sourced(cue: Cue, owners: map<string, Declarer>, srcs: set<string>) {
    forall d :: d in owners ==> exists s :: s in srcs && Declares(cue, s, d)
  }

  lemma OwnSourced(cue: Cue, owners: map<string, Declarer>, srcs: set<string>, source: string, d: Declarer)
    requires Sourced(cue, owners, srcs) && cue.defs(source).Some?
    ensures Sourced(cue, Own(owners, cue.defs(source).value, d), srcs + {source})
  {
    forall x | x in Own(owners, cue.defs(source).value, d) ensures exists t :: t in srcs + {source} && Declares(cue, t, x) {
      if x in owners {
        var t :| t in srcs && Declares(cue, t, x);
        assert t in srcs + {source};
      } else {
        assert Declares(cue, source, x);
      }
    }
  }

  lemma CommitKeepsSpliced(cue: Cue, st: State, d: Declarer, s: Schema)
    requires Spliced(cue, st) && cue.defs(s.source).Some? && cue.splices(Merged(st, s.source))
    ensures Spliced(cue, Commit(cue, st, d, s))
  {
    if s.source in st.srcSeen {
      assert st.srcSeen + {s.source} == st.srcSeen;
    } else {
      assert (set x | x in st.sources + [s.source]) == (set x | x in st.sources) + {s.source};
      assert s.source !in st.sources;
    }
  }

  lemma OwnKeepsAll(cue: Cue, owners: map<string, Declarer>, firsts: map<string, string>, source: string, d: Declarer)
    requires AllOwned(cue, owners, firsts) && cue.defs(source).Some?
    requires source in firsts || FirstClash(owners, cue.defs(source).value, d.identity).None?
    ensures AllOwned(cue, Own(owners, cue.defs(source).value, d),
                     if source in firsts then firsts else firsts[source := d.identity])
  {
    var defs := cue.defs(source).value;
    FirstClashNone(owners, defs, d.identity);
    OwnKeeps(owners, defs, d, [], d.identity);
    forall t | t in firsts ensures OwnedBy(Own(owners, defs, d), cue.defs(t).value, firsts[t]) {
      OwnKeeps(owners, defs, d, cue.defs(t).value, firsts[t]);
    }
  }

  lemma CommitKeepsOwned(cue: Cue, st: State, firsts: map<string, string>, d: Declarer, s: Schema)
    requires Owned(cue, st, firsts) && cue.defs(s.source).Some? && cue.splices(Merged(st, s.source))
    requires s.source in st.srcSeen || FirstClash(st.defOwners, cue.defs(s.source).value, d.identity).None?
    ensures Owned(cue, Commit(cue, st, d, s), if s.source in firsts then firsts else firsts[s.source := d.identity])
  {
    CommitKeepsSpliced(cue, st, d, s);
    OwnKeepsAll(cue, st.defOwners, firsts, s.source, d);
    OwnSourced(cue, st.defOwners, st.srcSeen, s.source, d);
    assert firsts.Keys + {s.source} == (if s.source in firsts then firsts else firsts[s.source := d.identity]).Keys;
  }

  /** OWNERSHIP over every run of registrations, accepted and refused. */
  lemma {:induction false} OwnersCommittedFirst(cue: Cue, run: seq<Step>)
    requires IsRun(cue, FRESH, run)
    ensures Owned(cue, Last(FRESH, run), Firsts(run))
  {
    if |run| > 0 {
      var n, s := |run| - 1, run[|run| - 1];
      OwnersCommittedFirst(cue, run[..n]);
      if s.error.None? {
        CommitKeepsOwned(cue, Last(FRESH, run[..n]), Firsts(run[..n]), DeclarerOf(s.name, s.schema), s.schema);
      }
    }
  }

  /** So two committed sources that share a definition were first committed under one identity. */
  lemma SharedDefSharedIdentity(cue: Cue, run: seq<Step>, a: string, b: string, d: string)
    requires IsRun(cue, FRESH, run) && a in Last(FRESH, run).sources && b in Last(FRESH, run).sources
    requires cue.defs(a).Some? && d in cue.defs(a).value && cue.defs(b).Some? && d in cue.defs(b).value
    ensures a in Firsts(run) && b in Firsts(run) && Firsts(run)[a] == Firsts(run)[b]
  {
    OwnersCommittedFirst(cue, run);
    assert a in (set s | s in Last(FRESH, run).sources) && b in (set s | s in Last(FRESH, run).sources);
  }

  lemma CommitAgain(cue: Cue, st: State, firsts: map<string, string>, d: Declarer, s: Schema)
    requires Owned(cue, st, firsts) && s.source in firsts && st.sources != []
    requires forall k :: k in s.inputDefs ==> k in st.inputDefs && st.inputDefs[k] == s.inputDefs[k]
    ensures Commit(cue, st, d, s) == st
  {
    OwnAgain(st.defOwners, cue.defs(s.source).value, d, firsts[s.source]);
    assert st.srcSeen + {s.source} == st.srcSeen;
    assert st.inputDefs + s.inputDefs == st.inputDefs;
  }

  /** Replaying a committed source with input definitions that are already recorded changes nothing,
      whether it is accepted or not, and whoever replays it. */
  lemma ReplayIsNoOp(cue: Cue, run: seq<Step>, name: string, s: Schema, primaries: map<string, string>, after: State,
                     e: Option<Error>)
    requires IsRun(cue, FRESH, run) && s.source in Last(FRESH, run).sources
    requires forall k :: k in s.inputDefs ==>
        k in Last(FRESH, run).inputDefs && Last(FRESH, run).inputDefs[k] == s.inputDefs[k]
    requires Gate(cue, primaries, Last(FRESH, run), name, s, after, e)
    ensures after == Last(FRESH, run)
  {
    OwnersCommittedFirst(cue, run);
    var st := Last(FRESH, run);
    assert s.source in (set x | x in st.sources);
    assert Merged(st, s.source) == st.sources;
    if e.None? {
      CommitAgain(cue, st, Firsts(run), DeclarerOf(name, s), s);
    }
  }

  // ------------------------------------------------------------- input definitions

  /** Step i of the run was accepted, and its schema names an input definition for the key. */
  ghost predicate NamedBy(run: seq<Step>, i: nat, key: string)
    requires i < |run|
  {
    run[i].error.None? && key in run[i].schema.inputDefs
  }

  /** EXACTLY THE ACCEPTED INPUT DEFINITIONS ARE RECORDED, over every run: a key is recorded if and only
      if an accepted schema names it, and with the definition the last such schema gives it. */
  lemma {:induction false} InputDefsRecorded(cue: Cue, run: seq<Step>, key: string)
    requires IsRun(cue, FRESH, run)
    ensures key in Last(FRESH, run).inputDefs <==> exists i :: 0 <= i < |run| && NamedBy(run, i, key)
    ensures forall i :: 0 <= i < |run| && NamedBy(run, i, key) && (forall j :: i < j < |run| ==> !NamedBy(run, j, key)) ==>
              key in Last(FRESH, run).inputDefs && Last(FRESH, run).inputDefs[key] == run[i].schema.inputDefs[key]
  {
    if |run| > 0 {
      var n, s := |run| - 1, run[|run| - 1];
      InputDefsRecorded(cue, run[..n], key);
      GateIsCommit(cue, s.primaries, Last(FRESH, run[..n]), s.name, s.schema, s.after, s.error);
      assert forall i :: 0 <= i < n ==> (NamedBy(run[..n], i, key) <==> NamedBy(run, i, key));
      if NamedBy(run, n, key) {
        assert key in s.after.inputDefs;
      } else {
        assert key in s.after.inputDefs <==> key in Last(FRESH, run[..n]).inputDefs;
      }
    }
  }

  /** Adding a source takes no definition away. */
  ghost predicate Grows(cue: Cue) {
    forall a, s, d {:trigger cue.finds(a, d), cue.finds(a + [s], d)} :: cue.finds(a, d) ==> cue.finds(a + [s], d)
  }

  /** The input definition recorded for a key is found in the unified schema. */
  ghost predicate Resolves(cue: Cue, st: State, key: string) {
    key in st.inputDefs ==> st.unified == Some(st.sources) && cue.finds(st.sources, st.inputDefs[key])
  }

  lemma CommitResolves(cue: Cue, primaries: map<string, string>, st: State, d: Declarer, s: Schema, key: string)
    requires cue.defs(s.source).Some? && InputsOk(cue, primaries, Merged(st, s.source), s)
    requires Grows(cue) && Resolves(cue, st, key)
    ensures Resolves(cue, Commit(cue, st, d, s), key)
  {
    if key in s.inputDefs {
      assert InputOk(cue, primaries, Merged(st, s.source), key, s.inputDefs[key]);
    } else if key in st.inputDefs {
      assert cue.finds(st.sources, st.inputDefs[key]);
    }
  }

  lemma GateIsCommit(cue: Cue, primaries: map<string, string>, st: State, name: string, s: Schema, st': State, e: Option<Error>)
    requires Gate(cue, primaries, st, name, s, st', e)
    ensures if e.Some? then st' == st
            else cue.defs(s.source).Some? && InputsOk(cue, primaries, Merged(st, s.source), s)
                 && st' == Commit(cue, st, DeclarerOf(name, s), s)
  {
  }

  /** Every recorded input definition is found in the unified schema that authored input is checked
      against, at every moment of every run. */
  lemma {:induction false} InputDefsResolve(cue: Cue, run: seq<Step>, key: string)
    requires IsRun(cue, FRESH, run) && Grows(cue)
    ensures Resolves(cue, Last(FRESH, run), key)
  {
    if |run| > 0 {
      var n, s := |run| - 1, run[|run| - 1];
      var before := Last(FRESH, run[..n]);
      InputDefsResolve(cue, run[..n], key);
      GateIsCommit(cue, s.primaries, before, s.name, s.schema, s.after, s.error);
      if s.error.None? {
        CommitResolves(cue, s.primaries, before, DeclarerOf(s.name, s.schema), s.schema, key);
      }
    }
  }

  /** The unified schema has the definitions of the base and of every source. */
  ghost predicate Unions(cue: Cue, base: set<string>) {
    forall a, d {:trigger cue.finds(a, d)} :: cue.finds(a, d) <==> d in base || exists s :: s in a && Declares(cue, s, d)
  }

  /** The base declares d, or the unit's own schema does, or one committed before. */
  ghost predicate Defined(cue: Cue, base: set<string>, st: State, source: string, d: string) {
    d in base || Declares(cue, source, d) || exists t :: t in st.sources && Declares(cue, t, d)
  }

  /** The gate's check that a schema defines the input definitions it names is a check of the whole
      unified schema: it passes exactly when each of them is declared by the unit's own schema, the
      base, or any schema committed before, and has its verb's primary. */
  lemma InputDefCheck(cue: Cue, base: set<string>, primaries: map<string, string>, st: State, name: string, s: Schema,
                      after: State, e: Option<Error>)
    requires Unions(cue, base) && Gate(cue, primaries, st, name, s, after, e)
    requires s.source in st.srcSeen ==> s.source in st.sources
    requires e.None? || e.value.BadInput?
    ensures e.None? <==> forall k :: k in s.inputDefs ==>
              && Defined(cue, base, st, s.source, s.inputDefs[k])
              && HasPrimary(cue, primaries, Merged(st, s.source), k, s.inputDefs[k])
  {
    var merged := Merged(st, s.source);
    forall d ensures cue.finds(merged, d) <==> Defined(cue, base, st, s.source, d) {
      if Declares(cue, s.source, d) {
        assert s.source in merged;
      }
      if t :| t in st.sources && Declares(cue, t, d) {
        assert t in merged;
      }
    }
    assert forall k :: k in s.inputDefs ==>
      (InputOk(cue, primaries, merged, k, s.inputDefs[k]) <==>
        Defined(cue, base, st, s.source, s.inputDefs[k]) && HasPrimary(cue, primaries, merged, k, s.inputDefs[k]));
  }

  lemma Admits(cue: Cue, st: State, name: string, s: Schema)
    requires !cue.blank(s.source) && cue.defs(s.source).Some? && cue.splices(Merged(st, s.source))
    requires forall d :: d in cue.defs(s.source).value ==> d !in st.defOwners
    requires forall k :: k in s.inputDefs ==> cue.finds(Merged(st, s.source), s.inputDefs[k])
    ensures Gate(cue, map[], st, name, s, Commit(cue, st, DeclarerOf(name, s), s), None)
  {
    FirstClashNone(st.defOwners, cue.defs(s.source).value, DeclarerOf(name, s).identity);
  }

  /** A compiler for which only source a declares anything: the definition x. */
  function OnlyDeclares(a: string, x: string): Cue {
    Cue(s => false, s => Some(if s == a then [x] else []), ss => true, (ss, d) => a in ss && d == x, (ss, d, f) => true)
  }

  lemma OnlyDeclaresUnions(a: string, x: string)
    ensures Unions(OnlyDeclares(a, x), {})
  {
    forall ss: seq<string>, d
      ensures OnlyDeclares(a, x).finds(ss, d) <==> d in {} || exists s :: s in ss && Declares(OnlyDeclares(a, x), s, d)
    {
      if a in ss && d == x {
        assert Declares(OnlyDeclares(a, x), a, d);
      }
    }
  }

  /** So a unit is accepted whose own schema does not define the input definition it names, when
      another plugin's schema happens to. */
  lemma BorrowedDefIsAccepted(a: string, b: string, x: string, p: string, q: string, key: string)
    requires a != b
    ensures var cue, lender, borrower := OnlyDeclares(a, x), Schema(a, map[]), Schema(b, map[key := x]);
            && Unions(cue, {}) && !Declares(cue, b, x)
            && exists st, st' :: Gate(cue, map[], FRESH, p, lender, st, None) &&
                Gate(cue, map[], st, q, borrower, st', None)
  {
    var cue, lender, borrower := OnlyDeclares(a, x), Schema(a, map[]), Schema(b, map[key := x]);
    OnlyDeclaresUnions(a, x);
    Admits(cue, FRESH, p, lender);
    var st := Commit(cue, FRESH, DeclarerOf(p, lender), lender);
    Admits(cue, st, q, borrower);
  }
}
