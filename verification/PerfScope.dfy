/**
 Which plugins a deploy loads: collecting every referenced word, resolving the deploy's node, and the
 load that the words scope.
 */
module PerfScope {
  import opened Capability
  import opened Loader
  import opened Options
  import opened Project
  import opened Registry
  import opened Sets
  import opened Strings

  /** A plan step: its explicit plugin word, and its verb when the step has exactly one. */
  datatype Op = Op(plugin: string, kind: Option<string>)

  /** What a candy refers to: an external builder and the steps of its plan. */
  datatype Sites = Sites(builder: string, plan: seq<Op>)

  datatype Instrument = Instrument(plugin: string, pipeline: seq<string>)

  datatype Node = Node(target: string, plan: seq<Op>, instruments: seq<Instrument>, addCandy: seq<string>,
                       members: seq<Member>)

  datatype Member = Member(name: string, inSubstrate: bool, node: Option<Node>)

  // ---------------------------------------------------------------- what is referenced

  predicate OpUses(op: Op, word: string) { word != "" && (op.plugin == word || op.kind == Some(word)) }

  predicate PlanUses(plan: seq<Op>, word: string) { exists i :: 0 <= i < |plan| && OpUses(plan[i], word) }

  predicate InstrumentUses(t: Instrument, word: string) { word != "" && (t.plugin == word || word in t.pipeline) }

  /** A node refers to a word by its target, its plan, or an instrument. */
  predicate NodeUses(n: Node, word: string) {
    || (word != "" && n.target == word)
    || PlanUses(n.plan, word)
    || exists i :: 0 <= i < |n.instruments| && InstrumentUses(n.instruments[i], word)
  }

  /** m is n, or lies below it through members inside the substrate. */
  ghost predicate Within(n: Node, m: Node)
    decreases n
  {
    n == m || exists i :: 0 <= i < |n.members| && BelowMember(n.members[i], m)
  }

  ghost predicate BelowMember(c: Member, m: Node)
    decreases c
  {
    c.inSubstrate && c.node.Some? && Within(c.node.value, m)
  }

  /** Some node of the subtree uses the word. */
  ghost predicate SubtreeUses(n: Node, word: string) { exists m :: Within(n, m) && NodeUses(m, word) }

  ghost predicate SubtreeAdds(n: Node, candy: string) { exists m :: Within(n, m) && candy in m.addCandy }

  // ------------------------------------------------------------------------- the walk

  /** The verbs an instrument dispatches. */
  method InstrumentVerbs(t: Instrument) returns (out: seq<string>)
    ensures forall w :: w in out <==> InstrumentUses(t, w)
  {
    out := [];
    if t.plugin != "" {
      out := out + [t.plugin];
    }
    for i := 0 to |t.pipeline|
      invariant forall w :: w in out <==> w != "" && (t.plugin == w || w in t.pipeline[..i])
    {
      assert t.pipeline[..i + 1] == t.pipeline[..i] + [t.pipeline[i]];
      if t.pipeline[i] != "" {
        out := out + [t.pipeline[i]];
      }
    }
    assert t.pipeline[..|t.pipeline|] == t.pipeline;
  }

  method PlanWords(plan: seq<Op>) returns (out: seq<string>)
    ensures forall w :: w in out <==> PlanUses(plan, w)
  {
    out := [];
    for i := 0 to |plan|
      invariant forall w :: w in out <==> exists j :: 0 <= j < i && OpUses(plan[j], w)
    {
      ghost var before := out;
      var op := plan[i];
      if op.plugin != "" {
        out := out + [op.plugin];
      }
      if op.kind.Some? && op.kind.value != "" {
        out := out + [op.kind.value];
      }
      assert forall w :: w in out <==> w in before || OpUses(plan[i], w);
    }
  }

  method NodeWords(n: Node) returns (out: seq<string>)
    ensures forall w :: w in out <==> NodeUses(n, w)
  {
    out := if n.target != "" then [n.target] else [];
    var plan := PlanWords(n.plan);
    out := out + plan;
    for i := 0 to |n.instruments|
      invariant forall w :: w in out <==>
          || (w != "" && n.target == w) || PlanUses(n.plan, w)
          || exists j :: 0 <= j < i && InstrumentUses(n.instruments[j], w)
    {
      ghost var before := out;
      var verbs := InstrumentVerbs(n.instruments[i]);
      out := out + verbs;
      assert forall w :: w in out <==> w in before || InstrumentUses(n.instruments[i], w);
    }
  }

  /** The words and the extra candies of the whole subtree of a deploy's node, and nothing else. */
  method Visit(n: Node) returns (addCandy: seq<string>, refWords: seq<string>)
    ensures forall w :: w in refWords <==> SubtreeUses(n, w)
    ensures forall c :: c in addCandy <==> SubtreeAdds(n, c)
    decreases n
  {
    addCandy := n.addCandy;
    refWords := NodeWords(n);
    assert Within(n, n);
    for i := 0 to |n.members|
      invariant forall w :: w in refWords <==> NodeUses(n, w) || exists j :: 0 <= j < i && MemberUses(n.members[j], w)
      invariant forall c :: c in addCandy <==> c in n.addCandy || exists j :: 0 <= j < i && MemberAdds(n.members[j], c)
    {
      ghost var words, candies := refWords, addCandy;
      var c := n.members[i];
      if c.inSubstrate && c.node.Some? {
        var below, more := Visit(c.node.value);
        addCandy, refWords := addCandy + below, refWords + more;
      }
      assert forall w :: w in refWords <==> w in words || MemberUses(n.members[i], w);
      assert forall d :: d in addCandy <==> d in candies || MemberAdds(n.members[i], d);
    }
    forall w ensures w in refWords <==> SubtreeUses(n, w) { UsesBelow(n, w); }
    forall c ensures c in addCandy <==> SubtreeAdds(n, c) { AddsBelow(n, c); }
  }

  ghost predicate MemberUses(c: Member, word: string) { c.inSubstrate && c.node.Some? && SubtreeUses(c.node.value, word) }

  ghost predicate MemberAdds(c: Member, candy: string) { c.inSubstrate && c.node.Some? && SubtreeAdds(c.node.value, candy) }

  lemma UsesBelow(n: Node, word: string)
    ensures SubtreeUses(n, word) <==>
        NodeUses(n, word) || exists i :: 0 <= i < |n.members| && MemberUses(n.members[i], word)
  {
    if m :| Within(n, m) && NodeUses(m, word) && m != n {
      var i :| 0 <= i < |n.members| && BelowMember(n.members[i], m);
      assert MemberUses(n.members[i], word);
    }
    if NodeUses(n, word) {
      assert Within(n, n);
    }
    if i :| 0 <= i < |n.members| && MemberUses(n.members[i], word) {
      var m :| Within(n.members[i].node.value, m) && NodeUses(m, word);
      assert BelowMember(n.members[i], m);
      assert Within(n, m);
    }
  }

  lemma AddsBelow(n: Node, candy: string)
    ensures SubtreeAdds(n, candy) <==>
        candy in n.addCandy || exists i :: 0 <= i < |n.members| && MemberAdds(n.members[i], candy)
  {
    if m :| Within(n, m) && candy in m.addCandy && m != n {
      var i :| 0 <= i < |n.members| && BelowMember(n.members[i], m);
      assert MemberAdds(n.members[i], candy);
    }
    if candy in n.addCandy {
      assert Within(n, n);
    }
    if i :| 0 <= i < |n.members| && MemberAdds(n.members[i], candy) {
      var m :| Within(n.members[i].node.value, m) && candy in m.addCandy;
      assert BelowMember(n.members[i], m);
      assert Within(n, m);
    }
  }

  // --------------------------------------------------------------- resolving a name

  /** The first member of a name. */
  function MemberByName(members: seq<Member>, name: string): Option<Member> {
    if |members| == 0 then None
    else if members[0].name == name then Some(members[0])
    else MemberByName(members[1..], name)
  }

  /** The node at the end of a path of member names. */
  function Descend(n: Node, path: seq<string>): Option<Node>
    decreases |path|
  {
    if |path| == 0 then Some(n)
    else
      match MemberByName(n.members, path[0])
      case Some(Member(_, _, Some(child))) => Descend(child, path[1..])
      case _ => None
  }

  /** The node a deploy name stands for, its address prefix already stripped: a key of the tree as it
      is, else a path from a key. */
  function Resolved(tree: map<string, Node>, name: string): Option<Node> {
    if name in tree then Some(tree[name])
    else
      var parts := Split(name, '.');
      if parts[0] in tree then Descend(tree[parts[0]], parts[1..]) else None
  }

  method ResolveDeployNodeByPath(tree: map<string, Node>, name: string) returns (node: Option<Node>)
    ensures node == Resolved(tree, name)
  {
    if name in tree {
      return Some(tree[name]);
    }
    var parts := Split(name, '.');
    if parts[0] !in tree {
      return None;
    }
    var root := tree[parts[0]];
    var cur := root;
    for i := 1 to |parts|
      invariant Descend(root, parts[1..]) == Descend(cur, parts[i..])
    {
      assert parts[i..][1..] == parts[i + 1..];
      var m := MemberByName(cur.members, parts[i]);
      if m.None? || m.value.node.None? {
        return None;
      }
      cur := m.value.node.value;
    }
    node := Some(cur);
  }

  /** Node d is that of the first member of n named so. */
  ghost predicate IsMember(n: Node, name: string, d: Node) {
    exists j :: 0 <= j < |n.members| && n.members[j].name == name && n.members[j].node == Some(d)
                && forall k :: 0 <= k < j ==> n.members[k].name != name
  }

  /** From n to d by one named member after another. */
  ghost predicate Chain(chain: seq<Node>, n: Node, path: seq<string>, d: Node) {
    && |chain| == |path| + 1 && chain[0] == n && chain[|path|] == d
    && forall i :: 0 <= i < |path| ==> IsMember(chain[i], path[i], chain[i + 1])
  }

  lemma {:induction false} FirstMember(members: seq<Member>, name: string)
    ensures match MemberByName(members, name)
            case None => forall j :: 0 <= j < |members| ==> members[j].name != name
            case Some(m) => exists j :: 0 <= j < |members| && members[j] == m && m.name == name
                                        && forall k :: 0 <= k < j ==> members[k].name != name
  {
    if |members| > 0 && members[0].name != name {
      FirstMember(members[1..], name);
      if MemberByName(members, name).Some? {
        var j :| 0 <= j < |members[1..]| && members[1..][j] == MemberByName(members, name).value
                 && forall k :: 0 <= k < j ==> members[1..][k].name != name;
        assert members[j + 1] == MemberByName(members, name).value;
        forall k | 0 <= k < j + 1 ensures members[k].name != name {
          if k > 0 {
            assert members[1..][k - 1].name != name;
          }
        }
      } else {
        forall j | 0 <= j < |members| ensures members[j].name != name {
          if j > 0 {
            assert members[1..][j - 1].name != name;
          }
        }
      }
    }
  }

  lemma MemberIsFirst(n: Node, name: string, d: Node)
    ensures IsMember(n, name, d) <==> exists m :: MemberByName(n.members, name) == Some(m) && m.node == Some(d)
  {
    FirstMember(n.members, name);
    if IsMember(n, name, d) {
      var j :| 0 <= j < |n.members| && n.members[j].name == name && n.members[j].node == Some(d)
               && forall k :: 0 <= k < j ==> n.members[k].name != name;
      assert MemberByName(n.members, name).Some?;
    }
  }

  /** A path reaches exactly the end of the chain of members it names, and nothing if there is none. */
  lemma {:induction false} DescendIsChain(n: Node, path: seq<string>, d: Node)
    ensures Descend(n, path) == Some(d) <==> exists chain :: Chain(chain, n, path, d)
    decreases |path|
  {
    if |path| == 0 {
      assert Chain([n], n, path, n);
    } else {
      if Descend(n, path) == Some(d) {
        var child := MemberByName(n.members, path[0]).value.node.value;
        MemberIsFirst(n, path[0], child);
        DescendIsChain(child, path[1..], d);
        var rest :| Chain(rest, child, path[1..], d);
        ChainCons(rest, n, path, d);
      }
      if chain :| Chain(chain, n, path, d) {
        assert IsMember(chain[0], path[0], chain[1]);
        MemberIsFirst(n, path[0], chain[1]);
        ChainTail(chain, n, path, d);
        DescendIsChain(chain[1], path[1..], d);
      }
    }
  }

  lemma ChainCons(rest: seq<Node>, n: Node, path: seq<string>, d: Node)
    requires |path| > 0 && |rest| > 0 && Chain(rest, rest[0], path[1..], d) && IsMember(n, path[0], rest[0])
    ensures Chain([n] + rest, n, path, d)
  {
    var chain := [n] + rest;
    forall i | 0 <= i < |path| ensures IsMember(chain[i], path[i], chain[i + 1]) {
      if i > 0 {
        assert IsMember(rest[i - 1], path[1..][i - 1], rest[i]);
      }
    }
  }

  lemma ChainTail(chain: seq<Node>, n: Node, path: seq<string>, d: Node)
    requires |path| > 0 && Chain(chain, n, path, d)
    ensures Chain(chain[1..], chain[1], path[1..], d)
  {
    forall i | 0 <= i < |path| - 1 ensures IsMember(chain[1..][i], path[1..][i], chain[1..][i + 1]) {
      assert IsMember(chain[i + 1], path[i + 1], chain[i + 2]);
    }
  }

  /** What a name stands for: a key as it is; else, where its dotted segments begin with a key, the member
      they spell. */
  ghost predicate Names(tree: map<string, Node>, name: string, d: Node) {
    if name in tree then d == tree[name]
    else exists root, path, chain :: IsSpelling(root, path, name) && root in tree && Chain(chain, tree[root], path, d)
  }

  /** The name is these dot-free segments with dots between. */
  predicate IsSpelling(root: string, path: seq<string>, name: string) {
    name == Join([root] + path, '.') && '.' !in root && forall i :: 0 <= i < |path| ==> '.' !in path[i]
  }

  /** A NAME RESOLVES to exactly the node it stands for, and to nothing otherwise. */
  lemma ResolvedExactly(tree: map<string, Node>, name: string, d: Node)
    ensures Resolved(tree, name) == Some(d) <==> Names(tree, name, d)
  {
    if name !in tree {
      var parts := Split(name, '.');
      JoinOfSplit(name, '.');
      if Resolved(tree, name) == Some(d) {
        DescendIsChain(tree[parts[0]], parts[1..], d);
        var chain :| Chain(chain, tree[parts[0]], parts[1..], d);
        assert [parts[0]] + parts[1..] == parts;
        assert IsSpelling(parts[0], parts[1..], name);
      }
      if root, path, chain :| IsSpelling(root, path, name) && root in tree && Chain(chain, tree[root], path, d) {
        DottedNameResolves(tree, root, path);
        DescendIsChain(tree[root], path, d);
      }
    }
  }

  /** A dotted name reaches exactly the member its segments spell, unless the whole name is itself a
      key, as a namespace-qualified name is: then it reaches that. */
  lemma DottedNameResolves(tree: map<string, Node>, root: string, path: seq<string>)
    requires root in tree && '.' !in root && forall i :: 0 <= i < |path| ==> '.' !in path[i]
    ensures var name := Join([root] + path, '.');
            Resolved(tree, name) == if name in tree then Some(tree[name]) else Descend(tree[root], path)
  {
    var parts := [root] + path;
    SplitOfJoin(parts, '.');
    assert parts[1..] == path;
  }

  // ---------------------------------------------------------------------- collecting

  /** A word is referenced by a caller, a candy, or a box whose body can be decoded. */
  ghost predicate Referenced(candies: map<string, Sites>, boxes: map<string, Option<seq<Op>>>, extra: seq<string>,
                             word: string) {
    || (word != "" && word in extra)
    || (exists n :: n in candies && SitesUse(candies[n], word))
    || (exists b :: b in boxes && BoxUses(boxes[b], word))
  }

  predicate SitesUse(s: Sites, word: string) { (word != "" && s.builder == word) || PlanUses(s.plan, word) }

  predicate BoxUses(box: Option<seq<Op>>, word: string) { box.Some? && PlanUses(box.value, word) }

  method AddWords(refs: set<string>, words: seq<string>) returns (out: set<string>)
    ensures forall w :: w in out <==> w in refs || (w != "" && w in words)
  {
    out := refs;
    for i := 0 to |words|
      invariant forall w :: w in out <==> w in refs || (w != "" && w in words[..i])
    {
      assert words[..i + 1] == words[..i] + [words[i]];
      if words[i] != "" {
        out := out + {words[i]};
      }
    }
    assert words[..|words|] == words;
  }

  /** Exactly the words the work at hand refers to: nothing is missed, and nothing made up. */
  method CollectReferencedPluginWords(candies: map<string, Sites>, boxes: map<string, Option<seq<Op>>>, extra: seq<string>)
    returns (refs: set<string>)
    ensures forall w :: w in refs <==> Referenced(candies, boxes, extra, w)
  {
    refs := AddWords({}, extra);
    var todo := candies.Keys;
    while todo != {}
      invariant todo <= candies.Keys
      invariant forall w :: w in refs <==>
          (w != "" && w in extra) || exists n :: n in candies && n !in todo && SitesUse(candies[n], w)
      decreases todo
    {
      ghost var before := refs;
      var n := Pick(todo);
      todo := todo - {n};
      var plan := PlanWords(candies[n].plan);
      refs := AddWords(refs, [candies[n].builder] + plan);
      assert forall w :: w in refs <==> w in before || SitesUse(candies[n], w);
    }
    var rest := boxes.Keys;
    while rest != {}
      invariant rest <= boxes.Keys
      invariant forall w :: w in refs <==>
          || (w != "" && w in extra)
          || (exists n :: n in candies && SitesUse(candies[n], w))
          || (exists b :: b in boxes && b !in rest && BoxUses(boxes[b], w))
      decreases rest
    {
      ghost var before := refs;
      var b := Pick(rest);
      rest := rest - {b};
      if boxes[b].Some? {
        var plan := PlanWords(boxes[b].value);
        refs := AddWords(refs, plan);
      }
      assert forall w :: w in refs <==> w in before || BoxUses(boxes[b], w);
    }
  }

  /** The node's extra candies and words; none when the tree cannot be loaded or the name is unknown. */
  method DeployNodePluginContext(tree: Option<map<string, Node>>, name: string)
    returns (addCandy: seq<string>, refWords: seq<string>)
    ensures forall w :: w in refWords <==> ContextUses(tree, name, w)
    ensures forall c :: c in addCandy <==>
        tree.Some? && Resolved(tree.value, name).Some? && SubtreeAdds(Resolved(tree.value, name).value, c)
  {
    addCandy, refWords := [], [];
    if tree.Some? {
      var node := ResolveDeployNodeByPath(tree.value, name);
      if node.Some? {
        addCandy, refWords := Visit(node.value);
      }
    }
  }

  ghost predicate ContextUses(tree: Option<map<string, Node>>, name: string, word: string) {
    tree.Some? && Resolved(tree.value, name).Some? && SubtreeUses(Resolved(tree.value, name).value, word)
  }

  // ----------------------------------------------------------------- the deploy's load

  /** What the project's files hold: the deploy tree, the boxes, and what a scan with extra candies
      finds of each candy. */
  datatype Files = Files(tree: Option<map<string, Node>>, boxes: map<string, Option<seq<Op>>>,
                         scan: seq<string> -> Option<map<string, Sites>>)

  /** The work at hand refers to the word: a scanned candy, a box, or a node of the deploy's subtree. */
  ghost predicate DeployUses(f: Files, candies: map<string, Sites>, name: string, word: string) {
    || ContextUses(f.tree, name, word)
    || (exists n :: n in candies && SitesUse(candies[n], word))
    || (exists b :: b in f.boxes && BoxUses(f.boxes[b], word))
  }

  /** Some step names the word, as its plugin or as its verb. */
  predicate StepNames(plan: seq<Op>, word: string) {
    exists i :: 0 <= i < |plan| && word in [plan[i].plugin] + (if plan[i].kind.Some? then [plan[i].kind.value] else [])
  }

  /** A node names the word as its target, in a step, or as a capture or pipeline verb. */
  predicate NodeNames(m: Node, word: string) {
    || m.target == word || StepNames(m.plan, word)
    || exists i :: 0 <= i < |m.instruments| && word in [m.instruments[i].plugin] + m.instruments[i].pipeline
  }

  /** d is the node of a member of n inside its substrate. */
  ghost predicate InsideMember(n: Node, d: Node) {
    exists j :: 0 <= j < |n.members| && n.members[j].inSubstrate && n.members[j].node == Some(d)
  }

  /** From n down to m, each inside the substrate of the one before. */
  ghost predicate Lineage(chain: seq<Node>, n: Node, m: Node) {
    && |chain| > 0 && chain[0] == n && chain[|chain| - 1] == m
    && forall i :: 0 <= i < |chain| - 1 ==> InsideMember(chain[i], chain[i + 1])
  }

  lemma {:induction false} WithinIsLineage(n: Node, m: Node)
    ensures Within(n, m) ==> exists chain :: Lineage(chain, n, m)
    decreases n
  {
    if n == m {
      assert Lineage([n], n, m);
    } else if Within(n, m) {
      var i :| 0 <= i < |n.members| && BelowMember(n.members[i], m);
      var d := n.members[i].node.value;
      WithinIsLineage(d, m);
      var rest :| Lineage(rest, d, m);
      var chain := [n] + rest;
      assert InsideMember(n, d);
      assert forall j :: 0 < j < |chain| - 1 ==> InsideMember(rest[j - 1], rest[j]);
      assert Lineage(chain, n, m);
    }
  }

  lemma {:induction false} LineageIsWithin(chain: seq<Node>, n: Node, m: Node)
    requires Lineage(chain, n, m)
    ensures Within(n, m)
    decreases |chain|
  {
    if |chain| > 1 {
      assert InsideMember(chain[0], chain[1]);
      var j :| 0 <= j < |n.members| && n.members[j].inSubstrate && n.members[j].node == Some(chain[1]);
      forall i | 0 <= i < |chain[1..]| - 1 ensures InsideMember(chain[1..][i], chain[1..][i + 1]) {
        assert InsideMember(chain[i + 1], chain[i + 2]);
      }
      LineageIsWithin(chain[1..], chain[1], m);
      assert BelowMember(n.members[j], m);
    }
  }

  /** A node of the deploy's subtree names the word. */
  ghost predicate SubtreeNames(tree: map<string, Node>, name: string, word: string) {
    exists d, chain, m :: Names(tree, name, d) && Lineage(chain, d, m) && NodeNames(m, word)
  }

  /** EVERY SITE COUNTS, and nothing else: the nodes of the deploy's subtree; a candy, by its builder or a
      step; a box that can be decoded, by a step. */
  lemma DeployUsesExactly(f: Files, candies: map<string, Sites>, name: string, word: string)
    requires word != ""
    ensures DeployUses(f, candies, name, word) <==>
              || (f.tree.Some? && SubtreeNames(f.tree.value, name, word))
              || (exists n :: n in candies && (candies[n].builder == word || StepNames(candies[n].plan, word)))
              || (exists b :: b in f.boxes && f.boxes[b].Some? && StepNames(f.boxes[b].value, word))
  {
    forall plan: seq<Op> ensures PlanUses(plan, word) <==> StepNames(plan, word) {
      PlanUsesExactly(plan, word);
    }
    if f.tree.Some? {
      ContextUsesExactly(f.tree.value, name, word);
    }
  }

  lemma ContextUsesExactly(tree: map<string, Node>, name: string, word: string)
    requires word != ""
    ensures ContextUses(Some(tree), name, word) <==> SubtreeNames(tree, name, word)
  {
    forall m: Node ensures NodeUses(m, word) <==> NodeNames(m, word) {
      NodeUsesExactly(m, word);
    }
    if ContextUses(Some(tree), name, word) {
      var d := Resolved(tree, name).value;
      var m :| Within(d, m) && NodeUses(m, word);
      ResolvedExactly(tree, name, d);
      WithinIsLineage(d, m);
      var chain :| Lineage(chain, d, m);
      assert Names(tree, name, d) && Lineage(chain, d, m) && NodeNames(m, word);
    }
    if d, chain, m :| Names(tree, name, d) && Lineage(chain, d, m) && NodeNames(m, word) {
      ResolvedExactly(tree, name, d);
      LineageIsWithin(chain, d, m);
      assert Within(d, m) && NodeUses(m, word);
    }
  }

  /** No site refers to the empty word. */
  lemma NothingUsesTheEmptyWord(f: Files, candies: map<string, Sites>, name: string)
    ensures !DeployUses(f, candies, name, "")
  {
  }

  lemma PlanUsesExactly(plan: seq<Op>, word: string)
    requires word != ""
    ensures PlanUses(plan, word) <==> StepNames(plan, word)
  {
    forall i | 0 <= i < |plan|
      ensures OpUses(plan[i], word) <==> word in [plan[i].plugin] + (if plan[i].kind.Some? then [plan[i].kind.value] else [])
    {
    }
  }

  lemma NodeUsesExactly(m: Node, word: string)
    requires word != ""
    ensures NodeUses(m, word) <==> NodeNames(m, word)
  {
    PlanUsesExactly(m.plan, word);
    forall i | 0 <= i < |m.instruments|
      ensures InstrumentUses(m.instruments[i], word) <==> word in [m.instruments[i].plugin] + m.instruments[i].pipeline
    {
    }
  }

  /** NEVER UNDER-LOADED: when a deploy's plugins load without an error, every declared identity of
      every scanned candy that provides a word the deploy refers to is registered.  What it takes is asked
      candy by candy, of the candy's own source alone (Coverable). */
  method LoadDeployPlugins(w: World, start: Reg, f: Files, configOk: bool, name: string, extraAddCandy: seq<string>,
                           depth: nat,
                           ghost own: map<string, set<Key>>, ghost universe: set<Key>, ghost rank: map<string, nat>,
                           ghost loose: set<string>)
      returns (ok: bool, reg: Reg, candies: map<string, Sites>)
    requires Inv(start)
    ensures Inv(reg) && Extends(start, reg)
    ensures !configOk ==> !ok && reg == start
    ensures (&& configOk && (forall extra :: f.scan(extra).Some?)
             && LoadMode(w, start, depth, own, universe, rank, loose).serving) ==> ok
    ensures ok ==>
              forall n, i :: n in candies && Coverable(w, start, n)
                             && 0 <= i < |w.candies[n].caps| && w.candies[n].caps[i].Some?
                             && DeployUses(f, candies, name, w.candies[n].caps[i].value.word) ==>
                DeclaredBy(w.candies[n]) <= reg.byKey.Keys
  {
    reg, candies := start, map[];
    if !configOk {
      return false, reg, candies;
    }
    var addCandy, refWords := DeployNodePluginContext(f.tree, name);
    var scanned := f.scan(extraAddCandy + addCandy);
    if scanned.None? {
      return false, reg, candies;
    }
    candies := scanned.value;
    var refs := CollectReferencedPluginWords(candies, f.boxes, refWords);
    var r, inFlight;
    ghost var log;
    r, reg, inFlight, log := LoadPlugins(w, start, candies.Keys, refs, depth, own, universe, rank, loose);
    ok := r.Ok?;
  }
}
