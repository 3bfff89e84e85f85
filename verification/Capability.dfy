/** The capability identity grammar `<class>:<word>[:<parent>]`, its parser and its one renderer. */
module Capability {
  import opened Options
  import opened Strings

  /** The closed provider-class vocabulary; Other stands for any name outside it. */
  datatype Class = Kind | Verb | DeployTarget | Step | Builder | Command | Build | Loader | Refs | Engine
                 | AgentRuntime | Terminal | Other(name: string)

  function Name(c: Class): string {
    match c
    case Kind => "kind"
    case Verb => "verb"
    case DeployTarget => "deploy"
    case Step => "step"
    case Builder => "builder"
    case Command => "command"
    case Build => "build"
    case Loader => "loader"
    case Refs => "refs"
    case Engine => "engine"
    case AgentRuntime => "agent-runtime"
    case Terminal => "terminal"
    case Other(name) => name
  }

  function ClassOf(name: string): Class {
    if name == "kind" then Kind
    else if name == "verb" then Verb
    else if name == "deploy" then DeployTarget
    else if name == "step" then Step
    else if name == "builder" then Builder
    else if name == "command" then Command
    else if name == "build" then Build
    else if name == "loader" then Loader
    else if name == "refs" then Refs
    else if name == "engine" then Engine
    else if name == "agent-runtime" then AgentRuntime
    else if name == "terminal" then Terminal
    else Other(name)
  }

  datatype Identity = Identity(cls: Class, word: string, parent: string)

  /** What the grammar admits: a known class, a word, and a parent for commands only. */
  predicate WellFormed(id: Identity) {
    && !id.cls.Other? && id.word != "" && ':' !in id.word && ':' !in id.parent
    && (id.parent != "" ==> id.cls.Command?)
  }

  /** Parses an authored capability string; None when it is off the grammar. */
  function SplitCapability(s: string): Option<Identity> {
    var parts := Split(s, ':');
    if |parts| < 2 || |parts| > 3 then None
    else
      var cls := ClassOf(parts[0]);
      if cls.Other? || parts[1] == "" then None
      else if |parts| == 3 then
        if !cls.Command? || parts[2] == "" then None else Some(Identity(cls, parts[1], parts[2]))
      else Some(Identity(cls, parts[1], ""))
  }

  /** Renders an identity: the one key grammar. */
  function ProviderKey(id: Identity): string {
    if id.parent != "" then Name(id.cls) + ":" + id.word + ":" + id.parent else Name(id.cls) + ":" + id.word
  }

  lemma NameOfClass(name: string)
    ensures Name(ClassOf(name)) == name
  {
  }

  lemma ClassOfName(c: Class)
    requires !c.Other?
    ensures ClassOf(Name(c)) == c
  {
    match c
    case Kind => assert ClassOf("kind") == Kind;
    case Verb => assert ClassOf("verb") == Verb;
    case DeployTarget => assert ClassOf("deploy") == DeployTarget;
    case Step => assert ClassOf("step") == Step;
    case Builder => assert ClassOf("builder") == Builder;
    case Command => assert ClassOf("command") == Command;
    case Build => assert ClassOf("build") == Build;
    case Loader => assert ClassOf("loader") == Loader;
    case Refs => assert ClassOf("refs") == Refs;
    case Engine => assert ClassOf("engine") == Engine;
    case AgentRuntime => assert ClassOf("agent-runtime") == AgentRuntime;
    case Terminal => assert ClassOf("terminal") == Terminal;
  }

  lemma NamesHaveNoColon(c: Class)
    requires !c.Other?
    ensures ':' !in Name(c)
  {
    match c
    case Kind => assert ':' !in "kind";
    case Verb => assert ':' !in "verb";
    case DeployTarget => assert ':' !in "deploy";
    case Step => assert ':' !in "step";
    case Builder => assert ':' !in "builder";
    case Command => assert ':' !in "command";
    case Build => assert ':' !in "build";
    case Loader => assert ':' !in "loader";
    case Refs => assert ':' !in "refs";
    case Engine => assert ':' !in "engine";
    case AgentRuntime => assert ':' !in "agent-runtime";
    case Terminal => assert ':' !in "terminal";
  }

  function Segments(id: Identity): seq<string> {
    if id.parent != "" then [Name(id.cls), id.word, id.parent] else [Name(id.cls), id.word]
  }

  lemma Join3(a: string, b: string, c: string)
    ensures Join([a, b], ':') == a + ":" + b
    ensures Join([a, b, c], ':') == a + ":" + b + ":" + c
  {
    assert [a, b][1..] == [b] && [b, c][1..] == [c] && [a, b, c][1..] == [b, c];
    assert Join([b, c], ':') == b + ":" + c;
    assert Join([a, b, c], ':') == a + ":" + Join([b, c], ':');
    assert a + ":" + (b + ":" + c) == a + ":" + b + ":" + c;
  }

  lemma KeyIsJoin(id: Identity)
    ensures ProviderKey(id) == Join(Segments(id), ':')
  {
    Join3(Name(id.cls), id.word, id.parent);
  }

  /** An accepted string is the rendering of its parse, and its parse is well formed. */
  lemma RenderOfParse(s: string)
    requires SplitCapability(s).Some?
    ensures ProviderKey(SplitCapability(s).value) == s && WellFormed(SplitCapability(s).value)
  {
    var parts, id := Split(s, ':'), SplitCapability(s).value;
    NameOfClass(parts[0]);
    JoinOfSplit(s, ':');
    KeyIsJoin(id);
    assert parts == Segments(id);
  }

  /** A well-formed identity is the parse of its rendering. */
  lemma ParseOfRender(id: Identity)
    requires WellFormed(id)
    ensures SplitCapability(ProviderKey(id)) == Some(id)
  {
    ClassOfName(id.cls);
    NamesHaveNoColon(id.cls);
    KeyIsJoin(id);
    SplitOfJoin(Segments(id), ':');
  }

  /** So no two well-formed identities share a key. */
  lemma KeyIsInjective(a: Identity, b: Identity)
    requires WellFormed(a) && WellFormed(b) && ProviderKey(a) == ProviderKey(b)
    ensures a == b
  {
    ParseOfRender(a);
    ParseOfRender(b);
  }

  /** The part of a key after its class. */
  datatype Key = Key(cls: Class, rest: string)

  function KeyOf(id: Identity): Key {
    Key(id.cls, if id.parent != "" then id.word + ":" + id.parent else id.word)
  }

  /** The string a key stands for, by which keys are sorted. */
  function Rendered(k: Key): string { Name(k.cls) + ":" + k.rest }

  lemma RenderedIsProviderKey(id: Identity)
    ensures Rendered(KeyOf(id)) == ProviderKey(id)
  {
    if id.parent != "" {
      assert Name(id.cls) + ":" + (id.word + ":" + id.parent) == Name(id.cls) + ":" + id.word + ":" + id.parent;
    }
  }

  lemma PrefixNotLonger(a: string, x: string, b: string, y: string)
    requires ':' !in b && a + ":" + x == b + ":" + y
    ensures |b| <= |a|
  {
    assert (a + ":" + x)[|a|] == ':';
    if |a| < |b| {
      assert false;
    }
  }

  lemma CommonPrefix(a: string, x: string, b: string, y: string)
    requires ':' !in a && ':' !in b && a + ":" + x == b + ":" + y
    ensures a == b && x == y
  {
    PrefixNotLonger(a, x, b, y);
    PrefixNotLonger(b, y, a, x);
    assert (a + ":" + x)[..|a|] == a && (b + ":" + y)[..|b|] == b;
    assert (a + ":" + x)[|a| + 1..] == x && (b + ":" + y)[|b| + 1..] == y;
  }

  /** For known classes, whatever the words hold, rendered keys agree exactly when these do; so a
      table keyed by rendered strings and one keyed by Key are the same table. */
  lemma KeyDecides(a: Identity, b: Identity)
    requires !a.cls.Other? && !b.cls.Other?
    ensures ProviderKey(a) == ProviderKey(b) <==> KeyOf(a) == KeyOf(b)
  {
    NamesHaveNoColon(a.cls);
    NamesHaveNoColon(b.cls);
    ClassOfName(a.cls);
    ClassOfName(b.cls);
    RenderedIsProviderKey(a);
    RenderedIsProviderKey(b);
    if ProviderKey(a) == ProviderKey(b) {
      CommonPrefix(Name(a.cls), KeyOf(a).rest, Name(b.cls), KeyOf(b).rest);
    }
  }
}
