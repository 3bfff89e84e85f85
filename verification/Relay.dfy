/** The nested target relay: a chain of Charly processes, each consuming its own boundary of a route. */
module Relay {
  import opened Options

  /** Domain stands for every hop the relay leaves to the selected provider, such as a terminal. */
  datatype Transport = Exec | Ssh | Grpc | Domain(name: string)

  datatype Hop = Hop(transport: Transport, address: string)

  datatype Target = Target(hops: seq<Hop>, deployment: string, instance: string, workingDir: string)

  /** What the process at one place in the chain can do; any of it may fail. */
  datatype Node = Node(accepts: bool, venue: bool, binary: bool, boots: bool, launches: bool,
                       dials: bool, opens: bool, serves: bool)

  /** A boundary crossed: a process launched in a deployment, or the leading pair of a route dialled. */
  datatype Boundary = Placed(deployment: string, instance: string, workingDir: string) | Dialled(route: Target)

  datatype End = Served(target: Option<Target>) | Failed

  predicate StartsWithPair(hops: seq<Hop>) {
    |hops| >= 2 && (hops[0].transport.Exec? || hops[0].transport.Ssh?) && hops[1].transport.Grpc?
  }

  /** The route to dial one process and gRPC boundary, and the route left for the process behind it. */
  function SplitTargetProcessPair(t: Target): Option<(Target, Target)> {
    if StartsWithPair(t.hops) then Some((t, t.(hops := t.hops[2..]))) else None
  }

  // ------------------------------------------------------------- the whole route

  /** The number of leading pairs. */
  function Pairs(hops: seq<Hop>): (n: nat)
    ensures 2 * n <= |hops|
  {
    if StartsWithPair(hops) then 1 + Pairs(hops[2..]) else 0
  }

  /** Hops 2 * i and 2 * i + 1 are a process to start or to log in to, and its gRPC boundary. */
  predicate PairAt(hops: seq<Hop>, i: nat) {
    2 * i + 1 < |hops| && (hops[2 * i].transport == Exec || hops[2 * i].transport == Ssh) && hops[2 * i + 1].transport == Grpc
  }

  ghost predicate LeadingPairs(hops: seq<Hop>, n: nat) {
    2 * n <= |hops| && (forall i :: 0 <= i < n ==> PairAt(hops, i)) && !PairAt(hops, n)
  }

  /** Pairs counts the maximal run of leading pairs, and nothing else does. */
  lemma {:induction false} PairsAreMaximal(hops: seq<Hop>, n: nat)
    ensures LeadingPairs(hops, n) <==> n == Pairs(hops)
  {
    assert StartsWithPair(hops) <==> PairAt(hops, 0);
    if StartsWithPair(hops) && n > 0 {
      var rest := hops[2..];
      assert forall i: nat :: PairAt(rest, i) <==> PairAt(hops, i + 1);
      PairsAreMaximal(rest, n - 1);
      if LeadingPairs(rest, n - 1) {
        forall i | 0 <= i < n ensures PairAt(hops, i) {
          assert i > 0 ==> PairAt(rest, i - 1);
        }
      }
    }
  }

  /** Behind i pairs the route starts with one exactly if there is one at i. */
  lemma PairBehind(hops: seq<Hop>, i: nat)
    requires 2 * i <= |hops|
    ensures StartsWithPair(hops[2 * i..]) <==> PairAt(hops, i)
  {
  }

  function Total(t: Target): nat { Pairs(t.hops) + if t.deployment != "" then 1 else 0 }

  /** The target as the i-th process of the chain receives it: a deployment is cleared by the first
      process, and every other one takes the two hops of its pair off the route. */
  function Received(t: Target, i: nat): Target
    requires i <= Total(t)
  {
    if i == 0 then t
    else if t.deployment != "" then t.(hops := t.hops[2 * (i - 1)..], deployment := "", instance := "")
    else t.(hops := t.hops[2 * i..])
  }

  /** The i-th boundary: a placement carries the selector, a dial sees its whole remaining route. */
  function Crossing(t: Target, i: nat): Boundary
    requires i < Total(t)
  {
    if i == 0 && t.deployment != "" then Placed(t.deployment, t.instance, t.workingDir) else Dialled(Received(t, i))
  }

  /** A process that receives t does its part. */
  predicate Passes(p: Node, t: Target) {
    && p.accepts
    && if t.deployment != "" then p.venue && p.binary && p.boots && p.launches && p.dials && p.opens
       else if StartsWithPair(t.hops) then
         p.binary && (t.hops[0].transport.Ssh? ==> p.boots) && p.dials && p.opens
       else p.serves
  }

  ghost predicate AllPass(nodes: nat -> Node, at: nat, t: Target) {
    forall i :: 0 <= i <= Total(t) ==> Passes(nodes(at + i), Received(t, i))
  }

  /** The target behind the first boundary. */
  function Next(t: Target): Target
    requires Total(t) > 0
  {
    Received(t, 1)
  }

  function Measure(t: Target): nat { |t.hops| + if t.deployment != "" then 1 else 0 }

  /** Each boundary leaves a smaller route, and the rest of the journey is the journey of the rest. */
  lemma RestOfJourney(t: Target, i: nat)
    requires Total(t) > 0 && i < Total(t)
    ensures Measure(Next(t)) < Measure(t) && Total(Next(t)) == Total(t) - 1 && Next(t).deployment == ""
    ensures Received(Next(t), i) == Received(t, i + 1)
    ensures i + 1 < Total(t) ==> Crossing(Next(t), i) == Crossing(t, i + 1)
  {
    if t.deployment != "" {
      assert t.hops[0..] == t.hops;
    } else {
      assert t.hops[2..][2 * i..] == t.hops[2 * (i + 1)..];
    }
  }

  lemma AllPassSplit(nodes: nat -> Node, at: nat, t: Target)
    requires Total(t) > 0
    ensures Total(Next(t)) == Total(t) - 1
    ensures AllPass(nodes, at, t) <==> Passes(nodes(at), t) && AllPass(nodes, at + 1, Next(t))
  {
    RestOfJourney(t, 0);
    forall i: nat | i < Total(t) ensures Received(Next(t), i) == Received(t, i + 1) {
      RestOfJourney(t, i);
    }
    if AllPass(nodes, at, t) {
      assert Passes(nodes(at + 0), Received(t, 0));
      forall i | 0 <= i <= Total(Next(t)) ensures Passes(nodes(at + 1 + i), Received(Next(t), i)) {
        assert Passes(nodes(at + (i + 1)), Received(t, i + 1));
      }
    }
    if Passes(nodes(at), t) && AllPass(nodes, at + 1, Next(t)) {
      forall i | 0 <= i <= Total(t) ensures Passes(nodes(at + i), Received(t, i)) {
        if i > 0 {
          assert Passes(nodes(at + 1 + (i - 1)), Received(Next(t), i - 1));
        }
      }
    }
  }

  /** The boundaries crossed on the way are those of the route, in order. */
  ghost predicate OnRoute(t: Target, crossed: seq<Boundary>) {
    |crossed| <= Total(t) && forall i :: 0 <= i < |crossed| ==> crossed[i] == Crossing(t, i)
  }

  lemma OnRouteCons(t: Target, rest: seq<Boundary>)
    requires Total(t) > 0 && OnRoute(Next(t), rest)
    ensures OnRoute(t, [Crossing(t, 0)] + rest)
  {
    RestOfJourney(t, 0);
    var crossed := [Crossing(t, 0)] + rest;
    forall i | 0 <= i < |crossed| ensures crossed[i] == Crossing(t, i) {
      if i > 0 {
        RestOfJourney(t, i - 1);
      }
    }
  }

  /** What one channel amounts to.  The route is consumed exactly once: the boundaries crossed are
      those of the route in order; the channel is served exactly when every process on the way does
      its part, and then every boundary was crossed and the provider was handed what the last process
      received. */
  ghost predicate Journey(nodes: nat -> Node, at: nat, t: Target, crossed: seq<Boundary>, end: End) {
    && OnRoute(t, crossed)
    && (end.Served? <==> AllPass(nodes, at, t))
    && (end.Served? ==> end.target == Some(Received(t, Total(t))) && |crossed| == Total(t))
  }

  /** How many processes lie behind the first one: one for a deployment, one for each leading pair. */
  ghost predicate Boundaries(t: Target, d: nat, n: nat) {
    d == (if t.deployment != "" then 1 else 0) && LeadingPairs(t.hops, n)
  }

  /** What has been crossed of a route, boundary by boundary: a placement carries the selector and the
      working directory; every dial sees all the hops that are left, and no deployment. */
  ghost predicate Routed(t: Target, d: nat, crossed: seq<Boundary>) {
    && (d == 1 && |crossed| > 0 ==> crossed[0] == Placed(t.deployment, t.instance, t.workingDir))
    && forall i :: d <= i < |crossed| ==>
         && 2 * (i - d) <= |t.hops|
         && crossed[i] == Dialled(Target(t.hops[2 * (i - d)..], "", if d == 1 then "" else t.instance, t.workingDir))
  }

  /** The process at place i behind the first does its part: it must place, or dial its pair and where that
      is over ssh bootstrap it first, or serve. */
  predicate DoesItsPart(nodes: nat -> Node, at: nat, t: Target, d: nat, n: nat, i: nat)
    requires 2 * n <= |t.hops|
  {
    var p := nodes(at + i);
    && p.accepts
    && (i < d ==> p.venue && p.binary && p.boots && p.launches && p.dials && p.opens)
    && (d <= i < d + n ==> p.binary && (t.hops[2 * (i - d)].transport.Ssh? ==> p.boots) && p.dials && p.opens)
    && (i == d + n ==> p.serves)
  }

  /** The target without its deployment and its first k pairs. */
  function Remaining(t: Target, d: nat, k: nat): Target
    requires 2 * k <= |t.hops|
  {
    Target(t.hops[2 * k..], "", if d == 1 then "" else t.instance, t.workingDir)
  }

  /** ONE CHANNEL, in the route's own terms: what was crossed of it, in order, and whether the provider was
      reached, which takes every process on the way. */
  ghost predicate Delivered(nodes: nat -> Node, at: nat, t: Target, d: nat, n: nat, crossed: seq<Boundary>, end: End)
    requires 2 * n <= |t.hops|
  {
    && |crossed| <= d + n && Routed(t, d, crossed)
    && (end.Served? <==> forall i :: 0 <= i <= d + n ==> DoesItsPart(nodes, at, t, d, n, i))
    && (end.Served? ==> |crossed| == d + n && end.target == Some(Remaining(t, d, n)))
  }

  lemma PartIsPasses(nodes: nat -> Node, at: nat, t: Target, d: nat, n: nat, i: nat)
    requires Boundaries(t, d, n) && i <= d + n
    ensures n == Pairs(t.hops) && Total(t) == d + n
    ensures Passes(nodes(at + i), Received(t, i)) <==> DoesItsPart(nodes, at, t, d, n, i)
    ensures i >= d ==> Received(t, i) == Remaining(t, d, i - d)
  {
    PairsAreMaximal(t.hops, n);
    assert t.hops[0..] == t.hops;
    if i >= d {
      PairBehind(t.hops, i - d);
    }
  }

  lemma JourneyIsDelivery(nodes: nat -> Node, at: nat, t: Target, d: nat, n: nat, crossed: seq<Boundary>, end: End)
    requires Boundaries(t, d, n) && Journey(nodes, at, t, crossed, end)
    ensures Delivered(nodes, at, t, d, n, crossed, end)
  {
    PartIsPasses(nodes, at, t, d, n, d + n);
    if forall i :: 0 <= i <= d + n ==> DoesItsPart(nodes, at, t, d, n, i) {
      forall i | 0 <= i <= Total(t) ensures Passes(nodes(at + i), Received(t, i)) {
        PartIsPasses(nodes, at, t, d, n, i);
      }
    }
    if AllPass(nodes, at, t) {
      forall i | 0 <= i <= d + n ensures DoesItsPart(nodes, at, t, d, n, i) {
        PartIsPasses(nodes, at, t, d, n, i);
      }
    }
    forall i | d <= i < |crossed| ensures 2 * (i - d) <= |t.hops| && crossed[i] == Dialled(Remaining(t, d, i - d)) {
      PartIsPasses(nodes, at, t, d, n, i);
      assert crossed[i] == Crossing(t, i);
    }
    if d == 1 && |crossed| > 0 {
      assert crossed[0] == Crossing(t, 0);
    }
  }

  /** The terminal process receives what follows the maximal run of pairs, and no deployment. */
  lemma TerminalReceives(t: Target)
    ensures var last := Received(t, Total(t));
            && last.hops == t.hops[2 * Pairs(t.hops)..] && last.deployment == "" && !StartsWithPair(last.hops)
            && last.workingDir == t.workingDir && last.instance == if t.deployment != "" then "" else t.instance
  {
    PairsAreMaximal(t.hops, Pairs(t.hops));
    assert t.hops[0..] == t.hops;
  }

  lemma JourneyEnds(nodes: nat -> Node, at: nat, t: Target, end: End)
    requires Total(t) == 0
    requires end == if Passes(nodes(at), t) then Served(Some(t)) else Failed
    ensures Journey(nodes, at, t, [], end)
  {
    assert nodes(at + 0) == nodes(at);
    assert AllPass(nodes, at, t) <==> Passes(nodes(at), Received(t, 0));
  }

  lemma JourneyFails(nodes: nat -> Node, at: nat, t: Target, crossed: seq<Boundary>)
    requires !Passes(nodes(at), t)
    requires crossed == [] || (Total(t) > 0 && crossed == [Crossing(t, 0)])
    ensures Journey(nodes, at, t, crossed, Failed)
  {
    assert !Passes(nodes(at + 0), Received(t, 0));
  }

  lemma JourneyStep(nodes: nat -> Node, at: nat, t: Target, rest: seq<Boundary>, end: End)
    requires Total(t) > 0 && Passes(nodes(at), t) && Journey(nodes, at + 1, Next(t), rest, end)
    ensures Journey(nodes, at, t, [Crossing(t, 0)] + rest, end)
  {
    AllPassSplit(nodes, at, t);
    OnRouteCons(t, rest);
    RestOfJourney(t, Total(t) - 1);
  }

  /** What a process does with the boundary in front of it: leaves the frame to its own provider,
      breaks, or opens the same channel on the next process. */
  datatype Own = Left | Broke | Opened

  class ChannelFrame {
    var target: Option<Target>

    constructor (target: Option<Target>)
      ensures this.target == target
    {
      this.target := target;
    }
  }

  class Chain {
    const nodes: nat -> Node
    var crossed: seq<Boundary>

    constructor (nodes: nat -> Node)
      ensures this.nodes == nodes && crossed == []
    {
      this.nodes, crossed := nodes, [];
    }

    /** A channel opened on process `at` of the chain.  A frame without a target goes straight to the
        provider. */
    method Channel(at: nat, open: ChannelFrame) returns (end: End, ghost added: seq<Boundary>)
      modifies this`crossed, open
      decreases if open.target.Some? then Measure(open.target.value) else 0, 2
      ensures crossed == old(crossed) + added
      ensures old(open.target).None? ==> added == [] && end == if nodes(at).serves then Served(None) else Failed
      ensures old(open.target).Some? ==> Journey(nodes, at, old(open.target.value), added, end)
      ensures old(open.target).Some? ==>
                forall d: nat, n: nat :: Boundaries(old(open.target.value), d, n) ==>
                  Delivered(nodes, at, old(open.target.value), d, n, added, end)
    {
      ghost var t := open.target;
      var handled;
      handled, end, added := RelayNestedTarget(at, open);
      if !handled {
        end := if nodes(at).serves then Served(open.target) else Failed;
        if t.Some? {
          JourneyEnds(nodes, at, t.value, end);
        }
      }
      if t.Some? {
        forall d: nat, n: nat | Boundaries(t.value, d, n) ensures Delivered(nodes, at, t.value, d, n, added, end) {
          JourneyIsDelivery(nodes, at, t.value, d, n, added, end);
        }
      }
    }

    /** Relays through this process's own boundary, if the route still has one; otherwise leaves the
        frame to the provider. */
    method RelayNestedTarget(at: nat, open: ChannelFrame)
      returns (handled: bool, end: End, ghost added: seq<Boundary>)
      modifies this`crossed, open
      decreases if open.target.Some? then Measure(open.target.value) else 0, 1
      ensures crossed == old(crossed) + added
      ensures !handled ==> added == [] && open.target == old(open.target)
      ensures old(open.target).None? ==> !handled
      ensures old(open.target).Some? && !handled ==> nodes(at).accepts && Total(old(open.target.value)) == 0
      ensures old(open.target).Some? && handled ==> Journey(nodes, at, old(open.target.value), added, end)
    {
      handled, end, added := false, Failed, [];
      if open.target.None? {
        return;
      }
      ghost var t := open.target.value;
      var own;
      own, added := Cross(nodes(at), open);
      match own {
        case Left =>
        case Broke =>
          handled := true;
          JourneyFails(nodes, at, t, added);
        case Opened =>
          handled := true;
          ghost var rest;
          end, rest := Onward(at, open, t);
          added := added + rest;
      }
    }

    /** The channel on the next process, behind the boundary this one has opened. */
    method Onward(at: nat, open: ChannelFrame, ghost t: Target) returns (end: End, ghost rest: seq<Boundary>)
      requires Total(t) > 0 && Passes(nodes(at), t) && open.target == Some(Next(t))
      modifies this`crossed, open
      decreases Measure(t), 0
      ensures crossed == old(crossed) + rest
      ensures Journey(nodes, at, t, [Crossing(t, 0)] + rest, end)
    {
      RestOfJourney(t, 0);
      end, rest := Channel(at + 1, open);
      JourneyStep(nodes, at, t, rest, end);
    }

    /** Consumes exactly one boundary of the frame's route and opens the channel behind it. */
    method Cross(p: Node, open: ChannelFrame) returns (own: Own, ghost added: seq<Boundary>)
      requires open.target.Some?
      modifies this`crossed, open
      ensures var t := old(open.target.value);
              && crossed == old(crossed) + added
              && (own.Left? ==> p.accepts && Total(t) == 0 && open.target == Some(t) && added == [])
              && (own.Broke? ==> !Passes(p, t) && (added == [] || (Total(t) > 0 && added == [Crossing(t, 0)])))
              && (own.Opened? ==> Passes(p, t) && Total(t) > 0 && added == [Crossing(t, 0)]
                                  && open.target == Some(Next(t)))
              && (added != [] <==> p.accepts && p.binary
                                   && if t.deployment != "" then p.venue && p.boots && p.launches
                                      else StartsWithPair(t.hops) && (t.hops[0].transport.Ssh? ==> p.boots))
    {
      var target := open.target.value;
      assert target.hops[0..] == target.hops;
      own, added := Broke, [];
      if !p.accepts {
        return;
      }
      if target.deployment != "" {
        if !p.venue || !p.binary || !p.boots || !p.launches {
          return;
        }
        added := [Placed(target.deployment, target.instance, target.workingDir)];
        crossed := crossed + [Placed(target.deployment, target.instance, target.workingDir)];
        if !p.dials {
          return;
        }
        target := target.(deployment := "", instance := "");
        open.target := Some(target);
      } else {
        var split := SplitTargetProcessPair(target);
        if split.None? {
          return Left, [];
        }
        var (dial, remaining) := split.value;
        open.target := Some(remaining);
        if !p.binary || (dial.hops[0].transport.Ssh? && !p.boots) {
          return;
        }
        added := [Dialled(dial)];
        crossed := crossed + [Dialled(dial)];
        if !p.dials {
          return;
        }
      }
      if p.opens {
        own := Opened;
      }
    }
  }
}
