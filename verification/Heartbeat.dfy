/**
 The heartbeat that host reverse legs run under, and the nest of calls InvokeProvider builds.

 Each nested provider call has its own clock and watcher; while it runs, the caller's clock is
 touched every beat, the first time one beat after the leg starts.  A beat may come up to `late`
 after its due time.
 */
module Heartbeat {
  import opened Options
  import opened ProcWork
  import opened Watchdog

  const MAX_BEAT := 5_000_000_000  // five seconds, in nanoseconds

  /** The beat is a quarter of the no-progress window, five seconds at most. */
  function Interval(noProgress: int): int {
    if noProgress / 4 <= 0 || noProgress / 4 > MAX_BEAT then MAX_BEAT else noProgress / 4
  }

  /** The beat lies inside the window it is derived from exactly when that window is at least four
      nanoseconds; below that the five-second fallback is longer than the window itself.  Four beats, and no
      longer ones, fit any window from there on up to twenty seconds. */
  lemma IntervalFits(noProgress: int)
    ensures 0 < Interval(noProgress) <= 5_000_000_000
    ensures 4 <= noProgress <= 20_000_000_000 ==>
              4 * Interval(noProgress) <= noProgress < 4 * (Interval(noProgress) + 1)
    ensures noProgress < 4 || 20_000_000_000 <= noProgress ==> Interval(noProgress) == 5_000_000_000
    ensures Interval(noProgress) < noProgress <==> 4 <= noProgress
  {
    if 4 <= noProgress {
      assert 1 <= noProgress / 4 < noProgress;
    }
  }

  /** One call in flight: its watcher and, while a leg of it runs on the host, the next beat. */
  datatype Frame = Frame(c: Config, w: Watcher, beat: Option<int>)

  datatype Pace = Pace(every: int, late: int) {
    predicate Valid() { 0 < every && 0 <= late }
  }

  datatype NestEvent =
    | Own(i: nat, e: Event)             // a step of frame i's own watcher, timer, tree or other legs
    | Beat(i: nat)                      // frame i's heartbeat touches its clock
    | Leg                               // the innermost call starts a plain host leg
    | EndLeg
    | Invoke(c: Config, tree: Work)     // the innermost call invokes a peer
    | Return                            // the innermost call returns to its caller

  datatype NestStep = NestStep(at: int, event: NestEvent)

  /** No beat is overdue at time `at`. */
  ghost predicate BeatsServed(p: Pace, at: int, fs: seq<Frame>) {
    forall i :: 0 <= i < |fs| && fs[i].beat.Some? ==> at <= fs[i].beat.value + p.late
  }

  ghost predicate NestCan(p: Pace, at: int, fs: seq<Frame>, e: NestEvent) {
    && BeatsServed(p, at, fs) && |fs| > 0
    && match e
       case Own(i, ev) => i < |fs| && Can(at, fs[i].w, ev)
       case Beat(i) => i < |fs| && fs[i].beat.Some? && fs[i].beat.value <= at
       case Leg => fs[|fs| - 1].beat.None? && !fs[|fs| - 1].w.phase.Terminal()
       case EndLeg => fs[|fs| - 1].beat.Some?
       case Invoke(c, _) => c.Valid() && fs[|fs| - 1].beat.None? && !fs[|fs| - 1].w.phase.Terminal()
       case Return => |fs| > 1 && fs[|fs| - 1].beat.None?
  }

  ghost function NestDo(p: Pace, at: int, fs: seq<Frame>, e: NestEvent): seq<Frame>
    requires NestCan(p, at, fs, e)
  {
    var top := |fs| - 1;
    match e
    case Own(i, ev) => fs[i := fs[i].(w := Do(fs[i].c, at, fs[i].w, ev))]
    case Beat(i) =>
      fs[i := fs[i].(w := Do(fs[i].c, at, fs[i].w, Touch), beat := Some(fs[i].beat.value + p.every))]
    case Leg => fs[top := fs[top].(beat := Some(at + p.every))]
    case EndLeg => fs[top := fs[top].(beat := None)]
    case Invoke(c, tree) =>
      fs[top := fs[top].(beat := Some(at + p.every))] + [Frame(c, Start(tree), None)]
    case Return => fs[..top][top - 1 := fs[top - 1].(beat := None)]
  }

  /** The next beat will come before `w` can expire: the deadline lies beyond `bound`, or the
      watcher must re-arm first. */
  predicate Fresh(w: Watcher, bound: int) {
    bound < w.timer.deadline || (Excused(w) && !(w.phase.Sampling? && w.phase.cause.Expiry?))
  }

  /** The pacing condition: a leg starts early enough after its caller's last re-arm. */
  ghost predicate Paced(p: Pace, at: int, fs: seq<Frame>, e: NestEvent)
    requires |fs| > 0
  {
    var top := fs[|fs| - 1];
    e.Leg? || e.Invoke? ==> p.every + p.late < top.c.window && Fresh(top.w, at + p.every + p.late)
  }

  function NestTime(run: seq<NestStep>, default: int): int {
    if |run| == 0 then default else run[|run| - 1].at
  }

  /** The frames after a paced run, or None when the run is not one. */
  ghost function NestExec(p: Pace, fs: seq<Frame>, run: seq<NestStep>): Option<seq<Frame>> {
    if |run| == 0 then Some(fs)
    else
      var n := |run| - 1;
      var before := NestExec(p, fs, run[..n]);
      if && before.Some? && NestTime(run[..n], run[n].at) <= run[n].at
         && NestCan(p, run[n].at, before.value, run[n].event)
         && Paced(p, run[n].at, before.value, run[n].event)
      then Some(NestDo(p, run[n].at, before.value, run[n].event))
      else None
  }

  /** An invoked call starts with its own clock, touched once, and its peer's tree; the calls around it keep
      theirs, and the caller's is touched again one beat later at the earliest. */
  lemma InvokeStarts(p: Pace, fs: seq<Frame>, run: seq<NestStep>, fs': seq<Frame>, at: int, c: Config, tree: Work)
    requires |run| > 0 && run[|run| - 1] == NestStep(at, Invoke(c, tree))
    requires NestExec(p, fs, run) == Some(fs')
    ensures var n := |run| - 1;
            && NestExec(p, fs, run[..n]).Some?
            && var before := NestExec(p, fs, run[..n]).value;
            && |fs'| == |before| + 1 && (forall i :: 0 <= i < |before| ==> fs'[i].w == before[i].w && fs'[i].c == before[i].c)
            && fs'[|before|].c == c && fs'[|before|].beat.None? && fs'[|before|].w.tree == tree
            && fs'[|before|].w.wake && fs'[|before|].w.phase.Starting?
            && fs'[|before| - 1].beat == Some(at + p.every)
  {
  }

  /** What holds of a frame whose leg is running: the next beat precedes any expiry. */
  predicate Held(p: Pace, now: int, f: Frame)
    requires f.beat.Some?
  {
    var next := f.beat.value;
    && !f.w.phase.Cancelled?
    && next <= now + p.every && p.every + p.late < f.c.window
    && (f.w.phase.Terminal() || Fresh(f.w, next + p.late))
  }

  ghost predicate FrameInv(p: Pace, now: int, f: Frame) {
    && f.c.Valid()
    && Clock(f.c, now, f.w)
    && (f.beat.Some? ==> Held(p, now, f))
  }

  ghost predicate NestInv(p: Pace, now: int, fs: seq<Frame>) {
    && |fs| > 0
    && (forall i :: 0 <= i < |fs| ==> FrameInv(p, now, fs[i]))
    && (forall i :: 0 <= i < |fs| - 1 ==> fs[i].beat.Some?)
  }

  lemma FrameLater(p: Pace, now: int, at: int, f: Frame)
    requires FrameInv(p, now, f) && (now <= at || f.w.phase.Starting?)
    requires now <= at
    ensures FrameInv(p, at, f)
  {
  }

  lemma OwnStep(p: Pace, at: int, f: Frame, e: Event)
    requires p.Valid() && FrameInv(p, at, f) && Can(at, f.w, e)
    requires f.beat.Some? ==> at <= f.beat.value + p.late
    ensures FrameInv(p, at, f.(w := Do(f.c, at, f.w, e)))
  {
    ClockStep(f.c, at, f.w, Step(at, e));
  }

  lemma NestStepInv(p: Pace, now: int, fs: seq<Frame>, s: NestStep)
    requires p.Valid() && NestInv(p, now, fs) && now <= s.at
    requires NestCan(p, s.at, fs, s.event) && Paced(p, s.at, fs, s.event)
    ensures NestInv(p, s.at, NestDo(p, s.at, fs, s.event))
  {
    forall i | 0 <= i < |fs| ensures FrameInv(p, s.at, fs[i]) {
      FrameLater(p, now, s.at, fs[i]);
    }
    match s.event
    case Own(i, e) => OwnStep(p, s.at, fs[i], e);
    case Beat(i) => OwnStep(p, s.at, fs[i], Touch);
    case _ =>
  }

  lemma {:induction false} NestRunInv(p: Pace, c: Config, tree: Work, t0: int, run: seq<NestStep>)
    requires p.Valid() && c.Valid() && (|run| > 0 ==> t0 <= run[0].at)
    requires NestExec(p, [Frame(c, Start(tree), None)], run).Some?
    ensures NestInv(p, NestTime(run, t0), NestExec(p, [Frame(c, Start(tree), None)], run).value)
  {
    if |run| > 0 {
      var n := |run| - 1;
      NestRunInv(p, c, tree, t0, run[..n]);
      NestStepInv(p, NestTime(run[..n], t0), NestExec(p, [Frame(c, Start(tree), None)], run[..n]).value, run[n]);
    }
  }

  /** HEARTBEAT COMPOSITION over every paced nest of calls: no call cancels while a leg of it runs,
      however long; so only the innermost call's clock can ever expire. */
  lemma OnlyInnermostExpires(p: Pace, c: Config, tree: Work, run: seq<NestStep>)
    requires p.Valid() && c.Valid()
    requires NestExec(p, [Frame(c, Start(tree), None)], run).Some?
    ensures var fs := NestExec(p, [Frame(c, Start(tree), None)], run).value;
            && |fs| > 0
            && (forall i :: 0 <= i < |fs| && fs[i].beat.Some? ==> !fs[i].w.phase.Cancelled?)
            && (forall i :: 0 <= i < |fs| && fs[i].w.phase.Cancelled? ==> i == |fs| - 1)
  {
    NestRunInv(p, c, tree, if |run| > 0 then run[0].at else 0, run);
  }

  // ------------------------------------------------ detection after a leg

  /** The innermost call's leg has just ended: a plain one, or the call it invoked. */
  predicate LegEnded(run: seq<NestStep>) {
    |run| > 0 && (run[|run| - 1].event.EndLeg? || run[|run| - 1].event.Return?)
  }

  /** The heartbeat does not outlive its leg. */
  lemma BeatEnds(p: Pace, fs: seq<Frame>, run: seq<NestStep>, at: int)
    requires NestExec(p, fs, run).Some? && LegEnded(run)
    ensures var fs' := NestExec(p, fs, run).value; |fs'| > 0 && !NestCan(p, at, fs', Beat(|fs'| - 1))
  {
  }

  /** From now on call t starts and ends nothing, and its peer is silent; the calls around it go on. */
  predicate LeftAlone(run: seq<NestStep>, t: nat) {
    forall i :: 0 <= i < |run| ==>
      match run[i].event
      case Own(j, e) => j == t ==> Silent(e)
      case Beat(_) => true
      case _ => false
  }

  /** Time does not pass the watcher of call t while it has something to do, whoever takes the steps. */
  ghost predicate PromptFor(p: Pace, fs: seq<Frame>, t0: int, run: seq<NestStep>, t: nat) {
    |run| == 0 ||
    var n := |run| - 1;
    && PromptFor(p, fs, t0, run[..n], t)
    && NestExec(p, fs, run[..n]).Some? && t < |NestExec(p, fs, run[..n]).value|
    && PromptStep(NestExec(p, fs, run[..n]).value[t].w, NestTime(run[..n], t0), run[n].at)
  }

  function OwnSteps(run: seq<NestStep>, t: nat): nat {
    if |run| == 0 then 0
    else
      var e := run[|run| - 1].event;
      OwnSteps(run[..|run| - 1], t) + Count(e.Own? && e.i == t)
  }

  /** What a run leaves of a call that is left alone: it is on its way to be cancelled, or was in time. */
  predicate OnTheClock(c: Config, t0: int, now: int, w: Watcher, steps: nat, budget: nat)
    requires c.Valid()
  {
    if w.phase.Cancelled? then Clock(c, now, w) && w.phase.drainedAt <= t0 + 3 * c.window && steps <= budget
    else SilentState(c, t0, now, w, steps, budget)
  }

  lemma TimePasses(c: Config, t0: int, now: int, at: int, w: Watcher, steps: nat, budget: nat)
    requires c.Valid() && OnTheClock(c, t0, now, w, steps, budget) && PromptStep(w, now, at)
    ensures OnTheClock(c, t0, at, w, steps, budget)
  {
  }

  lemma ClockedStep(p: Pace, fs: seq<Frame>, t0: int, now: int, s: NestStep, t: nat, steps: nat, budget: nat)
    requires t < |fs| && fs[t].c.Valid() && fs[t].beat.None? && NestCan(p, s.at, fs, s.event)
    requires OnTheClock(fs[t].c, t0, now, fs[t].w, steps, budget) && PromptStep(fs[t].w, now, s.at) && LeftAlone([s], t)
    ensures var fs', own := NestDo(p, s.at, fs, s.event), s.event.Own? && s.event.i == t;
            && |fs'| == |fs| && fs'[t].c == fs[t].c && fs'[t].beat.None?
            && OnTheClock(fs[t].c, t0, s.at, fs'[t].w, steps + Count(own), budget)
  {
    assert s == [s][0];
    if s.event.Own? && s.event.i == t {
      assert !fs[t].w.phase.Cancelled?;
      SilentStep(fs[t].c, t0, now, fs[t].w, Step(s.at, s.event.e), steps, budget);
    } else {
      TimePasses(fs[t].c, t0, now, s.at, fs[t].w, steps, budget);
    }
  }

  lemma {:induction false} ClockedRun(p: Pace, fs: seq<Frame>, t0: int, run: seq<NestStep>, t: nat, budget: nat)
    requires t < |fs| && fs[t].c.Valid() && fs[t].beat.None? && OnTheClock(fs[t].c, t0, t0, fs[t].w, 0, budget)
    requires NestExec(p, fs, run).Some? && LeftAlone(run, t) && PromptFor(p, fs, t0, run, t)
    ensures var fs' := NestExec(p, fs, run).value;
            && |fs'| == |fs| && fs'[t].c == fs[t].c && fs'[t].beat.None?
            && OnTheClock(fs[t].c, t0, NestTime(run, t0), fs'[t].w, OwnSteps(run, t), budget)
    ensures forall i :: 0 <= i < |run| ==> run[i].event != Beat(t)
  {
    if |run| > 0 {
      var n := |run| - 1;
      ClockedRun(p, fs, t0, run[..n], t, budget);
      assert LeftAlone([run[n]], t);
      ClockedStep(p, NestExec(p, fs, run[..n]).value, t0, NestTime(run[..n], t0), run[n], t, OwnSteps(run[..n], t), budget);
    }
  }

  /** Call t has a prompt step to take, as soon as the beats of the calls around it are served. */
  ghost predicate CanGoOn(p: Pace, now: int, fs: seq<Frame>, t: nat)
    requires t < |fs|
  {
    exists s: Step :: PromptStep(fs[t].w, now, s.at) && Silent(s.event) && Can(s.at, fs[t].w, s.event)
                      && (BeatsServed(p, s.at, fs) ==> NestCan(p, s.at, fs, Own(t, s.event)))
  }

  lemma {:induction false} NestSplit(p: Pace, fs: seq<Frame>, run: seq<NestStep>, more: seq<NestStep>)
    requires NestExec(p, fs, run + more).Some?
    ensures NestExec(p, fs, run).Some?
    ensures NestExec(p, NestExec(p, fs, run).value, more) == NestExec(p, fs, run + more)
    decreases |more|
  {
    if |more| == 0 {
      assert run + more == run;
    } else {
      var n := |more| - 1;
      assert (run + more)[..|run| + n] == run + more[..n];
      NestSplit(p, fs, run, more[..n]);
    }
  }

  /** The watcher is between two steps of its loop, and has been served up to now. */
  predicate Waiting(now: int, w: Watcher) {
    && InLoop(w) && (w.timer.armed ==> now <= w.timer.deadline)
    && (w.phase.Sampling? ==> w.phase.drainedAt <= now)
  }

  /** Call t was cancelled within three windows of t0, or these are not over and it can go on. */
  ghost predicate Detected(p: Pace, t0: int, now: int, fs: seq<Frame>, t: nat)
    requires t < |fs|
  {
    var horizon := t0 + 3 * fs[t].c.window;
    if fs[t].w.phase.Cancelled? then fs[t].w.phase.drainedAt <= horizon else now <= horizon && CanGoOn(p, now, fs, t)
  }

  lemma AloneIsDetected(p: Pace, fs: seq<Frame>, t0: int, more: seq<NestStep>, t: nat)
    requires t < |fs| && fs[t].c.Valid() && fs[t].beat.None? && Clock(fs[t].c, t0, fs[t].w) && Waiting(t0, fs[t].w)
    requires NestExec(p, fs, more).Some? && LeftAlone(more, t) && PromptFor(p, fs, t0, more, t)
    ensures var fs' := NestExec(p, fs, more).value;
            && |fs'| == |fs| && fs'[t].c == fs[t].c && Detected(p, t0, NestTime(more, t0), fs', t)
            && OwnSteps(more, t) <= Rank(fs[t].c, t0 + 3 * fs[t].c.window, fs[t].w)
    ensures forall i :: 0 <= i < |more| ==> more[i].event != Beat(t)
  {
    ClockedRun(p, fs, t0, more, t, Rank(fs[t].c, t0 + 3 * fs[t].c.window, fs[t].w));
    var fs', now := NestExec(p, fs, more).value, NestTime(more, t0);
    if !fs'[t].w.phase.Cancelled? {
      NeverStuck(fs[t].c, now, fs'[t].w);
    }
  }

  lemma AfterLeg(p: Pace, c: Config, tree: Work, run: seq<NestStep>, fs: seq<Frame>, t: nat)
    requires p.Valid() && c.Valid() && LegEnded(run)
    requires NestExec(p, [Frame(c, Start(tree), None)], run) == Some(fs) && |fs| == t + 1
    ensures fs[t].c.Valid() && fs[t].beat.None? && Clock(fs[t].c, NestTime(run, 0), fs[t].w)
  {
    NestRunInv(p, c, tree, run[0].at, run);
    BeatEnds(p, [Frame(c, Start(tree), None)], run, 0);
  }

  lemma TimeOfSum(run: seq<NestStep>, more: seq<NestStep>)
    requires |run| > 0
    ensures NestTime(run + more, 0) == NestTime(more, NestTime(run, 0))
  {
  }

  /** DETECTION THROUGH THE NEST: when a leg of the innermost call has ended and its peer is silent from
      then on, its clock is touched by no beat, the promptly served call takes a bounded number of steps,
      always has a next one until it is cancelled, and is cancelled within three windows, whatever the
      calls around it do. */
  lemma DetectedAfterLegs(p: Pace, c: Config, tree: Work, run: seq<NestStep>, more: seq<NestStep>, fs: seq<Frame>, t: nat)
    requires p.Valid() && c.Valid() && LegEnded(run) && NestExec(p, [Frame(c, Start(tree), None)], run + more).Some?
    requires NestExec(p, [Frame(c, Start(tree), None)], run) == Some(fs) && |fs| == t + 1
    requires Waiting(NestTime(run, 0), fs[t].w) && LeftAlone(more, t) && PromptFor(p, fs, NestTime(run, 0), more, t)
    ensures var fs', t0 := NestExec(p, [Frame(c, Start(tree), None)], run + more).value, NestTime(run, 0);
            && |fs'| == |fs| && fs'[t].c == fs[t].c && Detected(p, t0, NestTime(run + more, 0), fs', t)
            && fs[t].c.Valid() && OwnSteps(more, t) <= Rank(fs[t].c, t0 + 3 * fs[t].c.window, fs[t].w)
    ensures forall i :: 0 <= i < |more| ==> more[i].event != Beat(t)
  {
    AfterLeg(p, c, tree, run, fs, t);
    NestSplit(p, [Frame(c, Start(tree), None)], run, more);
    AloneIsDetected(p, fs, NestTime(run, 0), more, t);
    TimeOfSum(run, more);
  }

  // ------------------------------------------------ the pacing condition is exact

  function Stepped(f: Frame, s: Step): Frame
    requires Can(s.at, f.w, s.event)
  {
    f.(w := Do(f.c, s.at, f.w, s.event))
  }

  /** Own steps of a call, none of them a touch, that cancel it while its leg runs and before the next
      beat is overdue. */
  ghost predicate Kills(p: Pace, now: int, f: Frame, run: seq<Step>)
    decreases |run|
  {
    if |run| == 0 then f.beat.Some? && f.w.phase.Cancelled?
    else
      && now <= run[0].at && !run[0].event.Touch? && NestCan(p, run[0].at, [f], Own(0, run[0].event))
      && Kills(p, run[0].at, Stepped(f, run[0]), run[1..])
  }

  ghost predicate Doomed(p: Pace, now: int, f: Frame) { exists run :: Kills(p, now, f, run) }

  /** The time until which no beat need be served. */
  function Grace(p: Pace, f: Frame): int
    requires f.beat.Some?
  {
    f.beat.value + p.late
  }

  lemma DoomedStep(p: Pace, now: int, f: Frame, s: Step)
    requires f.beat.Some? && now <= s.at <= Grace(p, f) && !s.event.Touch? && Can(s.at, f.w, s.event)
    requires Doomed(p, s.at, Stepped(f, s))
    ensures Doomed(p, now, f)
  {
    var rest :| Kills(p, s.at, Stepped(f, s), rest);
    var run := [s] + rest;
    assert run[1..] == rest;
    assert Kills(p, now, f, run);
  }

  /** At the confirming measurement nothing can save the call if its tree falls silent. */
  lemma ConfirmingIsDoomed(p: Pace, now: int, f: Frame)
    requires f.beat.Some? && now <= Grace(p, f) && f.w.phase.Confirming() && (f.w.phase.Sampling? || !f.w.wake)
    ensures Doomed(p, now, f)
    decreases f.w.phase.Draining?
  {
    if f.w.phase.Draining? {
      ConfirmingIsDoomed(p, now, Stepped(f, Step(now, Drain)));
      DoomedStep(p, now, f, Step(now, Drain));
    } else {
      var quiet := Stepped(f, Step(now, Change(f.w.last)));
      assert Kills(p, now, Stepped(quiet, Step(now, Sample(f.w.last))), []);
      DoomedStep(p, now, quiet, Step(now, Sample(f.w.last)));
      DoomedStep(p, now, f, Step(now, Change(f.w.last)));
    }
  }

  /** So it is with a call that waits with no token, if its deadline comes before the beat. */
  lemma IdleIsDoomed(p: Pace, now: int, f: Frame)
    requires f.beat.Some? && now <= Grace(p, f) && f.w.timer.deadline <= Grace(p, f)
    requires f.w.phase.Selecting? && !f.w.wake && (f.w.timer.armed || f.w.timer.expired)
    ensures Doomed(p, now, f)
    decreases !f.w.timer.expired
  {
    if f.w.timer.expired {
      ConfirmingIsDoomed(p, now, Stepped(f, Step(now, TakeExpiry)));
      DoomedStep(p, now, f, Step(now, TakeExpiry));
    } else {
      var at := if now <= f.w.timer.deadline then f.w.timer.deadline else now;
      IdleIsDoomed(p, at, Stepped(f, Step(at, Fire)));
      DoomedStep(p, now, f, Step(at, Fire));
    }
  }

  /** A poll that finds nothing leaves the call waiting as it was. */
  lemma PollingIsDoomed(p: Pace, now: int, f: Frame)
    requires f.beat.Some? && now <= Grace(p, f) && f.w.phase.Polling() && (f.w.phase.Draining? ==> !f.w.wake)
    requires Doomed(p, now, f.(w := f.w.(tree := f.w.last, phase := Selecting)))
    ensures Doomed(p, now, f)
    decreases f.w.phase.Draining?
  {
    if f.w.phase.Draining? {
      PollingIsDoomed(p, now, Stepped(f, Step(now, Drain)));
      DoomedStep(p, now, f, Step(now, Drain));
    } else {
      DoomedStep(p, now, Stepped(f, Step(now, Change(f.w.last))), Step(now, Sample(f.w.last)));
      DoomedStep(p, now, f, Step(now, Change(f.w.last)));
    }
  }

  /** Without a token or a re-arm under way, a deadline before the beat dooms the call. */
  lemma UnexcusedIsDoomed(p: Pace, now: int, f: Frame)
    requires f.beat.Some? && now <= Grace(p, f) && f.w.timer.deadline <= Grace(p, f)
    requires Clock(f.c, now, f.w) && !f.w.phase.Terminal() && !Excused(f.w)
    ensures Doomed(p, now, f)
  {
    if f.w.phase.Confirming() {
      ConfirmingIsDoomed(p, now, f);
    } else if f.w.phase.Polling() {
      IdleIsDoomed(p, now, f.(w := f.w.(tree := f.w.last, phase := Selecting)));
      PollingIsDoomed(p, now, f);
    } else {
      IdleIsDoomed(p, now, f);
    }
  }

  /** When a whole window fits before the beat, even a fresh re-arm is too early. */
  lemma ResettingIsDoomed(p: Pace, now: int, f: Frame)
    requires f.beat.Some? && f.c.Valid() && now + f.c.window <= Grace(p, f)
    requires f.w.phase.Resetting() && !f.w.wake
    ensures Doomed(p, now, f)
    decreases if f.w.phase.Stopping? then 2 else if f.w.phase.Discarding? then 1 else 0
  {
    if f.w.phase.Rearming? {
      IdleIsDoomed(p, now, Stepped(f, Step(now, ResetTimer)));
      DoomedStep(p, now, f, Step(now, ResetTimer));
    } else {
      var e := if f.w.phase.Stopping? then StopTimer else DiscardExpiry;
      ResettingIsDoomed(p, now, Stepped(f, Step(now, e)));
      DoomedStep(p, now, f, Step(now, e));
    }
  }

  /** The watcher is on its way to the select, and the one step it can take. */
  predicate OnItsWay(w: Watcher) { w.phase.Starting? || w.phase.Baseline? || w.phase.Resetting() }

  function Onward(w: Watcher): (e: Event)
    requires OnItsWay(w)
    ensures !e.Touch?
  {
    match w.phase
    case Starting => StartTimer
    case Baseline => TakeBaseline(w.tree)
    case Stopping => StopTimer
    case Discarding => DiscardExpiry
    case _ => ResetTimer
  }

  function StepsAhead(w: Watcher): nat {
    match w.phase
    case Starting => 5
    case Baseline => 4
    case Stopping => 3
    case Discarding => 2
    case Rearming => 1
    case _ => 0
  }

  lemma TokenIsDoomed(p: Pace, now: int, f: Frame)
    requires f.beat.Some? && f.c.Valid() && now + f.c.window <= Grace(p, f) && f.w.wake
    requires !f.w.phase.Terminal() && !(f.w.phase.Sampling? && f.w.phase.cause.Expiry?)
    ensures Doomed(p, now, f)
    decreases StepsAhead(f.w)
  {
    if OnItsWay(f.w) {
      TokenIsDoomed(p, now, Stepped(f, Step(now, Onward(f.w))));
      DoomedStep(p, now, f, Step(now, Onward(f.w)));
    } else if f.w.phase.Sampling? {
      var waiting := f.(w := f.w.(tree := f.w.last, phase := Selecting));
      TokenIsTaken(p, now, waiting, TakeWake);
      PollingIsDoomed(p, now, f);
    } else {
      TokenIsTaken(p, now, f, if f.w.phase.Selecting? then TakeWake else Drain);
    }
  }

  lemma TokenIsTaken(p: Pace, now: int, f: Frame, e: Event)
    requires f.beat.Some? && f.c.Valid() && now + f.c.window <= Grace(p, f) && f.w.wake
    requires Can(now, f.w, e) && (e.TakeWake? || e.Drain?)
    ensures Doomed(p, now, f)
  {
    ResettingIsDoomed(p, now, Stepped(f, Step(now, e)));
    DoomedStep(p, now, f, Step(now, e));
  }

  lemma {:induction false} HeldIsSafe(p: Pace, now: int, f: Frame, run: seq<Step>)
    requires p.Valid() && FrameInv(p, now, f) && f.beat.Some?
    ensures !Kills(p, now, f, run)
    decreases |run|
  {
    if |run| > 0 && now <= run[0].at && NestCan(p, run[0].at, [f], Own(0, run[0].event)) {
      FrameLater(p, now, run[0].at, f);
      assert f == [f][0] && Can(run[0].at, f.w, run[0].event);
      OwnStep(p, run[0].at, f, run[0].event);
      HeldIsSafe(p, run[0].at, Stepped(f, run[0]), run[1..]);
    }
  }

  /** THE PACING CONDITION IS EXACT: whatever the watcher is doing when a leg starts, some course of its
      own steps cancels the call before the leg's first beat if and only if the condition fails. */
  lemma LegIsSafeExactlyWhen(p: Pace, at: int, f: Frame)
    requires p.Valid() && f.c.Valid() && Clock(f.c, at, f.w) && NestCan(p, at, [f], Leg)
    ensures Doomed(p, at, NestDo(p, at, [f], Leg)[0]) <==> !Paced(p, at, [f], Leg)
  {
    var started := NestDo(p, at, [f], Leg)[0];
    assert started == f.(beat := Some(at + p.every));
    if Paced(p, at, [f], Leg) {
      forall run ensures !Kills(p, at, started, run) {
        HeldIsSafe(p, at, started, run);
      }
    } else if f.w.phase.Sampling? && f.w.phase.cause.Expiry? {
      ConfirmingIsDoomed(p, at, started);
    } else if !Excused(f.w) {
      UnexcusedIsDoomed(p, at, started);
    } else if f.w.wake {
      TokenIsDoomed(p, at, started);
    } else {
      ResettingIsDoomed(p, at, started);
    }
  }

  /** The real beat leaves room for three quarters of the window: as long as a beat is less late than
      that, a leg of a dispatch under the same window is safe exactly when the deadline lies more than
      a beat and its lateness ahead, or the watcher is about to re-arm. */
  lemma RealBeatIsExact(noProgress: int, late: int, buffered: bool, at: int, w: Watcher)
    requires 4 <= noProgress && 0 <= late < noProgress - noProgress / 4
    requires Clock(Dispatch(noProgress, buffered), at, w) && !w.phase.Terminal()
    ensures var p, f := Pace(Interval(noProgress), late), Frame(Dispatch(noProgress, buffered), w, None);
            && p.Valid() && f.c.Valid() && NestCan(p, at, [f], Leg)
            && (Doomed(p, at, NestDo(p, at, [f], Leg)[0]) <==> !Fresh(w, at + p.every + p.late))
  {
    var p, f := Pace(Interval(noProgress), late), Frame(Dispatch(noProgress, buffered), w, None);
    LegIsSafeExactlyWhen(p, at, f);
  }

  /** For instance, from a plain wait: a leg that starts with nothing pending and its first beat due no
      earlier than the deadline can be cancelled while it runs. */
  lemma LateLegIsKilled(p: Pace, f: Frame, at: int)
    requires p.Valid() && f.beat.None? && f.w.phase.Selecting? && f.w.timer.armed
    requires !f.w.wake && !f.w.tree.AdvancedFrom(f.w.last)
    requires at <= f.w.timer.deadline <= at + p.every + p.late
    ensures var d := f.w.timer.deadline;
            var run := [NestStep(at, Leg), NestStep(d, Own(0, Fire)), NestStep(d, Own(0, TakeExpiry)),
                        NestStep(d, Own(0, Drain)), NestStep(d, Own(0, Sample(f.w.tree)))];
            Killed(p, [f], run)
  {
    var d := f.w.timer.deadline;
    var r4 := [NestStep(d, Own(0, Sample(f.w.tree)))];
    var r3 := [NestStep(d, Own(0, Drain))] + r4;
    var r2 := [NestStep(d, Own(0, TakeExpiry))] + r3;
    var r1 := [NestStep(d, Own(0, Fire))] + r2;
    var f0 := NestDo(p, at, [f], Leg);
    var f1 := NestDo(p, d, f0, Own(0, Fire));
    var f2 := NestDo(p, d, f1, Own(0, TakeExpiry));
    var f3 := NestDo(p, d, f2, Own(0, Drain));
    var f4 := NestDo(p, d, f3, Own(0, Sample(f.w.tree)));
    assert f4[0].beat.Some? && f4[0].w.phase.Cancelled?;
    assert Killed(p, f4, r4[1..]);
    assert Killed(p, f3, r4);
    assert r3[1..] == r4 && Killed(p, f2, r3);
    assert r2[1..] == r3 && Killed(p, f1, r2);
    assert r1[1..] == r2 && Killed(p, f0, r1);
    var run := [NestStep(at, Leg)] + r1;
    assert run[1..] == r1 && Killed(p, [f], run);
    assert run == [NestStep(at, Leg), NestStep(d, Own(0, Fire)), NestStep(d, Own(0, TakeExpiry)),
                   NestStep(d, Own(0, Drain)), NestStep(d, Own(0, Sample(f.w.tree)))];
  }

  /** Every step of `run` is possible from `fs`, and at its end a call whose leg still runs is cancelled. */
  ghost predicate Killed(p: Pace, fs: seq<Frame>, run: seq<NestStep>)
    decreases |run|
  {
    if |run| == 0 then exists i :: 0 <= i < |fs| && fs[i].beat.Some? && fs[i].w.phase.Cancelled?
    else NestCan(p, run[0].at, fs, run[0].event) && (|run| > 1 ==> run[0].at <= run[1].at)
         && Killed(p, NestDo(p, run[0].at, fs, run[0].event), run[1..])
  }
}
