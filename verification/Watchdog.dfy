/**
 The idle watchdog as a transition system over integer time.

 One watcher goroutine runs beside arbitrary touches, a timer, a ticker and a process tree
 that changes at will.  Every channel operation and every system call of the watcher is its
 own step, so any other step may fall between two of them; which of several ready select
 cases wins, and how late an expiry or tick is noticed, is left open.
 */
module Watchdog {
  import opened Options
  import opened ProcWork

  /** `buffered` is the timer channel's flavour: true for the classic one-slot channel, on
      which Stop leaves an expiry behind; false for the synchronous one, where Stop takes it away. */
  datatype Config = Config(window: int, poll: int, buffered: bool) {
    predicate Valid() { 0 < window && 0 < poll }
  }

  const MIN_POLL := 10_000_000  // ten milliseconds, in nanoseconds

  /** The tree is polled four times a window, but never faster than every ten milliseconds. */
  function PollInterval(window: int): int {
    if window / 4 < MIN_POLL then MIN_POLL else window / 4
  }

  /** Four polls, and no longer ones, fit a window of at least forty milliseconds; a shorter one is polled
      every ten. */
  lemma PollFits(window: int)
    ensures PollInterval(window) >= 10_000_000
    ensures if window >= 40_000_000 then 4 * PollInterval(window) <= window < 4 * (PollInterval(window) + 1)
            else PollInterval(window) == 10_000_000
  {
  }

  /** The configuration of a dispatch under this window. */
  function Dispatch(window: int, buffered: bool): Config { Config(window, PollInterval(window), buffered) }

  datatype Timer = Timer(armed: bool, deadline: int, expired: bool) {

    function Stop(buffered: bool): (Timer, bool) {
      if buffered then (this.(armed := false), armed)
      else (this.(armed := false, expired := false), armed || expired)
    }

    function Discard(): Timer { this.(expired := false) }

    function Reset(buffered: bool, deadline: int): Timer {
      Timer(true, deadline, buffered && expired)
    }
  }

  datatype Cause = Poll | Expiry

  datatype Phase =
    | Starting                                // the first touch is made, the goroutine is not yet running
    | Baseline                                // the timer is armed, the tree not yet sampled
    | Selecting
    | Draining(cause: Cause)                  // in observe, about to look at the wake channel
    | Sampling(cause: Cause, drainedAt: int)  // in observe, about to read the tree
    | Stopping                                // in resetDeadline, before Stop
    | Discarding                              // in resetDeadline, Stop reported false
    | Rearming                                // in resetDeadline, before Reset
    | Cancelled(drainedAt: int)
    | Stopped
  {
    predicate Resetting() { Stopping? || Discarding? || Rearming? }
    predicate Terminal() { Cancelled? || Stopped? }
    predicate Polling() { (Draining? || Sampling?) && cause.Poll? }
    predicate Confirming() { (Draining? || Sampling?) && cause.Expiry? }
  }

  datatype Watcher = Watcher(
    tree: Work,      // what a reader of the process tree would see now
    wake: bool,      // a token lies in the depth-one wake channel
    timer: Timer,
    ticked: bool,    // a tick lies in the ticker's channel
    nextTick: int,
    last: Work,      // the high-water sample
    phase: Phase)

  datatype Event =
    // the environment
    | Touch | Change(now: Work) | Fire | Tick
    // the watcher
    | StartTimer | TakeBaseline(seen: Work)
    | TakeStop | TakeWake | TakeTick | TakeExpiry
    | Drain | Sample(seen: Work)
    | StopTimer | DiscardExpiry | ResetTimer

  /** The clock as the dispatch leaves it: touched once, watcher not yet scheduled. */
  function Start(tree: Work): Watcher {
    Watcher(tree, true, Timer(false, 0, false), false, 0, NO_WORK, Starting)
  }

  predicate Can(at: int, w: Watcher, e: Event) {
    match e
    case Touch => true
    case Change(_) => true
    case Fire => w.timer.armed && w.timer.deadline <= at
    case Tick => !w.phase.Starting? && !w.phase.Terminal() && w.nextTick <= at
    case StartTimer => w.phase.Starting?
    case TakeBaseline(seen) => w.phase.Baseline? && seen == w.tree
    case TakeStop => w.phase.Selecting?
    case TakeWake => w.phase.Selecting? && w.wake
    case TakeTick => w.phase.Selecting? && w.ticked
    case TakeExpiry => w.phase.Selecting? && w.timer.expired
    case Drain => w.phase.Draining?
    case Sample(seen) => w.phase.Sampling? && seen == w.tree
    case StopTimer => w.phase.Stopping?
    case DiscardExpiry => w.phase.Discarding?
    case ResetTimer => w.phase.Rearming?
  }

  function Do(c: Config, at: int, w: Watcher, e: Event): Watcher
    requires Can(at, w, e)
  {
    match e
    case Touch => w.(wake := true)
    case Change(now) => w.(tree := now)
    case Fire => w.(timer := w.timer.(armed := false, expired := true))
    case Tick => w.(ticked := true, nextTick := w.nextTick + c.poll)
    case StartTimer =>
      w.(timer := Timer(true, at + c.window, false), nextTick := at + c.poll, phase := Baseline)
    case TakeBaseline(seen) => w.(last := seen, phase := Selecting)
    case TakeStop => w.(timer := w.timer.(armed := false), phase := Stopped)
    case TakeWake => w.(wake := false, phase := Stopping)
    case TakeTick => w.(ticked := false, phase := Draining(Poll))
    case TakeExpiry => w.(timer := w.timer.(expired := false), phase := Draining(Expiry))
    case Drain =>
      if w.wake then w.(wake := false, phase := Stopping)
      else w.(phase := Sampling(w.phase.cause, at))
    case Sample(seen) =>
      if seen.AdvancedFrom(w.last) then w.(last := seen, phase := Stopping)
      else if w.phase.cause.Poll? then w.(phase := Selecting)
      else w.(timer := w.timer.(armed := false), phase := Cancelled(w.phase.drainedAt))
    case StopTimer =>
      var (t, stopped) := w.timer.Stop(c.buffered);
      w.(timer := t, phase := if stopped then Rearming else Discarding)
    case DiscardExpiry => w.(timer := w.timer.Discard(), phase := Rearming)
    case ResetTimer =>
      w.(timer := w.timer.Reset(c.buffered, at + c.window), phase := Selecting)
  }

  datatype Step = Step(at: int, event: Event)

  type Run = seq<Step>

  function LastTime(run: Run, default: int): int {
    if |run| == 0 then default else run[|run| - 1].at
  }

  /** The state after `run` from `w`, or None when some step is not enabled or time goes back. */
  function Exec(c: Config, w: Watcher, run: Run): Option<Watcher> {
    if |run| == 0 then Some(w)
    else
      var n := |run| - 1;
      var before := Exec(c, w, run[..n]);
      if before.Some? && LastTime(run[..n], run[n].at) <= run[n].at && Can(run[n].at, before.value, run[n].event)
      then Some(Do(c, run[n].at, before.value, run[n].event))
      else None
  }

  // ---------------------------------------------------------------- safety

  predicate TakesSample(e: Event) { e.TakeBaseline? || e.Sample? }

  /** Step b took the sample `last`, and no later sample advanced over it. */
  ghost predicate HighWater(run: Run, b: int, last: Work) {
    && 0 <= b < |run| && TakesSample(run[b].event) && run[b].event.seen == last
    && forall j :: b < j < |run| && run[j].event.Sample? ==> !run[j].event.seen.AdvancedFrom(last)
  }

  /** Every touch among the first n steps happened no later than `bound`. */
  ghost predicate TouchesBy(run: Run, n: int, bound: int) {
    forall i :: 0 <= i < n <= |run| && run[i].event.Touch? ==> run[i].at <= bound
  }

  /** At step d the wake channel was found empty, a full window after every touch before d and
      a full window after the high-water sample b was taken. */
  ghost predicate IdleAt(c: Config, run: Run, b: int, d: int, last: Work) {
    && HighWater(run, b, last) && b < d < |run| && run[d].event.Drain?
    && TouchesBy(run, d, run[d].at - c.window)
    && run[b].at <= run[d].at - c.window
  }

  /** The evidence a kill rests on: idle at the drain d, and neither counter of the tree read at e exceeds
      that of the old sample. */
  ghost predicate KillEvidence(c: Config, run: Run, b: int, d: int, e: int) {
    && 0 <= b < d < e < |run| && run[e].event.Sample? && TakesSample(run[b].event)
    && IdleAt(c, run, b, d, run[b].event.seen)
    && run[e].event.seen.cpuTicks <= run[b].event.seen.cpuTicks
    && run[e].event.seen.ioBytes <= run[b].event.seen.ioBytes
  }

  /** A pending token or a re-arm under way excuses the deadline from covering what came before. */
  predicate Excused(w: Watcher) {
    w.wake || w.phase.Resetting() || w.phase.Starting?
  }

  ghost predicate TimesBy(run: Run, now: int) {
    forall i :: 0 <= i < |run| ==> run[i].at <= now
  }

  /** What the phase says about the timer. */
  predicate Clock(c: Config, now: int, w: Watcher) {
    && (w.phase.Starting? ==> w.wake && !w.timer.armed && !w.timer.expired)
    && (w.phase.Baseline? ==> w.wake)
    && (w.timer.expired ==> w.timer.deadline <= now && !w.timer.armed)
    && (w.phase.Confirming() ==> w.timer.deadline <= now)
    && (w.phase.Rearming? ==> !w.timer.expired && !w.timer.armed)
    && (w.phase.Discarding? || w.phase.Terminal() ==> !w.timer.armed)
    && (w.phase.Selecting? || w.phase.Baseline? || w.phase.Polling() ==> w.timer.armed || w.timer.expired)
    && (!w.phase.Starting? ==> w.timer.deadline <= now + c.window)
  }

  ghost predicate Covered(c: Config, run: Run, w: Watcher) {
    Excused(w) || w.phase.Terminal() || TouchesBy(run, |run|, w.timer.deadline - c.window)
  }

  ghost predicate Sampled(c: Config, run: Run, w: Watcher) {
    w.phase.Starting? || w.phase.Baseline? || w.phase.Terminal()
    || exists b :: HighWater(run, b, w.last) && (Excused(w) || run[b].at <= w.timer.deadline - c.window)
  }

  ghost predicate Inv(c: Config, run: Run, w: Watcher) {
    && (|run| == 0 ==> w.phase.Starting?)
    && TimesBy(run, LastTime(run, 0))
    && Clock(c, LastTime(run, 0), w)
    && Covered(c, run, w)
    && Sampled(c, run, w)
    && (w.phase.Sampling? && w.phase.cause.Expiry? ==>
          exists b, d :: IdleAt(c, run, b, d, w.last) && run[d].at == w.phase.drainedAt)
    && (w.phase.Cancelled? ==>
          exists b, d, e :: KillEvidence(c, run, b, d, e) && run[d].at == w.phase.drainedAt)
  }

  lemma HighWaterExtends(run: Run, s: Step, b: int, last: Work)
    requires HighWater(run, b, last)
    requires s.event.Sample? ==> !s.event.seen.AdvancedFrom(last)
    ensures HighWater(run + [s], b, last)
  {
  }

  lemma ClockStep(c: Config, now: int, w: Watcher, s: Step)
    requires c.Valid() && Clock(c, now, w) && Can(s.at, w, s.event)
    requires w.phase.Starting? || now <= s.at
    ensures Clock(c, s.at, Do(c, s.at, w, s.event))
  {
  }

  lemma CoveredStep(c: Config, run: Run, w: Watcher, s: Step)
    requires c.Valid() && Inv(c, run, w)
    requires LastTime(run, s.at) <= s.at && Can(s.at, w, s.event)
    ensures Covered(c, run + [s], Do(c, s.at, w, s.event))
  {
    assert forall i :: 0 <= i < |run| ==> (run + [s])[i] == run[i];
  }

  lemma SampledStep(c: Config, run: Run, w: Watcher, s: Step)
    requires c.Valid() && Inv(c, run, w)
    requires LastTime(run, s.at) <= s.at && Can(s.at, w, s.event)
    ensures Sampled(c, run + [s], Do(c, s.at, w, s.event))
  {
    var run', w' := run + [s], Do(c, s.at, w, s.event);
    if w'.phase.Starting? || w'.phase.Baseline? || w'.phase.Terminal() {
    } else if s.event.TakeBaseline? || (s.event.Sample? && s.event.seen.AdvancedFrom(w.last)) {
      assert HighWater(run', |run|, w'.last);
    } else {
      var b :| HighWater(run, b, w.last) && (Excused(w) || run[b].at <= w.timer.deadline - c.window);
      assert run'[b] == run[b];
      HighWaterExtends(run, s, b, w.last);
    }
  }

  lemma IdleStep(c: Config, run: Run, w: Watcher, s: Step)
    requires c.Valid() && Inv(c, run, w)
    requires LastTime(run, s.at) <= s.at && Can(s.at, w, s.event)
    requires var p := Do(c, s.at, w, s.event).phase; p.Sampling? && p.cause.Expiry?
    ensures var w' := Do(c, s.at, w, s.event);
            exists b, d :: IdleAt(c, run + [s], b, d, w'.last) && (run + [s])[d].at == w'.phase.drainedAt
  {
    var run', w' := run + [s], Do(c, s.at, w, s.event);
    if w.phase.Sampling? {
      var b, d :| IdleAt(c, run, b, d, w.last) && run[d].at == w.phase.drainedAt;
      HighWaterExtends(run, s, b, w.last);
      assert run'[b] == run[b] && run'[d] == run[d];
      assert IdleAt(c, run', b, d, w.last);
    } else {
      var b :| HighWater(run, b, w.last) && (Excused(w) || run[b].at <= w.timer.deadline - c.window);
      HighWaterExtends(run, s, b, w.last);
      assert run'[b] == run[b];
      assert IdleAt(c, run', b, |run|, w.last);
    }
  }

  lemma KillStep(c: Config, run: Run, w: Watcher, s: Step)
    requires c.Valid() && Inv(c, run, w)
    requires LastTime(run, s.at) <= s.at && Can(s.at, w, s.event)
    requires Do(c, s.at, w, s.event).phase.Cancelled?
    ensures var w' := Do(c, s.at, w, s.event);
            exists b, d, e :: KillEvidence(c, run + [s], b, d, e) && (run + [s])[d].at == w'.phase.drainedAt
  {
    var run', w' := run + [s], Do(c, s.at, w, s.event);
    if w.phase.Cancelled? {
      var b, d, e :| KillEvidence(c, run, b, d, e) && run[d].at == w.phase.drainedAt;
      assert run'[b] == run[b] && run'[d] == run[d] && run'[e] == run[e];
      assert KillEvidence(c, run', b, d, e);
    } else {
      var b, d :| IdleAt(c, run, b, d, w.last) && run[d].at == w.phase.drainedAt;
      HighWaterExtends(run, s, b, w.last);
      assert run'[b] == run[b] && run'[d] == run[d];
      assert KillEvidence(c, run', b, d, |run|);
    }
  }

  lemma InvStep(c: Config, run: Run, w: Watcher, s: Step)
    requires c.Valid() && Inv(c, run, w)
    requires LastTime(run, s.at) <= s.at && Can(s.at, w, s.event)
    ensures Inv(c, run + [s], Do(c, s.at, w, s.event))
  {
    var w' := Do(c, s.at, w, s.event);
    ClockStep(c, LastTime(run, 0), w, s);
    CoveredStep(c, run, w, s);
    SampledStep(c, run, w, s);
    if w'.phase.Sampling? && w'.phase.cause.Expiry? {
      IdleStep(c, run, w, s);
    }
    if w'.phase.Cancelled? {
      KillStep(c, run, w, s);
    }
  }

  lemma {:induction false} InvHolds(c: Config, tree: Work, run: Run)
    requires c.Valid() && Exec(c, Start(tree), run).Some?
    ensures Inv(c, run, Exec(c, Start(tree), run).value)
  {
    if |run| > 0 {
      var n := |run| - 1;
      InvHolds(c, tree, run[..n]);
      InvStep(c, run[..n], Exec(c, Start(tree), run[..n]).value, run[n]);
      assert run == run[..n] + [run[n]];
    }
  }

  /** SAFETY over every run and interleaving: a watcher that has cancelled found the wake channel
      empty, at its last look, a full window after every earlier touch (the coalesced ones
      included), and its work reading showed no advance over a sample at least a window old. */
  lemma CancelsOnlyWhenIdle(c: Config, tree: Work, run: Run)
    requires c.Valid() && Exec(c, Start(tree), run).Some?
    requires Exec(c, Start(tree), run).value.phase.Cancelled?
    ensures exists b, d, e :: KillEvidence(c, run, b, d, e)
                              && run[d].at == Exec(c, Start(tree), run).value.phase.drainedAt
  {
    InvHolds(c, tree, run);
  }

  /** A call that has returned is not cancelled any more: its watcher takes no further step, over every
      run and interleaving. */
  lemma {:induction false} StoppedStays(c: Config, tree: Work, run: Run, i: nat)
    requires c.Valid() && i < |run| && run[i].event.TakeStop? && Exec(c, Start(tree), run).Some?
    ensures var w := Exec(c, Start(tree), run).value; w.phase.Stopped? && !w.timer.armed
    ensures forall j :: i < j < |run| ==> run[j].event.Touch? || run[j].event.Change?
  {
    var n := |run| - 1;
    if i < n {
      StoppedStays(c, tree, run[..n], i);
    }
  }

  // ------------------------------------------------- what the discard is needed for

  /** The watcher with a reset that re-arms without discarding. */
  function DoUndrained(c: Config, at: int, w: Watcher, e: Event): Watcher
    requires Can(at, w, e)
  {
    if e.DiscardExpiry? then w.(phase := Rearming) else Do(c, at, w, e)
  }

  function ExecUndrained(c: Config, w: Watcher, run: Run): Option<Watcher> {
    if |run| == 0 then Some(w)
    else
      var n := |run| - 1;
      var before := ExecUndrained(c, w, run[..n]);
      if before.Some? && LastTime(run[..n], run[n].at) <= run[n].at && Can(run[n].at, before.value, run[n].event)
      then Some(DoUndrained(c, run[n].at, before.value, run[n].event))
      else None
  }

  /** On the synchronous channel Stop has taken the expiry away, so the discard finds none. */
  lemma {:induction false} NothingToDiscard(c: Config, tree: Work, run: Run)
    requires !c.buffered && Exec(c, Start(tree), run).Some?
    ensures var w := Exec(c, Start(tree), run).value; w.phase.Discarding? ==> !w.timer.armed && !w.timer.expired
  {
    if |run| > 0 {
      NothingToDiscard(c, tree, run[..|run| - 1]);
    }
  }

  /** There the discard is not needed: every run goes the same way without it. */
  lemma {:induction false} SynchronousNeedsNoDiscard(c: Config, tree: Work, run: Run)
    requires !c.buffered
    ensures ExecUndrained(c, Start(tree), run) == Exec(c, Start(tree), run)
  {
    if |run| > 0 {
      var n := |run| - 1;
      SynchronousNeedsNoDiscard(c, tree, run[..n]);
      if Exec(c, Start(tree), run).Some? {
        NothingToDiscard(c, tree, run[..n]);
      }
    }
  }

  /** No step is later than t, and before any measurement there was a touch at t. */
  ghost predicate TouchedFirst(run: Run, t: int) {
    && TimesBy(run, t)
    && exists i :: 0 <= i < |run| && run[i] == Step(t, Touch) && forall j :: 0 <= j < i ==> !run[j].event.Drain?
  }

  lemma UndrainedSnoc(c: Config, tree: Work, run: Run, w: Watcher, s: Step) returns (run': Run, w': Watcher)
    requires ExecUndrained(c, Start(tree), run) == Some(w) && LastTime(run, s.at) <= s.at && Can(s.at, w, s.event)
    ensures run' == run + [s] && w' == DoUndrained(c, s.at, w, s.event) && ExecUndrained(c, Start(tree), run') == Some(w')
    ensures LastTime(run', 0) == s.at
  {
    run', w' := run + [s], DoUndrained(c, s.at, w, s.event);
    assert run'[..|run|] == run;
  }

  lemma TouchedFirstStays(run: Run, t: int, more: Run)
    requires TouchedFirst(run, t) && TimesBy(more, t)
    ensures TouchedFirst(run + more, t)
  {
    var i :| 0 <= i < |run| && run[i] == Step(t, Touch) && forall j :: 0 <= j < i ==> !run[j].event.Drain?;
    assert (run + more)[i] == Step(t, Touch);
  }

  lemma TouchFirst(run: Run, t: int)
    requires TimesBy(run, t) && forall j :: 0 <= j < |run| ==> !run[j].event.Drain?
    ensures TouchedFirst(run + [Step(t, Touch)], t)
  {
    assert (run + [Step(t, Touch)])[|run|] == Step(t, Touch);
  }

  lemma TouchedFirstRefutes(c: Config, run: Run, t: int, b: int, d: int, e: int)
    requires c.Valid() && TouchedFirst(run, t)
    ensures !KillEvidence(c, run, b, d, e)
  {
    var i :| 0 <= i < |run| && run[i] == Step(t, Touch) && forall j :: 0 <= j < i ==> !run[j].event.Drain?;
    assert run[i].event.Touch?;
  }

  /** The dispatch's own token is served at once. */
  lemma UndrainedServed(c: Config, tree: Work) returns (run: Run)
    requires c.Valid()
    ensures TimesBy(run, 0) && LastTime(run, 0) == 0
    ensures forall j :: 0 <= j < |run| ==> !run[j].event.Drain?
    ensures ExecUndrained(c, Start(tree), run)
            == Some(Watcher(tree, false, Timer(true, c.window, false), false, c.poll, tree, Stopping))
  {
    var w := Start(tree);
    run := [];
    run, w := UndrainedSnoc(c, tree, run, w, Step(0, StartTimer));
    run, w := UndrainedSnoc(c, tree, run, w, Step(0, TakeBaseline(tree)));
    run, w := UndrainedSnoc(c, tree, run, w, Step(0, TakeWake));
  }

  /** The deadline is re-armed; then it passes. */
  lemma UndrainedStart(c: Config, tree: Work) returns (run: Run)
    requires c.Valid()
    ensures TimesBy(run, c.window) && LastTime(run, 0) == c.window && |run| > 0
    ensures forall j :: 0 <= j < |run| ==> !run[j].event.Drain?
    ensures ExecUndrained(c, Start(tree), run)
            == Some(Watcher(tree, false, Timer(false, c.window, true), false, c.poll, tree, Selecting))
  {
    var w := Watcher(tree, false, Timer(true, c.window, false), false, c.poll, tree, Stopping);
    run := UndrainedServed(c, tree);
    run, w := UndrainedSnoc(c, tree, run, w, Step(0, StopTimer));
    run, w := UndrainedSnoc(c, tree, run, w, Step(0, ResetTimer));
    run, w := UndrainedSnoc(c, tree, run, w, Step(c.window, Fire));
  }

  /** Now a touch comes and is received, the expiry pending. */
  lemma UndrainedTouch(c: Config, tree: Work) returns (run: Run)
    requires c.Valid() && c.buffered
    ensures TouchedFirst(run, c.window) && LastTime(run, 0) == c.window
    ensures ExecUndrained(c, Start(tree), run)
            == Some(Watcher(tree, false, Timer(false, c.window, true), false, c.poll, tree, Stopping))
  {
    var w := Watcher(tree, false, Timer(false, c.window, true), false, c.poll, tree, Selecting);
    run := UndrainedStart(c, tree);
    TouchFirst(run, c.window);
    run, w := UndrainedSnoc(c, tree, run, w, Step(c.window, Touch));
    TouchedFirstStays(run, c.window, [Step(c.window, TakeWake)]);
    run, w := UndrainedSnoc(c, tree, run, w, Step(c.window, TakeWake));
  }

  /** The stale expiry outlives the re-arm. */
  lemma UndrainedReset(c: Config, tree: Work) returns (run: Run)
    requires c.Valid() && c.buffered
    ensures TouchedFirst(run, c.window) && LastTime(run, 0) == c.window
    ensures ExecUndrained(c, Start(tree), run)
            == Some(Watcher(tree, false, Timer(true, 2 * c.window, true), false, c.poll, tree, Selecting))
  {
    var w := Watcher(tree, false, Timer(false, c.window, true), false, c.poll, tree, Stopping);
    run := UndrainedTouch(c, tree);
    var before, more := run, [Step(c.window, StopTimer), Step(c.window, DiscardExpiry), Step(c.window, ResetTimer)];
    TouchedFirstStays(before, c.window, more);
    run, w := UndrainedSnoc(c, tree, run, w, Step(c.window, StopTimer));
    run, w := UndrainedSnoc(c, tree, run, w, Step(c.window, DiscardExpiry));
    run, w := UndrainedSnoc(c, tree, run, w, Step(c.window, ResetTimer));
    assert run == before + more;
  }

  /** On the classic channel it is: without it some run from the start ends in a kill for which there is
      no evidence, at the very time of a touch that was served before. */
  lemma UndrainedKills(c: Config, tree: Work) returns (run: Run)
    requires c.Valid() && c.buffered
    ensures ExecUndrained(c, Start(tree), run).Some? && ExecUndrained(c, Start(tree), run).value.phase == Cancelled(c.window)
    ensures TouchedFirst(run, c.window) && forall b, d, e :: !KillEvidence(c, run, b, d, e)
  {
    var w, t := Watcher(tree, false, Timer(true, 2 * c.window, true), false, c.poll, tree, Selecting), c.window;
    run := UndrainedReset(c, tree);
    var before, more := run, [Step(t, TakeExpiry), Step(t, Drain), Step(t, Sample(tree))];
    TouchedFirstStays(before, t, more);
    run, w := UndrainedSnoc(c, tree, run, w, Step(t, TakeExpiry));
    run, w := UndrainedSnoc(c, tree, run, w, Step(t, Drain));
    run, w := UndrainedSnoc(c, tree, run, w, Step(t, Sample(tree)));
    assert run == before + more;
    forall b, d, e ensures !KillEvidence(c, run, b, d, e) {
      TouchedFirstRefutes(c, run, t, b, d, e);
    }
  }

  // ------------------------------------------------------- bounded detection

  /** The peer has gone silent: no touch, no change of its tree, and the call stays in flight. */
  predicate Silent(e: Event) { !e.Touch? && !e.Change? && !e.TakeStop? }

  ghost predicate Quiet(run: Run) { forall i :: 0 <= i < |run| ==> Silent(run[i].event) }

  predicate InLoop(w: Watcher) { !w.phase.Starting? && !w.phase.Baseline? && !w.phase.Terminal() }

  /** The watcher has a step of its own to take now. */
  predicate Busy(w: Watcher) {
    !w.phase.Terminal() && (!w.phase.Selecting? || w.wake || w.ticked || w.timer.expired)
  }

  /** Prompt delivery: time does not pass a busy watcher, nor the deadline of an armed timer. */
  predicate PromptStep(w: Watcher, now: int, at: int) {
    now <= at && (Busy(w) ==> at == now) && (w.timer.armed ==> at <= w.timer.deadline)
  }

  ghost predicate Prompt(c: Config, w: Watcher, t0: int, run: Run) {
    |run| == 0 ||
    var n := |run| - 1;
    && Prompt(c, w, t0, run[..n])
    && Exec(c, w, run[..n]).Some?
    && PromptStep(Exec(c, w, run[..n]).value, LastTime(run[..n], t0), run[n].at)
  }

  function Count(b: bool): nat { if b then 1 else 0 }

  /** Progress the watcher has not consumed yet: a token, and an advance of the tree. */
  function Unconsumed(w: Watcher): nat { Count(w.wake) + Count(w.tree.AdvancedFrom(w.last)) }

  function Rearms(run: Run): nat {
    if |run| == 0 then 0 else Rearms(run[..|run| - 1]) + Count(run[|run| - 1].event.ResetTimer?)
  }

  lemma ExecLast(c: Config, w: Watcher, run: Run)
    requires |run| > 0 && Exec(c, w, run).Some?
    ensures var n := |run| - 1;
            && Exec(c, w, run[..n]).Some?
            && Can(run[n].at, Exec(c, w, run[..n]).value, run[n].event)
            && Exec(c, w, run).value == Do(c, run[n].at, Exec(c, w, run[..n]).value, run[n].event)
  {
  }

  lemma UnconsumedFalls(c: Config, w: Watcher, s: Step)
    requires !w.phase.Starting? && !w.phase.Baseline? && !w.phase.Stopped?
    requires Can(s.at, w, s.event) && Silent(s.event)
    ensures var w' := Do(c, s.at, w, s.event);
            && !w'.phase.Starting? && !w'.phase.Baseline? && !w'.phase.Stopped?
            && Count(s.event.ResetTimer?) + Unconsumed(w') + Count(w'.phase.Resetting())
               <= Unconsumed(w) + Count(w.phase.Resetting())
  {
  }

  /** Once the peer is silent the deadline is re-armed at most once for a pending token and once
      for an unseen advance, besides a re-arm already under way. */
  lemma {:induction false} AtMostTwoRearms(c: Config, w: Watcher, run: Run)
    requires InLoop(w) && Quiet(run) && Exec(c, w, run).Some?
    ensures var w' := Exec(c, w, run).value;
            && !w'.phase.Starting? && !w'.phase.Baseline? && !w'.phase.Stopped?
            && Rearms(run) + Unconsumed(w') + Count(w'.phase.Resetting()) <= Unconsumed(w) + Count(w.phase.Resetting())
    ensures !w.phase.Resetting() ==> Rearms(run) <= 2
  {
    if |run| > 0 {
      var n := |run| - 1;
      ExecLast(c, w, run);
      AtMostTwoRearms(c, w, run[..n]);
      UnconsumedFalls(c, Exec(c, w, run[..n]).value, run[n]);
    }
  }

  /** Three windows, less one for each piece of progress not consumed yet. */
  function Slack(c: Config, w: Watcher): int {
    3 * c.window - (if w.wake then c.window else 0) - (if w.tree.AdvancedFrom(w.last) then c.window else 0)
  }

  /** Where time and the deadline can be, counted in windows from the moment the peer fell silent. */
  predicate OnTime(c: Config, t0: int, now: int, w: Watcher) {
    && Clock(c, now, w)
    && (w.timer.armed ==> now <= w.timer.deadline)
    && (w.phase.Resetting() ==> now <= t0 + Slack(c, w) - c.window)
    && (InLoop(w) && !w.phase.Resetting() ==>
          now <= t0 + Slack(c, w) && w.timer.deadline <= t0 + Slack(c, w))
    && (w.phase.Sampling? ==> w.phase.drainedAt <= now)
    && (w.phase.Cancelled? ==> w.phase.drainedAt <= now <= t0 + 3 * c.window)
  }

  lemma OnTimeStep(c: Config, t0: int, now: int, w: Watcher, s: Step)
    requires c.Valid() && InLoop(w) && OnTime(c, t0, now, w)
    requires Can(s.at, w, s.event) && Silent(s.event) && PromptStep(w, now, s.at)
    ensures OnTime(c, t0, s.at, Do(c, s.at, w, s.event))
  {
    ClockStep(c, now, w, s);
  }

  function TicksLeft(horizon: int, next: int, poll: int): nat
    requires 0 < poll
    decreases horizon - next
  {
    if horizon < next then 0 else 1 + TicksLeft(horizon, next + poll, poll)
  }

  function PhaseCredit(p: Phase): nat {
    match p
    case Draining(_) => 3
    case Sampling(_, _) => 2
    case Stopping => 8
    case Discarding => 7
    case Rearming => 6
    case _ => 0
  }

  /** An upper bound on the steps a silent run can still take before `horizon`. */
  function Rank(c: Config, horizon: int, w: Watcher): nat
    requires c.Valid()
  {
    if w.phase.Terminal() then 0 else
      6 * TicksLeft(horizon, w.nextTick, c.poll) + 4 * Count(w.ticked)
      + (if w.timer.armed then 5 else 4 * Count(w.timer.expired))
      + 11 * Unconsumed(w) + PhaseCredit(w.phase)
  }

  lemma RankFalls(c: Config, t0: int, now: int, w: Watcher, s: Step)
    requires c.Valid() && InLoop(w) && OnTime(c, t0, now, w)
    requires Can(s.at, w, s.event) && Silent(s.event) && PromptStep(w, now, s.at)
    ensures Rank(c, t0 + 3 * c.window, Do(c, s.at, w, s.event)) < Rank(c, t0 + 3 * c.window, w)
  {
    OnTimeStep(c, t0, now, w, s);
    if s.event.Tick? {
      assert s.at <= t0 + 3 * c.window;
    }
  }

  /** A watcher in its loop always has a prompt step to take. */
  lemma NeverStuck(c: Config, now: int, w: Watcher)
    requires c.Valid() && InLoop(w) && Clock(c, now, w) && (w.timer.armed ==> now <= w.timer.deadline)
    ensures exists s: Step :: PromptStep(w, now, s.at) && Can(s.at, w, s.event) && Silent(s.event)
  {
    var s := match w.phase
      case Selecting =>
        if w.timer.expired then Step(now, TakeExpiry)
        else if w.wake then Step(now, TakeWake)
        else if w.ticked then Step(now, TakeTick)
        else Step(w.timer.deadline, Fire)
      case Draining(_) => Step(now, Drain)
      case Sampling(_, _) => Step(now, Sample(w.tree))
      case Stopping => Step(now, StopTimer)
      case Discarding => Step(now, DiscardExpiry)
      case _ => Step(now, ResetTimer);
    assert PromptStep(w, now, s.at) && Can(s.at, w, s.event) && Silent(s.event);
  }

  predicate SilentState(c: Config, t0: int, now: int, w: Watcher, steps: nat, budget: nat)
    requires c.Valid()
  {
    (InLoop(w) || w.phase.Cancelled?) && OnTime(c, t0, now, w) && steps + Rank(c, t0 + 3 * c.window, w) <= budget
  }

  lemma SilentStep(c: Config, t0: int, now: int, w: Watcher, s: Step, steps: nat, budget: nat)
    requires c.Valid() && SilentState(c, t0, now, w, steps, budget)
    requires Can(s.at, w, s.event) && Silent(s.event) && PromptStep(w, now, s.at)
    ensures SilentState(c, t0, s.at, Do(c, s.at, w, s.event), steps + 1, budget)
  {
    assert !w.phase.Cancelled?;
    OnTimeStep(c, t0, now, w, s);
    RankFalls(c, t0, now, w, s);
  }

  lemma {:induction false} SilentRun(c: Config, w: Watcher, t0: int, run: Run)
    requires c.Valid() && InLoop(w) && Clock(c, t0, w) && (w.timer.armed ==> t0 <= w.timer.deadline)
    requires w.phase.Sampling? ==> w.phase.drainedAt <= t0
    requires Quiet(run) && Prompt(c, w, t0, run) && Exec(c, w, run).Some?
    ensures SilentState(c, t0, LastTime(run, t0), Exec(c, w, run).value, |run|, Rank(c, t0 + 3 * c.window, w))
  {
    if |run| > 0 {
      var n := |run| - 1;
      ExecLast(c, w, run);
      SilentRun(c, w, t0, run[..n]);
      SilentStep(c, t0, LastTime(run[..n], t0), Exec(c, w, run[..n]).value, run[n], n, Rank(c, t0 + 3 * c.window, w));
    }
  }

  /** LIVENESS: from the moment the peer is silent, a promptly served watcher takes a bounded number
      of steps, is never stuck before it has cancelled, and cancels within three windows. */
  lemma CancelsWithinThreeWindows(c: Config, w: Watcher, t0: int, run: Run)
    requires c.Valid() && InLoop(w) && Clock(c, t0, w) && (w.timer.armed ==> t0 <= w.timer.deadline)
    requires w.phase.Sampling? ==> w.phase.drainedAt <= t0
    requires Quiet(run) && Prompt(c, w, t0, run) && Exec(c, w, run).Some?
    ensures |run| <= Rank(c, t0 + 3 * c.window, w)
    ensures LastTime(run, t0) <= t0 + 3 * c.window
    ensures var w' := Exec(c, w, run).value;
            if w'.phase.Cancelled? then w'.phase.drainedAt <= t0 + 3 * c.window
            else exists s: Step :: PromptStep(w', LastTime(run, t0), s.at) && Can(s.at, w', s.event) && Silent(s.event)
  {
    SilentRun(c, w, t0, run);
    var w' := Exec(c, w, run).value;
    if !w'.phase.Cancelled? {
      NeverStuck(c, LastTime(run, t0), w');
    }
  }
}
