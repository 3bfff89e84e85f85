/**
 The activity clock, the deadline timer and the watcher's loop body as they are written: objects
 whose methods change them in place.  Run without interruption, each arm of the loop is exactly a
 run of the transition system in Watchdog.
 */
module ActivityClock {
  import opened Options
  import opened ProcWork
  import opened Watchdog

  /** A timer whose channel holds at most one expiry. */
  class DeadlineTimer {
    const buffered: bool
    var armed: bool
    var deadline: int
    var expired: bool

    function View(): Timer reads this { Timer(armed, deadline, expired) }

    constructor (buffered: bool, deadline: int)
      ensures this.buffered == buffered && View() == Timer(true, deadline, false)
    {
      this.buffered := buffered;
      this.armed, this.deadline, this.expired := true, deadline, false;
    }

    method Stop() returns (stopped: bool)
      modifies this
      ensures (View(), stopped) == old(View()).Stop(buffered)
    {
      stopped := if buffered then armed else armed || expired;
      armed := false;
      if !buffered {
        expired := false;
      }
    }

    method TryReceive() returns (got: bool)
      modifies this`expired
      ensures got == old(expired) && !expired
    {
      got := expired;
      expired := false;
    }

    method Reset(at: int)
      modifies this
      ensures View() == old(View()).Reset(buffered, at)
    {
      armed, deadline, expired := true, at, buffered && expired;
    }
  }

  /** The steps of resetDeadline from a given timer state. */
  function Resets(t: Timer, buffered: bool): seq<Event> {
    if t.Stop(buffered).1 then [StopTimer, ResetTimer] else [StopTimer, DiscardExpiry, ResetTimer]
  }

  /** Re-arms the timer for the full window and never blocks; no stale expiry survives it,
      whichever state and whichever channel flavour it started from. */
  method ResetDeadline(timer: DeadlineTimer, now: int, window: int) returns (ghost events: seq<Event>)
    requires !(timer.armed && timer.expired)
    modifies timer
    ensures timer.View() == Timer(true, now + window, false)
    ensures events == Resets(old(timer.View()), timer.buffered)
  {
    events := [StopTimer];
    var stopped := timer.Stop();
    if !stopped {
      var _ := timer.TryReceive();
      events := events + [DiscardExpiry];
    }
    timer.Reset(now + window);
    events := events + [ResetTimer];
  }

  /** One call's forward-progress clock: the wake channel, and counters kept for the kill report. */
  class PluginActivity {
    var wake: bool
    var legs: nat
    var works: nat
    var lastLeg: int
    var lastWork: int

    constructor ()
      ensures !wake && legs == works == 0
    {
      wake, legs, works, lastLeg, lastWork := false, 0, 0, 0, 0;
    }

    /** A non-blocking send: a token already pending absorbs this one. */
    method Touch()
      modifies this`wake
      ensures wake
    {
      if !wake {
        wake := true;
      }
    }

    /** The one progress measurement.  A pending token is drained and counted as a leg, and the
        tree is then not consulted; otherwise only a rise of the tree's work is progress. */
    method Observe(now: int, last: Work, current: Work) returns (high: Work, progress: bool)
      modifies this
      ensures progress <==> old(wake) || current.cpuTicks > last.cpuTicks || current.ioBytes > last.ioBytes
      ensures !wake
      ensures high == if !old(wake) && progress then current else last
      ensures legs == old(legs) + Count(old(wake)) && works == old(works) + Count(!old(wake) && progress)
      ensures lastLeg == (if old(wake) then now else old(lastLeg))
      ensures lastWork == (if !old(wake) && progress then now else old(lastWork))
    {
      if wake {
        wake := false;
        legs, lastLeg := legs + 1, now;
        return last, true;
      }
      if current.AdvancedFrom(last) {
        works, lastWork := works + 1, now;
        return current, true;
      }
      return last, false;
    }
  }

  ghost function At(now: int, events: seq<Event>): (run: Run)
    ensures |run| == |events|
  {
    seq(|events|, i requires 0 <= i < |events| => Step(now, events[i]))
  }

  /** Exec of a run that all happens at one time, event by event from the front. */
  ghost function Play(c: Config, now: int, w: Watcher, events: seq<Event>): Option<Watcher>
    decreases |events|
  {
    if |events| == 0 then Some(w)
    else if Can(now, w, events[0]) then Play(c, now, Do(c, now, w, events[0]), events[1..])
    else None
  }

  lemma {:induction false} ExecFront(c: Config, now: int, w: Watcher, events: seq<Event>)
    requires |events| > 0 && Can(now, w, events[0])
    ensures Exec(c, w, At(now, events)) == Exec(c, Do(c, now, w, events[0]), At(now, events[1..]))
    decreases |events|
  {
    var n := |events| - 1;
    var run := At(now, events);
    if n == 0 {
      assert run[..0] == [];
    } else {
      ExecFront(c, now, w, events[..n]);
      assert run[..n] == At(now, events[..n]);
      assert At(now, events[1..])[..n - 1] == At(now, events[..n][1..]);
    }
  }

  /** Playing events in place is executing them as a run. */
  lemma {:induction false} PlayIsExec(c: Config, now: int, w: Watcher, events: seq<Event>)
    requires Play(c, now, w, events).Some?
    ensures Exec(c, w, At(now, events)) == Play(c, now, w, events)
    decreases |events|
  {
    if |events| > 0 {
      ExecFront(c, now, w, events);
      PlayIsExec(c, now, Do(c, now, w, events[0]), events[1..]);
    }
  }

  lemma PlayCons(c: Config, now: int, w: Watcher, e: Event, rest: seq<Event>)
    requires Can(now, w, e)
    ensures Play(c, now, w, [e] + rest) == Play(c, now, Do(c, now, w, e), rest)
  {
    assert ([e] + rest)[1..] == rest;
  }

  lemma PlayResets(c: Config, now: int, w: Watcher)
    requires w.phase.Stopping? && !(w.timer.armed && w.timer.expired)
    ensures Play(c, now, w, Resets(w.timer, c.buffered))
            == Some(w.(timer := Timer(true, now + c.window, false), phase := Selecting))
  {
    var stopped := Do(c, now, w, StopTimer);
    if stopped.phase.Rearming? {
      PlayCons(c, now, stopped, ResetTimer, []);
      PlayCons(c, now, w, StopTimer, [ResetTimer]);
      assert [StopTimer, ResetTimer] == [StopTimer] + ([ResetTimer] + []);
    } else {
      var discarded := Do(c, now, stopped, DiscardExpiry);
      PlayCons(c, now, discarded, ResetTimer, []);
      PlayCons(c, now, stopped, DiscardExpiry, [ResetTimer]);
      PlayCons(c, now, w, StopTimer, [DiscardExpiry, ResetTimer]);
      assert [StopTimer, DiscardExpiry, ResetTimer] == [StopTimer] + ([DiscardExpiry] + ([ResetTimer] + []));
    }
  }

  /** One measurement: the drain, the sample when no token was pending, and the re-arm when there
      was progress. */
  function Measure(c: Config, w: Watcher): seq<Event> {
    if w.wake then [Drain] + Resets(w.timer, c.buffered)
    else [Drain] + ([Sample(w.tree)] + (if w.tree.AdvancedFrom(w.last) then Resets(w.timer, c.buffered) else []))
  }

  lemma PlayMeasure(c: Config, now: int, w: Watcher)
    requires w.phase.Draining? && !(w.timer.armed && w.timer.expired)
    ensures Play(c, now, w, Measure(c, w)) == Some(
              if w.wake || w.tree.AdvancedFrom(w.last) then
                w.(wake := false, last := if w.wake then w.last else w.tree,
                   timer := Timer(true, now + c.window, false), phase := Selecting)
              else if w.phase.cause.Poll? then w.(phase := Selecting)
              else w.(timer := w.timer.(armed := false), phase := Cancelled(now)))
  {
    var drained := Do(c, now, w, Drain);
    PlayCons(c, now, w, Drain, Measure(c, w)[1..]);
    if w.wake {
      PlayResets(c, now, drained);
    } else {
      var rest := if w.tree.AdvancedFrom(w.last) then Resets(w.timer, c.buffered) else [];
      PlayCons(c, now, drained, Sample(w.tree), rest);
      if w.tree.AdvancedFrom(w.last) {
        PlayResets(c, now, Do(c, now, drained, Sample(w.tree)));
      }
    }
  }

  /** The watcher goroutine between two waits of its select. */
  class IdleWatch {
    const c: Config
    const clock: PluginActivity
    const timer: DeadlineTimer
    var ticked: bool
    var nextTick: int
    var last: Work
    var phase: Phase

    ghost predicate Ready()
      reads this, clock, timer
    {
      timer.buffered == c.buffered && phase.Selecting? && !(timer.armed && timer.expired)
    }

    ghost function View(tree: Work): Watcher
      reads this, clock, timer
    {
      Watcher(tree, clock.wake, timer.View(), ticked, nextTick, last, phase)
    }

    constructor (c: Config, clock: PluginActivity, now: int, tree: Work)
      ensures this.c == c && this.clock == clock && fresh(timer)
      ensures Ready() && View(tree) ==
          Watcher(tree, clock.wake, Timer(true, now + c.window, false), false, now + c.poll, tree, Selecting)
    {
      this.c, this.clock := c, clock;
      this.timer := new DeadlineTimer(c.buffered, now + c.window);
      ticked, nextTick, last, phase := false, now + c.poll, tree, Selecting;
    }

    /** A token was received: the deadline is re-armed. */
    method OnWake(now: int, tree: Work) returns (ghost events: seq<Event>)
      requires Ready() && clock.wake
      modifies this, clock, timer
      ensures Ready() && timer.View() == Timer(true, now + c.window, false)
      ensures clock.legs == old(clock.legs) + 1 && clock.lastLeg == now
      ensures Play(c, now, old(View(tree)), events) == Some(View(tree))
    {
      ghost var before := View(tree);
      clock.wake := false;
      clock.legs, clock.lastLeg := clock.legs + 1, now;
      events := ResetDeadline(timer, now, c.window);
      PlayResets(c, now, Do(c, now, before, TakeWake));
      PlayCons(c, now, before, TakeWake, events);
      events := [TakeWake] + events;
    }

    /** A tick was received: progress of either source re-arms the deadline. */
    method OnTick(now: int, tree: Work) returns (ghost events: seq<Event>)
      requires Ready() && ticked
      modifies this, clock, timer
      ensures Ready() && !ticked
      ensures if old(clock.wake) || tree.cpuTicks > old(last).cpuTicks || tree.ioBytes > old(last).ioBytes
              then timer.View() == Timer(true, now + c.window, false) else timer.View() == old(timer.View())
      ensures Play(c, now, old(View(tree)), events) == Some(View(tree))
    {
      ghost var before := View(tree);
      ticked := false;
      var high, progress := clock.Observe(now, last, tree);
      if progress {
        last := high;
        var _ := ResetDeadline(timer, now, c.window);
      }
      ghost var taken := Do(c, now, before, TakeTick);
      PlayMeasure(c, now, taken);
      PlayCons(c, now, before, TakeTick, Measure(c, taken));
      events := [TakeTick] + Measure(c, taken);
    }

    /** The deadline expired: the call is cancelled exactly when neither source shows progress at
        the confirming measurement; otherwise the deadline is re-armed. */
    method OnExpiry(now: int, tree: Work) returns (ghost events: seq<Event>)
      requires Ready() && timer.expired
      modifies this, clock, timer
      ensures phase.Cancelled? <==>
                !old(clock.wake) && tree.cpuTicks <= old(last).cpuTicks && tree.ioBytes <= old(last).ioBytes
      ensures !phase.Cancelled? ==> Ready() && timer.View() == Timer(true, now + c.window, false)
      ensures Play(c, now, old(View(tree)), events) == Some(View(tree))
    {
      ghost var before := View(tree);
      timer.expired := false;
      ghost var taken := Do(c, now, before, TakeExpiry);
      PlayMeasure(c, now, taken);
      PlayCons(c, now, before, TakeExpiry, Measure(c, taken));
      events := [TakeExpiry] + Measure(c, taken);
      var high, progress := clock.Observe(now, last, tree);
      if progress {
        last := high;
        var _ := ResetDeadline(timer, now, c.window);
        return;
      }
      phase := Cancelled(now);
    }
  }
}
