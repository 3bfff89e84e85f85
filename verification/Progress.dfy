/**
 Work that is done is seen: from the process tables of two samples to what the watcher makes of them.
 */
module Progress {
  import opened ActivityClock
  import opened Options
  import opened ProcTree
  import opened ProcWork
  import opened Sets
  import opened Watchdog

  ghost function Counting(w: Watched, nodes: Table): set<int> { Watching(nodes, w.pid, w.daemons, w.excludeRoot) }

  /** Between two tables no watched process has left and none has lost work; and one has done some,
      whether it has used the processor or only moved bytes. */
  ghost predicate Works(w: Watched, before: Table, after: Table) {
    && Counting(w, before) <= Counting(w, after)
    && (forall n :: n in Counting(w, before) ==>
          before[n].ticks <= after[n].ticks && before[n].ioBytes <= after[n].ioBytes)
    && exists n :: n in Counting(w, after) && Rises(n, Counting(w, before), before, after)
  }

  ghost predicate Rises(n: int, counted: set<int>, before: Table, after: Table) {
    && n in after
    && if n in counted && n in before then before[n].ticks < after[n].ticks || before[n].ioBytes < after[n].ioBytes
       else 0 < after[n].ticks || 0 < after[n].ioBytes
  }

  ghost predicate Fits(w: Watched, nodes: Table) { WorkOf(nodes, Counting(w, nodes)).Fits() }

  /** The converse of NoFalseAdvance: work shows in a counter, as long as the later sums fit 64 bits. */
  lemma WorkShows(w: Watched, before: Table, after: Table, x: Work, y: Work)
    requires Works(w, before, after) && Fits(w, after)
    requires x == WorkOf(before, Counting(w, before)).Wrapped() && y == WorkOf(after, Counting(w, after)).Wrapped()
    ensures x.cpuTicks < y.cpuTicks || x.ioBytes < y.ioBytes
  {
    var s, s' := Counting(w, before), Counting(w, after);
    TotalMonotone(Ticks(before), s, Ticks(after), s');
    TotalMonotone(Bytes(before), s, Bytes(after), s');
    var n :| n in s' && Rises(n, s, before, after);
    if if n in s then before[n].ticks < after[n].ticks else 0 < after[n].ticks {
      TotalRises(Ticks(before), s, Ticks(after), s', n);
    } else {
      TotalRises(Bytes(before), s, Bytes(after), s', n);
    }
    FitsUnwrapped(WorkOf(before, s));
    FitsUnwrapped(WorkOf(after, s'));
  }

  /** Two samples around some work: the measurement reports progress. */
  method WorkIsObserved(w: Watched, clock: PluginActivity, before: Table, after: Table, now: int) returns (progress: bool)
    requires w.pid > 0 && Listed(before) && Listed(after) && Works(w, before, after) && Fits(w, after)
    modifies clock
    ensures progress
  {
    var last := w.Work(Some(before), 0);
    var current := w.Work(Some(after), 0);
    WorkShows(w, before, after, last, current);
    var high;
    high, progress := clock.Observe(now, last, current);
  }

  /** A call whose tree has worked since its last sample survives the expiry of its deadline. */
  method WorkerSurvives(w: Watched, watch: IdleWatch, ghost before: Table, after: Table, now: int) returns (ghost events: seq<Event>)
    requires w.pid > 0 && Listed(after) && Works(w, before, after) && Fits(w, after)
    requires watch.Ready() && watch.timer.expired && watch.last == WorkOf(before, Counting(w, before)).Wrapped()
    modifies watch, watch.clock, watch.timer
    ensures !watch.phase.Cancelled? && watch.timer.View() == Timer(true, now + watch.c.window, false)
  {
    var current := w.Work(Some(after), 0);
    WorkShows(w, before, after, watch.last, current);
    events := watch.OnExpiry(now, current);
  }
}
