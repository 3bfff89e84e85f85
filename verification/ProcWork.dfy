/** One sample of a watched process tree's progress. */
module ProcWork {

  const TWO_64 := 0x1_0000_0000_0000_0000

  /** CPU ticks and I/O bytes. */
  datatype Work = Work(cpuTicks: nat, ioBytes: nat) {

    /** Progress is a rise of either counter; a dip of one is no advance. */
    predicate AdvancedFrom(prev: Work) {
      cpuTicks > prev.cpuTicks || ioBytes > prev.ioBytes
    }

    /** What 64-bit unsigned counters hold of it. */
    function Wrapped(): Work { Work(cpuTicks % TWO_64, ioBytes % TWO_64) }

    predicate Fits() { cpuTicks < TWO_64 && ioBytes < TWO_64 }
  }

  const NO_WORK := Work(0, 0)

  /** Counters that fit hold what they count. */
  lemma FitsUnwrapped(w: Work)
    requires w.Fits()
    ensures w.Wrapped() == w
  {
  }

  lemma WrapAdd(w: Work, ticks: nat, bytes: nat)
    ensures Work((w.Wrapped().cpuTicks + ticks) % TWO_64, (w.Wrapped().ioBytes + bytes) % TWO_64)
            == Work(w.cpuTicks + ticks, w.ioBytes + bytes).Wrapped()
  {
  }
}
