/** Histories: when a load of shared memory happens, relative to the other processes' steps. */
module Schedule {
  /** The present state of a history. */
  function Last<T>(run: seq<T>): T
    requires |run| > 0
  {
    run[|run| - 1]
  }

  /** Some time in [now, end): chosen arbitrarily, so what is proved holds for every schedule. */
  method Later(now: nat, end: nat) returns (t: nat)
    requires now < end
    ensures now <= t < end
  {
    t :| now <= t < end;
  }
}
