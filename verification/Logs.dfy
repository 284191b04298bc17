/** A run: what happened, in order, the last thing outermost. */
module Logs {
  datatype Log<+E> = Start | Then(past: Log<E>, last: E) {
    function Length(): nat {
      match this
      case Start => 0
      case Then(past, _) => past.Length() + 1
    }
  }

  predicate Occurs<E(==)>(log: Log<E>, e: E) {
    log.Then? && (log.last == e || Occurs(log.past, e))
  }

  /** `log`, and then whatever happened later. */
  predicate Extends<E(==)>(longer: Log<E>, log: Log<E>) {
    longer == log || (longer.Then? && Extends(longer.past, log))
  }

  lemma {:induction false} ExtendsFurther<E>(longest: Log<E>, longer: Log<E>, log: Log<E>)
    requires Extends(longest, longer) && Extends(longer, log)
    ensures Extends(longest, log)
  {
    if longest != longer { ExtendsFurther(longest.past, longer, log); }
  }

  /** The clock never went back, and stands at `now`. */
  predicate ClockNonDecreasing<E>(log: Log<E>, time: E -> real, now: real) {
    log.Start? || (time(log.last) <= now && ClockNonDecreasing(log.past, time, time(log.last)))
  }
}
