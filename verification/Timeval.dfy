/** The timeval arithmetic of libril/ril_event.cpp. */
module Timeval {
  datatype Timeval = Timeval(sec: int, usec: int) {
    /** timercmp(a, b, <) */
    predicate Before(that: Timeval) {
      if sec == that.sec then usec < that.usec else sec < that.sec
    }

    predicate Normal() { 0 <= usec < 1_000_000 }

    function Micros(): int { sec * 1_000_000 + usec }
  }

  /** timeradd */
  function TimerAdd(a: Timeval, b: Timeval): Timeval {
    if a.usec + b.usec >= 1_000_000 then Timeval(a.sec + b.sec + 1, a.usec + b.usec - 1_000_000)
    else Timeval(a.sec + b.sec, a.usec + b.usec)
  }

  /** timersub */
  function TimerSub(a: Timeval, b: Timeval): Timeval {
    if a.usec - b.usec < 0 then Timeval(a.sec - b.sec - 1, a.usec - b.usec + 1_000_000)
    else Timeval(a.sec - b.sec, a.usec - b.usec)
  }

  /** On normal values the comparison is the one of the times they stand for. */
  lemma BeforeIsEarlier(a: Timeval, b: Timeval)
    requires a.Normal() && b.Normal()
    ensures a.Before(b) <==> a.Micros() < b.Micros()
  {}

  /** Sleeping for the difference ends exactly at the later time. */
  lemma SubThenAdd(a: Timeval, b: Timeval)
    requires a.Normal() && b.Normal()
    ensures TimerSub(a, b).Normal() && TimerAdd(a, b).Normal()
    ensures TimerAdd(a, b).Micros() == a.Micros() + b.Micros()
    ensures TimerSub(a, b).Micros() == a.Micros() - b.Micros()
    ensures TimerAdd(b, TimerSub(a, b)) == a
  {}
}
