/** The `timeval` macros of the event loop, related to plain microsecond arithmetic. */
module TimeVals {

  const USEC_PER_SEC := 1000000

  datatype TimeVal = TimeVal(sec: int, usec: int) {
    predicate Normal() {
      0 <= usec < USEC_PER_SEC
    }

    /** The instant or duration in microseconds. */
    function Usec(): int {
      sec * USEC_PER_SEC + usec
    }
  }

  /** `timeradd`: one carry, which is enough exactly when both operands are normalised. */
  function TimerAdd(a: TimeVal, b: TimeVal): (r: TimeVal)
    ensures r.Usec() == a.Usec() + b.Usec()
    ensures a.Normal() && b.Normal() ==> r.Normal()
  {
    var sec, usec := a.sec + b.sec, a.usec + b.usec;
    if usec >= USEC_PER_SEC then TimeVal(sec + 1, usec - USEC_PER_SEC) else TimeVal(sec, usec)
  }

  /** `timersub`: one borrow. */
  function TimerSub(a: TimeVal, b: TimeVal): (r: TimeVal)
    ensures r.Usec() == a.Usec() - b.Usec()
    ensures a.Normal() && b.Normal() ==> r.Normal()
  {
    var sec, usec := a.sec - b.sec, a.usec - b.usec;
    if usec < 0 then TimeVal(sec - 1, usec + USEC_PER_SEC) else TimeVal(sec, usec)
  }

  /** `timercmp(a, b, <)`; `timercmp(a, b, >)` is this with the operands exchanged. */
  predicate TimerLess(a: TimeVal, b: TimeVal)
    ensures a.Normal() && b.Normal() ==> (TimerLess(a, b) <==> a.Usec() < b.Usec())
  {
    if a.sec == b.sec then a.usec < b.usec else a.sec < b.sec
  }

  /** Normalised values are determined by their microseconds, so the refinement loses nothing. */
  lemma UsecInjective(a: TimeVal, b: TimeVal)
    requires a.Normal() && b.Normal()
    requires a.Usec() == b.Usec()
    ensures a == b
  {
    assert !TimerLess(a, b) && !TimerLess(b, a);
  }
}
