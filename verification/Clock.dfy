/** Time. A reading never goes back; how far it advances between readings is not known. */
module Clock {

  /** Nanoseconds in a second. */
  const SECOND: int := 1_000_000_000

  class Clock {
    var time: int

    constructor (start: int)
      ensures time == start
    {
      time := start;
    }

    method Now() returns (now: int)
      modifies this
      ensures now == time >= old(time)
    {
      var passed :| passed >= 0;
      time := time + passed;
      now := time;
    }
  }
}
