/** A monotone clock in milliseconds that advances arbitrarily between reads. */
module Clock {
  class Clock {
    var now: nat

    constructor ()
    {
      now := 0;
    }

    method Read() returns (t: nat)
      modifies this
      ensures t == now >= old(now)
    {
      var later: int :| later >= now;
      now := later;
      t := now;
    }

    /** Waits until at least `end`. */
    method Pass(end: int)
      modifies this
      ensures now >= old(now) && now >= end
    {
      var later: int :| later >= now && later >= end;
      now := later;
    }
  }
}
