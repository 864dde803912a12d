/** A monotonic clock: every reading is at or after the one before it, and nothing else is known about it. */
module Clocks {

  class Clock {
    var now: nat

    constructor ()
    {
      now := *;
    }

    method Read() returns (t: nat)
      modifies this
      ensures old(now) <= now == t
    {
      var elapsed: int := *;
      if elapsed > 0 { now := now + elapsed; }
      t := now;
    }
  }

  /** Nanoseconds as seconds. */
  function Seconds(ns: int): real {
    ns as real / 1000000000.0
  }
}
