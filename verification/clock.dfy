/** The clock that a store asks for the time. */
module Clocks {

  /** `TimeConverter`; the system's clock is taken not to run backwards. */
  class Clock {
    var time: int

    constructor (time: int)
      ensures this.time == time
    {
      this.time := time;
    }

    method GetTimestamp() returns (now: int)
      modifies this
      ensures now == time && old(time) <= time
    {
      var system := *;
      if time < system {
        time := system;
      }
      now := time;
    }
  }
}
