// The steady clock: successive readings never go back.
module Clocks {
  class Clock {
    var now: int   // the last reading

    constructor ()
      ensures now == 0
    {
      now := 0;
    }

    method Read() returns (t: int)
      modifies this
      ensures old(now) <= now == t
    {
      var elapsed: int := *;
      if elapsed > 0 {
        now := now + elapsed;
      }
      t := now;
    }

    // std::this_thread::sleep_until, which may return late
    method SleepUntil(due: int)
      modifies this
      ensures old(now) <= now && due <= now
    {
      if now < due {
        now := due;
      }
      var _ := Read();
    }
  }
}
