/** The robot: a bounded energy store that every visited tile charges or drains. */
module Agent {
  import opened Tiles
  import opened EventLog

  /** `max(0, min(value, high))`: the value pulled into `[0, high]`. */
  function Clamp(value: int, high: int): (r: int)
    ensures r >= 0
    ensures high >= 0 ==> r <= high
    ensures 0 <= value <= high ==> r == value
    ensures value < 0 ==> r == 0
    ensures 0 <= high < value ==> r == high
  {
    var capped := if value < high then value else high;
    if capped > 0 then capped else 0
  }

  /** The robot's battery capacity. */
  const MaxBatteries: int := 10

  class Robot {
    var batteries: int
    const maxBatteries: int := MaxBatteries

    /** The energy lies within its bounds. */
    ghost predicate Valid()
      reads this
    {
      0 <= batteries <= maxBatteries
    }

    constructor ()
      ensures batteries == 5 && maxBatteries == 10
      ensures Valid()
    {
      batteries := 5;
    }

    /** Applies the tile's energy delta, clamps the energy to
        `[0, maxBatteries]`, and logs the tile's message. */
    method Update(tileContent: Tile, log: Log)
      modifies this, log
      ensures batteries == Clamp(old(batteries) + tileContent.BatteryDelta(), maxBatteries)
      ensures Valid()
      ensures log.logs == old(log.logs) + [tileContent.Message()]
    {
      batteries := batteries + tileContent.BatteryDelta();
      batteries := Clamp(batteries, maxBatteries);
      log.PushLog(tileContent.Message());
    }
  }
}
