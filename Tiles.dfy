/** The map-element registry: the six tile constants of the game.
    Each tile is a record of a character glyph, an energy delta, a log message
    and a placement weight. The constants are distinct records, so equality of
    tiles (by value or by identity) is equality of this datatype. */
module Tiles {

  datatype Tile = Hazard | Nothing | Battery | Booster | Player | Error {

    /** The glyph drawn for this tile. */
    function Character(): (r: char)
      ensures r == 'P' <==> this == Player
    {
      match this
      case Hazard => 'M'
      case Nothing => ' '
      case Battery => '+'
      case Booster => 'x'
      case Player => 'P'
      case Error => '.'
    }

    /** How much energy the robot gains (or loses) on this tile. */
    function BatteryDelta(): (r: int)
      ensures -2 <= r <= 2
      ensures r > 0 <==> IsCollectible()
    {
      match this
      case Hazard => -2
      case Nothing => -1
      case Battery => 1
      case Booster => 2
      case Player => 0
      case Error => -1
    }

    /** The log line pushed when the robot lands on this tile. */
    function Message(): (r: string)
      ensures r == "" <==> this == Player
    {
      match this
      case Hazard => "Hazard :(, you lost - 2 energy"
      case Nothing => "Nothing..."
      case Battery => "A battery ! + 1 energy"
      case Booster => "B-b-b-b-b-booooster kill ! + 2 energy"
      case Player => ""
      case Error => "You hurt youself on wall !"
    }

    /** The relative weight of this tile when a cell is generated. */
    function Weight(): (r: nat)
      ensures r == 0 <==> this == Player || this == Error
    {
      match this
      case Hazard => 2
      case Nothing => 5
      case Battery => 2
      case Booster => 1
      case Player => 0
      case Error => 0
    }

    /** A tile that is picked up (and so consumed) when the robot enters its cell. */
    predicate IsCollectible() {
      this == Battery || this == Booster
    }
  }

  /** The record view of a tile, field for field as the source declares it. */
  datatype Record = Record(character: char, batteryDelta: int, message: string, weight: nat)

  function ToRecord(t: Tile): Record {
    Record(t.Character(), t.BatteryDelta(), t.Message(), t.Weight())
  }

  /** Two tile constants are equal as records exactly when they are the same
      constant, so comparing by value and comparing by identity agree. */
  lemma RecordEqualityIsTileEquality(s: Tile, t: Tile)
    ensures ToRecord(s) == ToRecord(t) <==> s == t
  {
    assert s != t ==> s.Character() != t.Character();
  }

  /** The generation pool: the tiles a fresh grid cell may hold, in the
      source's order. The player marker and the wall sentinel are not in it. */
  const Elements: seq<Tile> := [Hazard, Nothing, Battery, Booster]

  /** A tile that generation can place on the grid. */
  predicate Spawnable(t: Tile) {
    t in Elements
  }

  lemma SpawnableTiles(t: Tile)
    ensures Spawnable(t) <==> t != Player && t != Error
    ensures Spawnable(t) ==> t.Weight() > 0
    ensures !Spawnable(t) ==> t.Weight() == 0
  {
    assert Elements[0] == Hazard && Elements[1] == Nothing;
    assert Elements[2] == Battery && Elements[3] == Booster;
  }
}
