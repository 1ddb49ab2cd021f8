/** Worked games on tiny maps, stated as client methods of the model. */
module Scenarios {
  import opened Tiles
  import opened Grid
  import opened Agent
  import opened EventLog
  import opened Game

  /** A single empty cell holds nothing to collect, so the first iteration
      ends the game as won, before anything is displayed or read. */
  method SingleEmptyCellIsWon() returns (status: Status, shown: seq<string>)
    ensures status == Won && shown == []
  {
    var m := new Map([[Nothing]], 1, 1);
    var robot := new Robot();
    var log := new Log();
    assert m.mapData == map[(0, 0) := Nothing];
    status, shown := Step(m, robot, log, "up");
  }

  /** One directional turn on a single cell that still holds a collectible:
      the move hits the wall, costs one energy and logs the wall message. */
  method SingleCellTurn(m: Map, robot: Robot, log: Log, input: string) returns (status: Status)
    requires m.Valid() && m.width == 1 && m.height == 1 && Collectibles(m.mapData) != {}
    requires robot.Valid() && robot.batteries > 0 && Capitalize(input) in Keywords
    modifies m, robot, log
    ensures status == Running && m.Valid() && robot.Valid()
    ensures m.mapData == old(m.mapData) && m.playerPosition == old(m.playerPosition)
    ensures robot.batteries == old(robot.batteries) - 1
    ensures log.logs == ["You hurt youself on wall !"]
  {
    assert m.playerPosition == (0, 0);
    assert Target((0, 0), Capitalize(input), 1, 1) == None;
    var shown;
    status, shown := Step(m, robot, log, input);
  }

  /** Five directional turns, in mixed case, on a single cell that holds a
      collectible: each hits the wall, so the robot's energy drains to zero
      while the grid stays as it was. */
  method FiveWallTurns(m: Map, robot: Robot, log: Log) returns (status: Status)
    requires m.Valid() && m.width == 1 && m.height == 1 && Collectibles(m.mapData) != {}
    requires robot.Valid() && robot.batteries == 5
    modifies m, robot, log
    ensures status == Running && m.Valid() && robot.Valid()
    ensures m.mapData == old(m.mapData) && robot.batteries == 0
  {
    CapitalizeExamples();
    var inputs := ["up", "DOWN", "left", "Right", "rIGHT"];
    status := Running;
    for i := 0 to 5
      invariant m.Valid() && robot.Valid() && m.width == 1 && m.height == 1
      invariant m.mapData == old(m.mapData) && robot.batteries == 5 - i
      invariant status == Running
    {
      status := SingleCellTurn(m, robot, log, inputs[i]);
    }
  }

  /** On a single cell every direction hits the wall. A battery under the
      start position is never collected, so five moves drain the robot and
      the sixth iteration ends the game as lost. */
  method SingleBatteryCellIsLost() returns (status: Status, shown: seq<string>)
    ensures status == Lost && shown == []
  {
    var m := new Map([[Battery]], 1, 1);
    var robot := new Robot();
    var log := new Log();
    assert m.mapData[(0, 0)] == Battery;
    assert (0, 0) in Collectibles(m.mapData);
    status := FiveWallTurns(m, robot, log);
    status, shown := Step(m, robot, log, "up");
  }

  /** An unrecognised word is ignored: the grid and the robot stay as they
      were, and only the pending log is drained by the display cycle. */
  method UnknownWordIsIgnored() returns (status: Status, batteries: int, position: Pos)
    ensures status == Running && batteries == 5 && position == (1, 1)
  {
    var m := new Map([[Battery, Nothing, Hazard], [Nothing, Nothing, Nothing], [Booster, Hazard, Nothing]], 3, 3);
    var robot := new Robot();
    var log := new Log();
    assert (0, 0) in Collectibles(m.mapData);
    CapitalizeExamples();
    var shown;
    status, shown := Step(m, robot, log, "north");
    batteries, position := robot.batteries, m.playerPosition;
  }

  /** Stepping onto a hazard costs two energy and leaves the hazard in place,
      so a second visit costs two again. */
  method HazardStays() returns (first: Tile, second: Tile, batteries: int)
    ensures first == Hazard && second == Hazard && batteries == 0
  {
    var m := new Map([[Hazard, Nothing]], 1, 2);
    var robot := new Robot();
    var log := new Log();
    assert m.mapData[(0, 0)] == Hazard && m.mapData[(0, 1)] == Nothing;
    first := m.MovePlayer("Up");
    assert m.mapData[(0, 0)] == Hazard && m.mapData[(0, 1)] == Nothing;
    robot.Update(first, log);
    var back := m.MovePlayer("Down");
    assert m.mapData[(0, 0)] == Hazard && back == Nothing;
    robot.Update(back, log);
    second := m.MovePlayer("Up");
    robot.Update(second, log);
    batteries := robot.batteries;
  }

  /** Stepping onto a booster adds two energy and eats it, and the log shows
      the booster message. */
  method BoosterIsEaten() returns (boost: Tile, left: Tile, batteries: int, shown: seq<string>)
    ensures boost == Booster && left == Nothing && batteries == 7
    ensures shown == ["B-b-b-b-b-booooster kill ! + 2 energy"]
  {
    var m := new Map([[Booster], [Nothing]], 2, 1);
    var robot := new Robot();
    var log := new Log();
    assert m.mapData == map[(0, 0) := Booster, (1, 0) := Nothing] && m.playerPosition == (1, 0);
    boost := m.MovePlayer("Left");
    robot.Update(boost, log);
    left := m.mapData[(0, 0)];
    batteries := robot.batteries;
    shown := log.DisplayLogs();
  }
}
