# Robot grid game — a verified Dafny model

This project models the game logic of `Robot.py`. It is a terminal game in which a robot walks a
width-by-height grid. It collects batteries and boosters and suffers from hazards. The game is won
when no battery or booster is left on the grid and lost when the robot's energy reaches zero.

The model follows the program's parts:

- `Tiles` (Tiles.dfy): the six tile constants: hazard, nothing, battery, booster, player marker and
  the wall sentinel `Error`. Each has its glyph, energy delta, message and generation weight. The
  messages are kept verbatim, including the spelling "youself" in the wall message.
- `Grid` (Grid.dfy): the `Map` class. Its fields are `width`, `height`, the dictionary `mapData`
  from `(x, y)` to a tile, and `playerPosition`. Generation fills the dictionary in nested loops.
  `HasElement` is a linear search with early exit. `MovePlayer` makes a bounds-checked unit step
  and consumes the entered cell. Pure functions say where a move leads (`Target`, checked against
  the plain geometry `Neighbour`) and what it does to the grid (`Consume`).
- `Agent` (Agent.dfy): the `Robot` class. It holds the battery count, clamped to `[0, 10]`, and
  `Update` applies a tile.
- `EventLog` (EventLog.dfy): the append-only `Log`, drained in order by the display cycle.
- `Game` (Game.dfy): the turn loop. `CheckEnd` runs the win check and then the loss check.
  `Step` is one pass of the loop body. `Run` is the loop fed a finite list of input lines. The
  input line is normalised by `Capitalize`, which models `str.capitalize`.
- `Scenarios` (Scenarios.dfy): small worked games on 1×1, 1×2, 2×1 and 3×3 maps.

The global objects of the program (the log, the map, the robot) are passed to the game-loop
methods explicitly. The random source of map generation is a parameter: `draws[x][y]` is the tile
drawn for cell `(x, y)`, and each draw is one of the four tiles in the generation pool.

Behaviour of the code worth knowing:

- The wall message is "You hurt youself on wall !", spelt as in the source.
- An unknown word or "Quit" leaves the map and the robot unchanged but the log drained, because
  the display cycle runs before the input is read. `Step` and `Turn` state this.
- A 1×1 map holding only Nothing is won before any input. One holding a Battery is lost after
  five wall hits: every move on a 1×1 map hits the wall, and the start cell is never consumed, so
  the battery can never be collected. `Scenarios.SingleEmptyCellIsWon` and
  `Scenarios.SingleBatteryCellIsLost` state both outcomes.
- `Run` is proved to end in the state that the pure `Play` gives. `Play` folds the pure one-turn
  function `Turn` over the input lines. `Step` is proved to do exactly what `Turn` does.

## Model

| member | source | states |
|---|---|---|
| `Tiles.Tile.Character` | Robot.py:17-22 | the glyph of each constant as in the source (`M`, space, `+`, `x`, `P`, `.`); `P` belongs to the player marker alone |
| `Tiles.Tile.BatteryDelta` | Robot.py:17-22 | the energy delta of each constant as in the source (-2, -1, +1, +2, 0, -1); all lie in [-2, 2], and only a battery or a booster gives energy |
| `Tiles.Tile.Message` | Robot.py:17-22 | the six messages verbatim, "youself" included; only the player marker's is empty |
| `Tiles.Tile.Weight` | Robot.py:17-22 | the generation weight of each constant as in the source (2, 5, 2, 1, 0, 0); it is 0 exactly for the player marker and the wall |
| `Tiles.RecordEqualityIsTileEquality` | Robot.py:17-22 | two tile constants are equal as records exactly when they are the same constant, so value equality (line 36) and identity (line 57) agree |
| `Tiles.SpawnableTiles` | Robot.py:66-68 | the generation pool is exactly the tiles other than the player marker and the wall; pool tiles have positive weight and the other two have weight 0 |
| `Grid.StartPosition` | Robot.py:29 | the start position is the centre cell by floor division, and it lies inside the grid whenever both dimensions are at least 1 |
| `Grid.Neighbour` | Robot.py:45-52 | a direction word gives a neighbour exactly when it is one of the four keywords, and that neighbour is one unit away in exactly one coordinate |
| `Grid.KeywordsNameTheNeighbours` | Robot.py:45-52 | the keywords of line 145 are four, they lead to four different neighbours, and together they reach exactly the cells adjacent to the position |
| `Grid.Target` | Robot.py:44-54 | an accepted step goes to the direction's neighbour, changing one coordinate by exactly 1; from a cell on the grid the step is accepted exactly when that neighbour lies on the grid, and the new position then stays on it; an unknown word is always refused |
| `Grid.Entered` | Robot.py:53-56 | the tile a move reports is the wall sentinel exactly when the step is refused, and a pool tile exactly when it is accepted |
| `Grid.Consume` | Robot.py:55-58 | entering a cell adds no key and changes no other cell; the entered cell ends as a hazard exactly when it was one, and otherwise as Nothing; the collectible cells lose exactly the entered cell |
| `Grid.ConsumeWellFormed` | Robot.py:55-58 | consuming a cell of a well-formed grid leaves it well formed: same keys, pool tiles only |
| `Grid.CollectiblesNeverIncrease` | Robot.py:55-58 | the number of battery and booster cells never grows on a move, and drops by one when a collectible is entered |
| `Grid.ColumnCount` | Robot.py:71 | a column of the grid has `height` cells |
| `Grid.CellCount` | Robot.py:70-71 | a width-by-height grid has `width * height` cells |
| `Grid.WellFormedSize` | Robot.py:62-74 | a well-formed grid has exactly `width * height` entries |
| `Grid.GenerateMap` | Robot.py:62-74 | the nested loops produce a grid whose keys are exactly the cells of the rectangle, each holding its draw, which is never the player marker or the wall |
| `Grid.Map.constructor` | Robot.py:25-29 | a new map has the given dimensions (10 by 10 when not given) and a generated well-formed grid, starts at the centre, and is valid (player on the grid) when both dimensions are at least 1 |
| `Grid.Map.HasElement` | Robot.py:31-38 | returns true exactly when some cell of the grid holds the given tile |
| `Grid.Map.MovePlayer` | Robot.py:40-59 | a refused step returns the wall sentinel and leaves position and grid unchanged; an accepted one moves to the target, returns the tile that was there, and consumes that cell; the map stays valid |
| `Agent.Clamp` | Robot.py:111 | the result is never negative and never above the maximum; a value already in range is kept; a negative value becomes 0 and one above the maximum becomes the maximum |
| `Agent.Robot.constructor` | Robot.py:94-96 | a new robot has 5 of 10 batteries |
| `Agent.Robot.Update` | Robot.py:106-112 | the energy becomes the clamp of old energy plus the tile's delta, so it stays within `[0, 10]`; exactly the tile's message is appended to the log, for every tile including the wall and empty messages |
| `EventLog.Log.constructor` | Robot.py:115-116 | a new log is empty |
| `EventLog.Log.PushLog` | Robot.py:118-119 | a push appends its message unconditionally at the end |
| `EventLog.Log.DisplayLogs` | Robot.py:121-124 | draining hands over every pending message in push order and leaves the log empty |
| `EventLog.PushThenDrain` | Robot.py:118-124 | messages pushed one by one come out of the next drain after whatever was pending, in push order |
| `Game.Capitalize` | Robot.py:155 | normalising keeps the length of the line |
| `Game.CapitalizeKeepsLetters` | Robot.py:155 | normalising changes a line only in the case of its letters |
| `Game.CapitalizeIgnoresCase` | Robot.py:155 | lines that differ only in case normalise to the same line |
| `Game.CapitalizeIdempotent` | Robot.py:155-160 | normalising twice is normalising once, so the second `capitalize` before the move changes nothing |
| `Game.CapitalizeMatches` | Robot.py:155-158 | a line normalises to a capitalised word exactly when it spells that word in any mix of cases |
| `Game.CommandsCapitalized` | Robot.py:145-158 | "Quit" and the four keywords are their own normal forms, so each is accepted in every casing |
| `Game.CapitalizeExamples` | Robot.py:155-158 | "up", "UP" and "Up" all normalise to "Up"; "quit" normalises to "Quit"; "north" is neither a keyword nor "Quit" |
| `Game.NothingToCollect` | Robot.py:148 | the grid has a battery or a booster exactly when its set of collectible cells is non-empty |
| `Game.CheckEnd` | Robot.py:148-153 | Won exactly when nothing is left to collect, whatever the energy; otherwise Lost exactly when the energy is 0; otherwise Running |
| `Game.Verdict` | Robot.py:148-153 | on a game state: Won exactly when nothing is left to collect, whatever the energy; otherwise Lost exactly when the energy is 0; otherwise Running |
| `Game.Turn` | Robot.py:147-161 | one pass of the loop body on values: a finished game is returned as it is with nothing shown; otherwise the pending log is shown and drained; "Quit" ends the game and another non-keyword is ignored, both leaving grid, position and energy as they were; a keyword leaves exactly the reported tile's message in the log; the state stays valid and collectibles never increase |
| `Game.Play` | Robot.py:147-161 | the loop on values over a list of lines: it stops Won exactly when nothing is left to collect and Lost exactly when energy is 0 with collectibles left; it stops Quit at the FIRST line that normalises to "Quit"; it reads every line when still running; collectibles never increase |
| `Game.Step` | Robot.py:147-161 | the new state, status and shown messages are exactly those of `Turn` on the old state; also stated directly: the win check, then the loss check; a finished game changes nothing; otherwise the pending log is shown and drained; "Quit" in any casing ends the game and a word outside the keywords is ignored, both leaving map and robot unchanged; a keyword moves as `MovePlayer` does, updates the robot with the reported tile, and leaves exactly that tile's message in the log |
| `Game.Run` | Robot.py:147-161 | the final status, state and number of lines read are exactly those of `Play` on the starting state and the lines; so it stops at the first terminal state, Quit at the first line that normalises to "Quit", and otherwise runs until the input is used up; collectibles never increase |
| `Scenarios.SingleEmptyCellIsWon` | Robot.py:148-150 | a 1×1 map holding only Nothing is won on the first iteration, before anything is shown |
| `Scenarios.SingleCellTurn` | Robot.py:44-54 | on a 1×1 map every keyword hits the wall, costs one energy, logs the wall message and leaves the grid and position unchanged |
| `Scenarios.FiveWallTurns` | Robot.py:106-112 | five wall hits from 5 energy leave the robot at 0 with the grid unchanged |
| `Scenarios.SingleBatteryCellIsLost` | Robot.py:147-161 | a 1×1 map holding a battery is never won: after five wall hits the next iteration ends the game as lost |
| `Scenarios.UnknownWordIsIgnored` | Robot.py:158-159 | the input "north" keeps the game running with position and energy unchanged |
| `Scenarios.HazardStays` | Robot.py:55-59 | a hazard stays a hazard when entered, so visiting it twice costs two energy twice |
| `Scenarios.BoosterIsEaten` | Robot.py:55-59 | entering a booster adds two energy, turns the cell into Nothing and logs the booster message |

## Left out

- Weighted random choice (Robot.py:73): the probability distribution is not modelled. Each draw is
  a parameter constrained only to lie in the generation pool.
- Terminal output and pacing: `display_map`, `display_batteries`, the `Visualizer` (screen
  clearing, `time.sleep`), the win and loss messages. The log drain returns its messages instead
  of printing them.
- Reading input: `input()` is replaced by an input string given to `Step`, or a list of lines
  given to `Run`. End of input raises an exception in the source; `Run` just stops and reports
  Running.
- Process-wide objects (Robot.py:141-144) become explicit parameters. The live game's 5×5
  dimensions are left to the caller. The constructor keeps the 10×10 defaults, but `draws` has to
  come first, because it has no default.
- Grid.Map.constructor: dimensions are natural numbers. Negative dimensions, which Python accepts
  and which give an empty grid, are not modelled.
- Grid.Map.MovePlayer: requires the player to be on the grid. A map with a zero dimension
  breaks this. On such a map Python's `dict.get` would return `None`, and the following `update`
  would raise. The model does not include that crash path.
- Game.Capitalize: case mapping covers ASCII letters only. Python's Unicode title-case and
  lower-case mappings are not modelled. Those mappings can change a line's length.
- Grid.Map.HasElement: searches the set of distinct grid values, not the value list in dictionary
  order. The result is the same, but the order of the search is not modelled.
