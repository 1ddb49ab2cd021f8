/** The turn controller: the win check, the loss check, the display cycle, the
    normalised input line, and the move followed by the robot's update. */
module Game {
  import opened Tiles
  import opened Grid
  import opened Agent
  import opened EventLog

  datatype Status = Running | Won | Lost | Quit

  /** ASCII upper case; every other character is left alone. */
  function Upper(c: char): char {
    if 'a' <= c <= 'z' then (c as int - 32) as char else c
  }

  /** ASCII lower case; every other character is left alone. */
  function Lower(c: char): char {
    if 'A' <= c <= 'Z' then (c as int + 32) as char else c
  }

  function LowerAll(s: string): (r: string)
    ensures |r| == |s| && forall i :: 0 <= i < |s| ==> r[i] == Lower(s[i])
  {
    seq(|s|, i requires 0 <= i < |s| => Lower(s[i]))
  }

  /** `str.capitalize`: the first character upper case, the rest lower case. */
  function Capitalize(s: string): (r: string)
    ensures |r| == |s|
  {
    if s == [] then [] else [Upper(s[0])] + LowerAll(s[1..])
  }

  /** The two strings agree letter for letter once case is ignored. */
  predicate SameIgnoringCase(s: string, t: string) {
    |s| == |t| && forall i :: 0 <= i < |s| ==> Lower(s[i]) == Lower(t[i])
  }

  /** Capitalising never changes a string beyond its case. */
  lemma CapitalizeKeepsLetters(s: string)
    ensures SameIgnoringCase(Capitalize(s), s)
  {
    var r := Capitalize(s);
    forall i | 0 <= i < |s| ensures Lower(r[i]) == Lower(s[i]) {
      if i > 0 {
        assert r[i] == LowerAll(s[1..])[i - 1];
      }
    }
  }

  /** Inputs that differ only in case normalise to the same line. */
  lemma CapitalizeIgnoresCase(s: string, t: string)
    requires SameIgnoringCase(s, t)
    ensures Capitalize(s) == Capitalize(t)
  {
    if s != [] {
      assert Upper(s[0]) == Upper(Lower(s[0])) == Upper(Lower(t[0])) == Upper(t[0]);
      assert LowerAll(s[1..]) == LowerAll(t[1..]) by {
        forall i | 0 <= i < |s| - 1 ensures LowerAll(s[1..])[i] == LowerAll(t[1..])[i] {
          assert Lower(s[1..][i]) == Lower(s[i + 1]);
        }
      }
    }
  }

  /** Capitalising a capitalised line changes nothing, so the second
      capitalisation before the move is harmless. */
  lemma CapitalizeIdempotent(s: string)
    ensures Capitalize(Capitalize(s)) == Capitalize(s)
  {
    CapitalizeKeepsLetters(s);
    CapitalizeIgnoresCase(Capitalize(s), s);
  }

  /** A line normalises to a capitalised word exactly when it spells that word
      in any mix of cases. */
  lemma CapitalizeMatches(s: string, word: string)
    requires Capitalize(word) == word
    ensures Capitalize(s) == word <==> SameIgnoringCase(s, word)
  {
    if SameIgnoringCase(s, word) {
      CapitalizeIgnoresCase(s, word);
    }
    if Capitalize(s) == word {
      CapitalizeKeepsLetters(s);
      assert SameIgnoringCase(word, s);
    }
  }

  /** The command words are their own capitalisations, so each is recognised
      in every mix of cases. */
  lemma CommandsCapitalized()
    ensures Capitalize("Quit") == "Quit"
    ensures forall k :: k in Keywords ==> Capitalize(k) == k
  {
    assert Capitalize("Up") == "Up";
    assert Capitalize("Down") == "Down";
    assert Capitalize("Left") == "Left";
    assert Capitalize("Right") == "Right";
  }

  /** The normalisation examples: every casing of a direction gives the same
      word, and an unknown word stays unknown. */
  lemma CapitalizeExamples()
    ensures Capitalize("up") == Capitalize("UP") == Capitalize("Up") == "Up"
    ensures Capitalize("DOWN") == "Down" && Capitalize("left") == "Left"
    ensures Capitalize("rIGHT") == Capitalize("Right") == "Right"
    ensures Capitalize("quit") == "Quit"
    ensures Capitalize("north") !in Keywords && Capitalize("north") != "Quit"
  {
    assert LowerAll("p") == "p";
    assert LowerAll("P") == "p";
    var own := LowerAll("OWN");
    assert own[0] == 'o' && own[1] == 'w' && own[2] == 'n';
    var eft := LowerAll("eft");
    assert eft[0] == 'e' && eft[1] == 'f' && eft[2] == 't';
    var ight := LowerAll("IGHT");
    assert ight[0] == 'i' && ight[1] == 'g' && ight[2] == 'h' && ight[3] == 't';
    var ight' := LowerAll("ight");
    assert ight'[0] == 'i' && ight'[1] == 'g' && ight'[2] == 'h' && ight'[3] == 't';
    var uit := LowerAll("uit");
    assert uit[0] == 'u' && uit[1] == 'i' && uit[2] == 't';
    assert Capitalize("north")[0] == 'N';
  }

  /** No battery and no booster left is the same as no cell left to collect. */
  lemma NothingToCollect(g: map<Pos, Tile>)
    ensures ((exists p :: p in g && g[p] == Battery) || (exists p :: p in g && g[p] == Booster))
            <==> Collectibles(g) != {}
  {
    if Collectibles(g) != {} {
      var p :| p in Collectibles(g);
      assert g[p] == Battery || g[p] == Booster;
    } else {
      forall p | p in g ensures g[p] != Battery && g[p] != Booster {
        assert p !in Collectibles(g);
      }
    }
  }

  /** The two end-of-game checks, in their fixed order: the win check first
      (no battery and no booster anywhere), then the loss check (no energy). */
  method CheckEnd(m: Map, robot: Robot) returns (status: Status)
    ensures status == Won <==> Collectibles(m.mapData) == {}
    ensures status == Lost <==> Collectibles(m.mapData) != {} && robot.batteries == 0
    ensures status == Running <==> Collectibles(m.mapData) != {} && robot.batteries != 0
  {
    var battery := m.HasElement(Battery);
    var booster := m.HasElement(Booster);
    NothingToCollect(m.mapData);
    if !battery && !booster {
      return Won;
    }
    if robot.batteries == 0 {
      return Lost;
    }
    return Running;
  }

  /** The game state as a value: the grid, the player's position, the
      robot's energy and the pending log. */
  datatype Snapshot = Snapshot(grid: map<Pos, Tile>, position: Pos, batteries: int, logs: seq<string>)

  /** What one pass of the loop body yields: the status, the new state and
      the messages the display cycle showed. */
  datatype Outcome = Outcome(status: Status, after: Snapshot, shown: seq<string>)

  /** What the loop yields on a list of input lines: the status it stops
      with, the final state and how many lines it read. */
  datatype Ending = Ending(status: Status, final: Snapshot, consumed: nat)

  /** The grid is well formed, the player stands on it, the energy is in range. */
  ghost predicate SnapshotValid(s: Snapshot, width: nat, height: nat) {
    WellFormed(s.grid, width, height) && InBounds(s.position, width, height) &&
    0 <= s.batteries <= MaxBatteries
  }

  function SnapshotOf(m: Map, robot: Robot, log: Log): Snapshot
    reads m, robot, log
  {
    Snapshot(m.mapData, m.playerPosition, robot.batteries, log.logs)
  }

  /** The two end-of-game checks on a state, win first. */
  function Verdict(s: Snapshot): (status: Status)
    ensures status == Won <==> Collectibles(s.grid) == {}
    ensures status == Lost <==> Collectibles(s.grid) != {} && s.batteries == 0
    ensures status == Won || status == Lost || status == Running
  {
    if Collectibles(s.grid) == {} then Won
    else if s.batteries == 0 then Lost
    else Running
  }

  /** One pass of the loop body on values: the checks, the drain of the log by
      the display cycle, the normalised line, and the move with its update. */
  function Turn(s: Snapshot, line: string, width: nat, height: nat): (o: Outcome)
    requires SnapshotValid(s, width, height)
    ensures SnapshotValid(o.after, width, height)
    ensures Collectibles(o.after.grid) <= Collectibles(s.grid)
    ensures o.status == Won || o.status == Lost <==> Verdict(s) != Running
    ensures o.status != Running && o.status != Quit ==> o.status == Verdict(s) && o.after == s && o.shown == []
    ensures o.status == Quit <==> Verdict(s) == Running && Capitalize(line) == "Quit"
    ensures Verdict(s) == Running ==> o.shown == s.logs
    ensures Verdict(s) == Running && Capitalize(line) !in Keywords ==> o.after == s.(logs := [])
    ensures Verdict(s) == Running && Capitalize(line) in Keywords ==>
      o.after.logs == [Entered(s.grid, s.position, Capitalize(line), width, height).Message()]
  {
    if Verdict(s) != Running then Outcome(Verdict(s), s, [])
    else
      var cmd := Capitalize(line);
      if cmd == "Quit" then Outcome(Quit, s.(logs := []), s.logs)
      else if cmd !in Keywords then Outcome(Running, s.(logs := []), s.logs)
      else
        var tile := Entered(s.grid, s.position, cmd, width, height);
        var energy := Clamp(s.batteries + tile.BatteryDelta(), MaxBatteries);
        match Target(s.position, cmd, width, height)
        case None => Outcome(Running, Snapshot(s.grid, s.position, energy, [tile.Message()]), s.logs)
        case Some(q) =>
          ConsumeWellFormed(s.grid, q, width, height);
          Outcome(Running, Snapshot(Consume(s.grid, q), q, energy, [tile.Message()]), s.logs)
  }

  /** The loop on values: turns until a terminal status, or until the lines
      run out, when the end-of-game checks run once more. */
  function Play(s: Snapshot, inputs: seq<string>, width: nat, height: nat): (e: Ending)
    requires SnapshotValid(s, width, height)
    ensures SnapshotValid(e.final, width, height)
    ensures e.consumed <= |inputs|
    ensures Collectibles(e.final.grid) <= Collectibles(s.grid)
    ensures e.status == Won <==> Collectibles(e.final.grid) == {}
    ensures e.status == Lost <==> Collectibles(e.final.grid) != {} && e.final.batteries == 0
    ensures e.status == Running ==> e.consumed == |inputs|
    ensures e.status == Quit ==> 0 < e.consumed && Capitalize(inputs[e.consumed - 1]) == "Quit"
    ensures forall i :: 0 <= i < e.consumed && !(e.status == Quit && i == e.consumed - 1) ==>
      Capitalize(inputs[i]) != "Quit"
    decreases |inputs|
  {
    if inputs == [] then Ending(Verdict(s), s, 0)
    else
      var o := Turn(s, inputs[0], width, height);
      if o.status == Won || o.status == Lost then Ending(o.status, s, 0)
      else if o.status == Quit then Ending(Quit, o.after, 1)
      else
        var rest := Play(o.after, inputs[1..], width, height);
        assert forall i :: 1 <= i < |inputs| ==> inputs[1..][i - 1] == inputs[i];
        Ending(rest.status, rest.final, rest.consumed + 1)
  }

  /** One pass of the loop body. A finished game changes nothing. Otherwise
      the display cycle drains the log, the input line is capitalised, "Quit"
      ends the game, any other non-keyword is ignored, and a direction moves
      the player and updates the robot with the tile it reports. */
  method Step(m: Map, robot: Robot, log: Log, input: string) returns (status: Status, shown: seq<string>)
    requires m.Valid() && robot.Valid()
    modifies m, robot, log
    ensures m.Valid() && robot.Valid()
    ensures Outcome(status, SnapshotOf(m, robot, log), shown) ==
      Turn(old(SnapshotOf(m, robot, log)), input, m.width, m.height)
    ensures Collectibles(m.mapData) <= old(Collectibles(m.mapData))
    ensures status == Won <==> old(Collectibles(m.mapData)) == {}
    ensures status == Lost <==> old(Collectibles(m.mapData)) != {} && old(robot.batteries) == 0
    ensures status == Quit <==>
      old(Collectibles(m.mapData)) != {} && old(robot.batteries) != 0 && Capitalize(input) == "Quit"
    ensures status == Won || status == Lost ==>
      shown == [] && unchanged(m) && unchanged(robot) && unchanged(log)
    ensures status == Quit || status == Running ==> shown == old(log.logs)
    ensures status == Quit || (status == Running && Capitalize(input) !in Keywords) ==>
      unchanged(m) && unchanged(robot) && log.logs == []
    ensures status == Running && Capitalize(input) in Keywords ==>
      var tile := Entered(old(m.mapData), old(m.playerPosition), Capitalize(input), m.width, m.height);
      (match Target(old(m.playerPosition), Capitalize(input), m.width, m.height)
       case None => m.playerPosition == old(m.playerPosition) && m.mapData == old(m.mapData)
       case Some(q) => m.playerPosition == q && m.mapData == Consume(old(m.mapData), q)) &&
      robot.batteries == Clamp(old(robot.batteries) + tile.BatteryDelta(), robot.maxBatteries) &&
      log.logs == [tile.Message()]
  {
    shown := [];
    status := CheckEnd(m, robot);
    if status != Running {
      return;
    }
    shown := log.DisplayLogs();
    var inputMsg := Capitalize(input);
    if inputMsg == "Quit" {
      return Quit, shown;
    }
    if inputMsg !in Keywords {
      return;
    }
    CapitalizeIdempotent(input);
    var tileContent := m.MovePlayer(Capitalize(inputMsg));
    CollectiblesNeverIncrease(old(m.mapData), m.playerPosition);
    robot.Update(tileContent, log);
  }

  /** The game loop fed a finite sequence of input lines. It stops at the first
      terminal state, or, still running, when the lines run out. */
  method Run(m: Map, robot: Robot, log: Log, inputs: seq<string>) returns (status: Status, consumed: nat)
    requires m.Valid() && robot.Valid()
    modifies m, robot, log
    ensures m.Valid() && robot.Valid()
    ensures Ending(status, SnapshotOf(m, robot, log), consumed) ==
      Play(old(SnapshotOf(m, robot, log)), inputs, m.width, m.height)
    ensures consumed <= |inputs|
    ensures Collectibles(m.mapData) <= old(Collectibles(m.mapData))
    ensures status == Won <==> Collectibles(m.mapData) == {}
    ensures status == Lost <==> Collectibles(m.mapData) != {} && robot.batteries == 0
    ensures status == Quit ==> 0 < consumed && Capitalize(inputs[consumed - 1]) == "Quit"
    ensures forall i :: 0 <= i < consumed && !(status == Quit && i == consumed - 1) ==>
      Capitalize(inputs[i]) != "Quit"
    ensures status == Running ==> consumed == |inputs|
  {
    ghost var start := SnapshotOf(m, robot, log);
    ghost var width, height := m.width, m.height;
    consumed := 0;
    while true
      invariant m.Valid() && robot.Valid() && consumed <= |inputs|
      invariant var rest := Play(SnapshotOf(m, robot, log), inputs[consumed..], width, height);
        Play(start, inputs, width, height) == Ending(rest.status, rest.final, rest.consumed + consumed)
      decreases |inputs| - consumed
    {
      ghost var before := SnapshotOf(m, robot, log);
      ghost var lines := inputs[consumed..];
      if consumed == |inputs| {
        assert lines == [];
        status := CheckEnd(m, robot);
        assert status == Verdict(before);
        return;
      }
      assert lines[0] == inputs[consumed] && lines[1..] == inputs[consumed + 1..];
      var shown;
      status, shown := Step(m, robot, log, inputs[consumed]);
      ghost var o := Turn(before, inputs[consumed], width, height);
      assert o == Outcome(status, SnapshotOf(m, robot, log), shown);
      if status == Won || status == Lost {
        assert Play(before, lines, width, height) == Ending(status, before, 0);
        return;
      }
      consumed := consumed + 1;
      if status == Quit {
        assert Play(before, lines, width, height) == Ending(Quit, o.after, 1);
        return;
      }
      ghost var rest := Play(o.after, inputs[consumed..], width, height);
      assert Play(before, lines, width, height) == Ending(rest.status, rest.final, rest.consumed + 1);
    }
  }
}
