/** The grid map: a width-by-height dictionary from coordinates to tiles plus
    the player's position, with generation, presence search and movement. */
module Grid {
  import opened Tiles

  type Pos = (int, int)

  datatype Option<T> = None | Some(value: T)

  /** The four direction words a move understands (also the game's keywords). */
  const Keywords: seq<string> := ["Up", "Down", "Left", "Right"]

  predicate InBounds(p: Pos, width: int, height: int) {
    0 <= p.0 < width && 0 <= p.1 < height
  }

  /** `q` differs from `p` in exactly one coordinate, and by exactly one. */
  predicate Adjacent(p: Pos, q: Pos) {
    (p.0 == q.0 && (q.1 == p.1 + 1 || q.1 == p.1 - 1)) ||
    (p.1 == q.1 && (q.0 == p.0 + 1 || q.0 == p.0 - 1))
  }

  /** Every cell of a width-by-height grid. */
  ghost function Cells(width: nat, height: nat): set<Pos> {
    set x, y | 0 <= x < width && 0 <= y < height :: (x, y)
  }

  /** A grid with exactly the cells of the rectangle as keys, each holding a
      tile that generation can place (never the player marker or the wall). */
  ghost predicate WellFormed(g: map<Pos, Tile>, width: nat, height: nat) {
    (forall p :: p in g <==> InBounds(p, width, height)) &&
    (forall p :: p in g ==> Spawnable(g[p]))
  }

  /** The cells that still hold something to collect. */
  function Collectibles(g: map<Pos, Tile>): set<Pos> {
    set p | p in g && g[p].IsCollectible()
  }

  /** The draws of the random source, one per cell: `draws[x][y]` is the tile
      chosen for cell (x, y), always one of the generation pool. */
  ghost predicate DrawsFit(draws: seq<seq<Tile>>, width: nat, height: nat) {
    |draws| == width &&
    forall x :: 0 <= x < width ==> |draws[x]| == height && forall y :: 0 <= y < height ==> Spawnable(draws[x][y])
  }

  /** The start position: the centre cell, by floor division. */
  function StartPosition(width: nat, height: nat): (p: Pos)
    ensures 0 <= 2 * p.0 <= width < 2 * p.0 + 2
    ensures 0 <= 2 * p.1 <= height < 2 * p.1 + 2
    ensures width >= 1 && height >= 1 ==> InBounds(p, width, height)
  {
    (width / 2, height / 2)
  }

  /** The neighbour one unit away in a direction: the reference geometry of a
      move, independent of the grid's bounds. */
  function Neighbour(pos: Pos, direction: string): (r: Option<Pos>)
    ensures r.Some? <==> direction in Keywords
    ensures r.Some? ==> Adjacent(pos, r.value)
  {
    if direction == "Up" then Some((pos.0, pos.1 - 1))
    else if direction == "Down" then Some((pos.0, pos.1 + 1))
    else if direction == "Left" then Some((pos.0 - 1, pos.1))
    else if direction == "Right" then Some((pos.0 + 1, pos.1))
    else None
  }

  /** The four keywords name exactly the four adjacent cells, one each. */
  lemma KeywordsNameTheNeighbours(pos: Pos)
    ensures |Keywords| == 4
    ensures forall i, j :: 0 <= i < j < |Keywords| ==> Neighbour(pos, Keywords[i]) != Neighbour(pos, Keywords[j])
    ensures forall q :: Adjacent(pos, q) <==> exists k :: k in Keywords && Neighbour(pos, k) == Some(q)
  {
    forall q | Adjacent(pos, q) ensures exists k :: k in Keywords && Neighbour(pos, k) == Some(q) {
      var k := if q.1 == pos.1 - 1 && q.0 == pos.0 then "Up"
               else if q.1 == pos.1 + 1 && q.0 == pos.0 then "Down"
               else if q.0 == pos.0 - 1 then "Left" else "Right";
      assert k in Keywords && Neighbour(pos, k) == Some(q);
    }
  }

  /** Where a move in `direction` takes the player, or None when the guarded
      step is refused (an unknown word, or the edge of the grid). */
  function Target(pos: Pos, direction: string, width: int, height: int): (r: Option<Pos>)
    ensures r.Some? ==> r == Neighbour(pos, direction) && Adjacent(pos, r.value)
    ensures InBounds(pos, width, height) ==>
      (r.Some? <==> Neighbour(pos, direction).Some? && InBounds(Neighbour(pos, direction).value, width, height))
    ensures r.Some? && InBounds(pos, width, height) ==> InBounds(r.value, width, height)
    ensures direction !in Keywords ==> r.None?
  {
    var x, y := pos.0, pos.1;
    if direction == "Up" && y > 0 then Some((x, y - 1))
    else if direction == "Down" && y < height - 1 then Some((x, y + 1))
    else if direction == "Left" && x > 0 then Some((x - 1, y))
    else if direction == "Right" && x < width - 1 then Some((x + 1, y))
    else None
  }

  /** The tile a move in `direction` reports: the content of the entered cell,
      or the wall sentinel when the step is refused. */
  function Entered(g: map<Pos, Tile>, pos: Pos, direction: string, width: nat, height: nat): (t: Tile)
    requires WellFormed(g, width, height) && InBounds(pos, width, height)
    ensures t == Error <==> Target(pos, direction, width, height).None?
    ensures Spawnable(t) <==> Target(pos, direction, width, height).Some?
  {
    match Target(pos, direction, width, height)
    case None => Error
    case Some(q) => g[q]
  }

  /** The grid after the player enters cell `p`: whatever was there is eaten
      and becomes Nothing, except that a hazard stays. */
  function Consume(g: map<Pos, Tile>, p: Pos): (r: map<Pos, Tile>)
    ensures r.Keys == g.Keys + {p}
    ensures forall q :: q in g && q != p ==> r[q] == g[q]
    ensures r[p] == Hazard <==> p in g && g[p] == Hazard
    ensures r[p] == Hazard || r[p] == Nothing
    ensures Collectibles(r) == Collectibles(g) - {p}
  {
    if p in g && g[p] == Hazard then g else g[p := Nothing]
  }

  /** Consuming a cell of the grid keeps the grid well formed. */
  lemma ConsumeWellFormed(g: map<Pos, Tile>, p: Pos, width: nat, height: nat)
    requires WellFormed(g, width, height) && InBounds(p, width, height)
    ensures WellFormed(Consume(g, p), width, height)
  {
    var r := Consume(g, p);
    assert Spawnable(Nothing) && Spawnable(Hazard) by { SpawnableTiles(Nothing); SpawnableTiles(Hazard); }
    forall q | q in r ensures Spawnable(r[q]) {
      if q != p { assert q in g; }
    }
  }

  /** The number of cells left to collect never grows when a cell is entered. */
  lemma CollectiblesNeverIncrease(g: map<Pos, Tile>, p: Pos)
    ensures |Collectibles(Consume(g, p))| <= |Collectibles(g)|
    ensures p in Collectibles(g) ==> |Collectibles(Consume(g, p))| == |Collectibles(g)| - 1
  {
    var before, after := Collectibles(g), Collectibles(Consume(g, p));
    assert after == before - {p};
    if p in before {
      assert before == after + {p};
    } else {
      assert after == before;
    }
  }

  /** The cells of column `x`. */
  ghost function Column(x: int, height: nat): set<Pos> {
    set y | 0 <= y < height :: (x, y)
  }

  lemma {:induction false} ColumnCount(x: int, height: nat)
    ensures |Column(x, height)| == height
  {
    if height > 0 {
      ColumnCount(x, height - 1);
      assert Column(x, height) == Column(x, height - 1) + {(x, height - 1)};
    }
  }

  /** A width-by-height grid has width * height cells. */
  lemma {:induction false} CellCount(width: nat, height: nat)
    ensures |Cells(width, height)| == width * height
  {
    if width > 0 {
      CellCount(width - 1, height);
      ColumnCount(width - 1, height);
      var rest, column := Cells(width - 1, height), Column(width - 1, height);
      assert Cells(width, height) == rest + column;
      assert rest !! column;
      assert |rest + column| == |rest| + |column|;
      assert (width - 1) * height + height == width * height;
    }
  }

  /** A well-formed grid holds one entry per cell: width * height in all. */
  lemma WellFormedSize(g: map<Pos, Tile>, width: nat, height: nat)
    requires WellFormed(g, width, height)
    ensures |g| == width * height
  {
    assert g.Keys == Cells(width, height);
    CellCount(width, height);
  }

  /** Fills a dictionary cell by cell, column by column, with the draws of the
      random source. */
  method GenerateMap(width: nat, height: nat, draws: seq<seq<Tile>>) returns (grid: map<Pos, Tile>)
    requires DrawsFit(draws, width, height)
    ensures WellFormed(grid, width, height)
    ensures forall p :: p in grid ==> grid[p] == draws[p.0][p.1]
  {
    grid := map[];
    for x := 0 to width
      invariant forall p :: p in grid <==> 0 <= p.0 < x && 0 <= p.1 < height
      invariant forall p :: p in grid ==> grid[p] == draws[p.0][p.1]
    {
      for y := 0 to height
        invariant forall p :: p in grid <==> (0 <= p.0 < x && 0 <= p.1 < height) || (p.0 == x && 0 <= p.1 < y)
        invariant forall p :: p in grid ==> grid[p] == draws[p.0][p.1]
      {
        grid := grid[(x, y) := draws[x][y]];
      }
    }
  }

  class Map {
    const width: nat
    const height: nat
    var mapData: map<Pos, Tile>
    var playerPosition: Pos

    /** The grid is well formed and the player stands on it. */
    ghost predicate Valid()
      reads this
    {
      WellFormed(mapData, width, height) && InBounds(playerPosition, width, height)
    }

    constructor (draws: seq<seq<Tile>>, width: nat := 10, height: nat := 10)
      requires DrawsFit(draws, width, height)
      ensures this.width == width && this.height == height
      ensures WellFormed(mapData, width, height)
      ensures forall p :: p in mapData ==> mapData[p] == draws[p.0][p.1]
      ensures playerPosition == StartPosition(width, height)
      ensures width >= 1 && height >= 1 ==> Valid()
    {
      this.width := width;
      this.height := height;
      var grid := GenerateMap(width, height, draws);
      mapData := grid;
      playerPosition := (width / 2, height / 2);
    }

    /** Linear search over the grid values, stopping at the first match. */
    method HasElement(element: Tile) returns (found: bool)
      ensures found <==> exists p :: p in mapData && mapData[p] == element
    {
      var rest := mapData.Values;
      while rest != {}
        invariant rest <= mapData.Values
        invariant element !in mapData.Values - rest
        decreases |rest|
      {
        var value :| value in rest;
        if value == element {
          return true;
        }
        rest := rest - {value};
      }
      return false;
    }

    /** Tries a unit step. A refused step returns the wall sentinel and changes
        nothing; an accepted one moves the player, returns the tile that was
        in the entered cell and consumes that cell. */
    method MovePlayer(direction: string) returns (tile: Tile)
      requires Valid()
      modifies this
      ensures Valid()
      ensures tile == Entered(old(mapData), old(playerPosition), direction, width, height)
      ensures Target(old(playerPosition), direction, width, height).None? ==>
        tile == Error && playerPosition == old(playerPosition) && mapData == old(mapData)
      ensures Target(old(playerPosition), direction, width, height).Some? ==>
        playerPosition == Target(old(playerPosition), direction, width, height).value &&
        mapData == Consume(old(mapData), playerPosition)
    {
      var x, y := playerPosition.0, playerPosition.1;
      if direction == "Up" && y > 0 {
        y := y - 1;
      } else if direction == "Down" && y < height - 1 {
        y := y + 1;
      } else if direction == "Left" && x > 0 {
        x := x - 1;
      } else if direction == "Right" && x < width - 1 {
        x := x + 1;
      } else {
        return Error;
      }
      playerPosition := (x, y);
      tile := mapData[playerPosition];
      ConsumeWellFormed(mapData, playerPosition, width, height);
      if tile != Hazard {
        mapData := mapData[playerPosition := Nothing];
      }
    }
  }
}
