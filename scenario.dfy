/**
 * Whole-tick behaviour: a box resting on a tile stays put, and a player
 * spawned in a generated world falls three units per tick and lands on
 * the surface.
 */
module Scenario {
  import opened Wrappers
  import opened World
  import opened GameState
  import opened Collision
  import opened PlayerTick

  /** Both gravity probes of a box, inside the world's width, whose bottom lies on a row boundary fall in the row just below it. */
  lemma GravityProbesRow(x: int, y: int)
    requires 0 <= x && x + PlayerSize <= WorldWidth * TileSize
    requires 0 <= y && (y + PlayerSize) % TileSize == 0
    ensures forall c :: c in ProbedCells(0, Gravity, Position(x, y)) ==> c / WorldWidth == (y + PlayerSize) / TileSize
  {
    assert ProbedCells(0, Gravity, Position(x, y)) == [ToTileCell(x + 1, y + PlayerSize + Gravity), ToTileCell(x + PlayerSize - 1, y + PlayerSize + Gravity)];
    TileCellRowColumn(x + 1, y + PlayerSize + Gravity);
    TileCellRowColumn(x + PlayerSize - 1, y + PlayerSize + Gravity);
  }

  /**
   * A box whose bottom lies on a row boundary, inside the world's width,
   * and whose fall is blocked has its gravity step clamped to zero: the
   * blocking tile's top is the box's bottom.
   */
  lemma RestingGravity(p: Position, tiles: seq<Tile>)
    requires WellIndexed(tiles)
    requires 0 <= p.x && p.x + PlayerSize <= WorldWidth * TileSize
    requires 0 <= p.y && (p.y + PlayerSize) % TileSize == 0
    requires ProbesInBounds(0, Gravity, p, tiles)
    requires Resolve(0, Gravity, p, tiles).blocking.Some?
    ensures Resolve(0, Gravity, p, tiles).velY == 0
  {
    var r := Resolve(0, Gravity, p, tiles);
    var c := r.blocking.value;
    GravityProbesRow(p.x, p.y);
    assert c / WorldWidth == (p.y + PlayerSize) / TileSize;
    assert tiles[c].cell == c;
    TileBoxOnGrid(tiles[c]);
    assert PlayerBox(Moved(p, 0, r.velY)).bottom == TileBox(tiles[c]).top;
  }

  /**
   * Such a box stays where it is when no key is held: it does not move,
   * it is on the ground and it digs nothing.
   */
  lemma RestingStaysPut(state: PlayerState, tiles: seq<Tile>)
    requires WellIndexed(tiles)
    requires 0 <= state.position.x && state.position.x + PlayerSize <= WorldWidth * TileSize
    requires 0 <= state.position.y && (state.position.y + PlayerSize) % TileSize == 0
    requires CanTick(state, tiles, NoInput)
    requires Resolve(0, Gravity, state.position, tiles).blocking.Some?
    ensures Tick(state, tiles, NoInput).state.position == state.position
    ensures Tick(state, tiles, NoInput).onGround
    ensures Tick(state, tiles, NoInput).dug == None
  {
    RestingGravity(state.position, tiles);
  }

  /** Height of the spawned player after `n` ticks without input: three units per tick until it rests on row 5. */
  function FallHeight(n: nat): int
  {
    if 3 * n < 170 then 3 * n else 170
  }

  function PlayerAt(y: int): PlayerState
  {
    PlayerState(Position(100, y), 0)
  }

  /** Row 5 begins at 200: both gravity probes of a box at height y land in row 4 or above while y + 33 < 200. */
  lemma FallingProbesInSky(y: int)
    requires 0 <= y && y + PlayerSize + Gravity < AboveGroundRows * TileSize
    ensures ToTileCell(101, y + PlayerSize + Gravity) < SkyCells
    ensures ToTileCell(129, y + PlayerSize + Gravity) < SkyCells
  {
    assert (y + PlayerSize + Gravity) / TileSize < AboveGroundRows;
  }

  /** A tick in open sky: nothing below within reach, so the player falls by the full gravity step. */
  lemma SkyTick(tiles: seq<Tile>, y: int)
    requires IsGeneratedLayout(tiles)
    requires 0 <= y && y + PlayerSize + Gravity < AboveGroundRows * TileSize
    ensures CanTick(PlayerAt(y), tiles, NoInput)
    ensures Tick(PlayerAt(y), tiles, NoInput) == TickOutcome(PlayerAt(y + Gravity), false, None)
  {
    var p := Position(100, y);
    assert ProbedCells(0, Gravity, p) == [ToTileCell(101, y + 33), ToTileCell(129, y + 33)];
    FallingProbesInSky(y);
    assert !Solid(tiles[ToTileCell(101, y + 33)]) && !Solid(tiles[ToTileCell(129, y + 33)]);
    assert Resolve(0, Gravity, p, tiles) == Resolution(None, 0, Gravity);
    assert ProbedCells(0, 0, Moved(p, 0, Gravity)) == [];
  }

  /** From height 168 or 170 the gravity probes reach cells 102 and 103, the first two ground cells under the spawn column. */
  lemma LandingProbes(y: int)
    requires y == 168 || y == 170
    ensures ProbedCells(0, Gravity, Position(100, y)) == [102, 103]
  {
    assert ProbedCells(0, Gravity, Position(100, y)) == [ToTileCell(101, y + 33), ToTileCell(129, y + 33)];
  }

  /** Cells 102 and 103 are ground at the same distance from the box, so the fold keeps the first of them. */
  lemma LandingNearest(tiles: seq<Tile>, y: int)
    requires IsGeneratedLayout(tiles)
    requires y == 168 || y == 170
    ensures Nearest([102, 103], tiles, Position(100, y)) == Some(102)
  {
    var p := Position(100, y);
    assert tiles[102].cell == 102 && tiles[103].cell == 103;
    assert Solid(tiles[102]) && Solid(tiles[103]);
    assert Distance(tiles[102], p) == Distance(tiles[103], p);
    assert IsFirstNearest([102, 103], tiles, p, 0);
    FirstNearestIsNearest([102, 103], tiles, p, 0);
  }

  /**
   * Gravity just above the surface (height 168 or 170): both probes reach
   * row 5 at equal distance, the left one (cell 102) wins the tie, and the
   * fall is clamped so the box rests on the surface at height 170.
   */
  lemma LandingGravity(tiles: seq<Tile>, y: int)
    requires IsGeneratedLayout(tiles)
    requires y == 168 || y == 170
    ensures ProbesInBounds(0, Gravity, Position(100, y), tiles)
    ensures Resolve(0, Gravity, Position(100, y), tiles) == Resolution(Some(102), 0, 170 - y)
  {
    LandingProbes(y);
    LandingNearest(tiles, y);
    assert TileBox(tiles[102]).top == 200;
  }

  /** The tick just above the surface lands the player at height 170, on the ground, digging nothing. */
  lemma LandingTick(tiles: seq<Tile>, y: int)
    requires IsGeneratedLayout(tiles)
    requires y == 168 || y == 170
    ensures CanTick(PlayerAt(y), tiles, NoInput)
    ensures Tick(PlayerAt(y), tiles, NoInput) == TickOutcome(PlayerAt(170), true, None)
  {
    var p := Position(100, y);
    LandingGravity(tiles, y);
    assert ProbedCells(0, 0, Moved(p, 0, 170 - y)) == [];
  }

  /** One tick of the fall, in a generated world. */
  lemma FallingTick(tiles: seq<Tile>, n: nat)
    requires IsGeneratedLayout(tiles)
    ensures CanTick(PlayerAt(FallHeight(n)), tiles, NoInput)
    ensures Tick(PlayerAt(FallHeight(n)), tiles, NoInput) == TickOutcome(PlayerAt(FallHeight(n + 1)), 56 <= n, None)
  {
    if n < 56 {
      SkyTick(tiles, FallHeight(n));
    } else {
      LandingTick(tiles, FallHeight(n));
    }
  }

  /** Every state of the trace is followed by the tick of the one before, with the grid unchanged. */
  ghost predicate TicksThrough(states: seq<PlayerState>, tiles: seq<Tile>, input: PlayerInput)
  {
    forall k :: 0 <= k < |states| - 1 ==>
      CanTick(states[k], tiles, input) &&
      Tick(states[k], tiles, input).state == states[k + 1] &&
      TickTiles(states[k], tiles, input) == tiles
  }

  /** The states of the first `n` ticks of the fall, the spawn state first. */
  function FallTrace(n: nat): seq<PlayerState>
  {
    seq(n + 1, k requires 0 <= k => PlayerAt(FallHeight(k)))
  }

  /**
   * The landing scenario: in any generated world, a player spawned with no
   * key held falls three units per tick through the sky, never moves
   * sideways, digs nothing, keeps the camera at the surface, and from tick
   * 57 on rests on the surface at height 170.
   */
  lemma FallAndLand(tiles: seq<Tile>, n: nat)
    requires IsGeneratedLayout(tiles)
    ensures FallTrace(n)[0] == NewPlayerState()
    ensures TicksThrough(FallTrace(n), tiles, NoInput)
  {
    var t := FallTrace(n);
    forall k | 0 <= k < n
      ensures CanTick(t[k], tiles, NoInput) && Tick(t[k], tiles, NoInput).state == t[k + 1] && TickTiles(t[k], tiles, NoInput) == tiles
    {
      FallingTick(tiles, k);
    }
  }
}
