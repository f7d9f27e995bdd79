/**
 * The world: tile types, tiles, the tile grid constants, the axis-aligned
 * box that every hitbox exposes, the four-button input snapshot and world
 * generation.
 */
module World {

  /** Grid constants: 20 tiles across, 10000 rows, 40 units per tile edge. */
  const WorldWidth: nat := 20
  const WorldHeight: nat := 10000
  const TileSize: nat := 40
  /** The top rows of the world are open sky. */
  const AboveGroundRows: nat := 5
  const TileCount: nat := WorldWidth * WorldHeight
  const SkyCells: nat := WorldWidth * AboveGroundRows
  /** Every tile is created with this many hit points. */
  const TileMaxHp: int := 10
  /** A ground cell becomes gold when its random roll is at most this value. */
  const GoldThreshold: int := 10

  datatype TileType = Air | Ground | Gold

  /** `hp` and `maxHp` are 32-bit signed in the game; see TileValid for why they never leave that range. */
  datatype Tile = Tile(cell: nat, kind: TileType, hp: int, maxHp: int)

  /** World coordinates of an axis-aligned rectangle; y grows downwards. */
  datatype Box = Box(top: int, bottom: int, left: int, right: int)

  /** One tick's worth of intent, as sampled from the keyboard. */
  datatype PlayerInput = PlayerInput(left: bool, right: bool, down: bool, up: bool)

  /** The input before any key has been sampled: nothing held. */
  const NoInput := PlayerInput(false, false, false, false)

  predicate Solid(t: Tile) {
    t.kind != Air
  }

  /** Tile invariant: hit points within [0, maxHp], and a tile that is still solid has some left. */
  predicate TileValid(t: Tile) {
    0 <= t.hp <= t.maxHp && (Solid(t) ==> t.hp > 0)
  }

  predicate WorldValid(tiles: seq<Tile>) {
    forall i :: 0 <= i < |tiles| ==> TileValid(tiles[i])
  }

  /** Every tile sits at the grid index named by its own cell. */
  predicate WellIndexed(tiles: seq<Tile>) {
    forall i :: 0 <= i < |tiles| ==> tiles[i].cell == i
  }

  /** A fresh tile of the given type, at full health. */
  function NewTile(cell: nat, kind: TileType): (t: Tile)
    ensures t.cell == cell && t.kind == kind
    ensures t.hp == t.maxHp == TileMaxHp
    ensures TileValid(t)
  {
    Tile(cell, kind, TileMaxHp, TileMaxHp)
  }

  /**
   * The box a tile occupies, derived from its cell: row `cell / WorldWidth`,
   * column `cell % WorldWidth`, each scaled by TileSize.
   */
  function TileBox(t: Tile): (b: Box)
    ensures b.bottom == b.top + TileSize && b.right == b.left + TileSize
    ensures 0 <= b.top && 0 <= b.left
  {
    var top := t.cell / WorldWidth * TileSize;
    var left := t.cell % WorldWidth * TileSize;
    Box(top, top + TileSize, left, left + TileSize)
  }

  /** A tile's box is aligned to the grid, lies within the world's width, and sits at its cell's row and column. */
  lemma TileBoxOnGrid(t: Tile)
    ensures TileBox(t).top % TileSize == 0 && TileBox(t).left % TileSize == 0
    ensures TileBox(t).right <= WorldWidth * TileSize
    ensures TileBox(t).top / TileSize == t.cell / WorldWidth
    ensures TileBox(t).left / TileSize == t.cell % WorldWidth
  {
  }

  /** The shape of every world that GenerateWorld can produce. */
  predicate IsGeneratedLayout(tiles: seq<Tile>) {
    |tiles| == TileCount &&
    forall i :: 0 <= i < |tiles| ==>
      tiles[i].cell == i && tiles[i].hp == tiles[i].maxHp == TileMaxHp &&
      (Solid(tiles[i]) <==> SkyCells <= i)
  }

  /**
   * Builds the world row by row: the sky cells are Air, every other cell is
   * Gold or Ground. `rolls` stands for the random number drawn for each
   * ground cell, in cell order.
   */
  method GenerateWorld(rolls: seq<int>) returns (world: seq<Tile>)
    requires |rolls| == TileCount - SkyCells
    ensures IsGeneratedLayout(world)
    ensures WellIndexed(world) && WorldValid(world)
    ensures forall i :: 0 <= i < SkyCells ==> world[i].kind == Air
    ensures forall i :: SkyCells <= i < |world| ==>
              (world[i].kind == Gold <==> rolls[i - SkyCells] <= GoldThreshold) &&
              (world[i].kind == Ground <==> rolls[i - SkyCells] > GoldThreshold)
  {
    world := [];
    var groundTiles := SkyCells;
    for i := 0 to groundTiles
      invariant |world| == i
      invariant forall j :: 0 <= j < i ==> world[j] == NewTile(j, Air)
    {
      world := world + [NewTile(i, Air)];
    }
    for i := groundTiles to TileCount
      invariant |world| == i
      invariant forall j :: 0 <= j < SkyCells ==> world[j] == NewTile(j, Air)
      invariant forall j :: SkyCells <= j < i ==>
                  world[j] == NewTile(j, if rolls[j - SkyCells] <= GoldThreshold then Gold else Ground)
    {
      var kind := if rolls[i - SkyCells] <= GoldThreshold then Gold else Ground;
      world := world + [NewTile(i, kind)];
    }
  }
}
