/**
 * The player's position and state, the coordinate-to-cell mapping of the
 * grid, and digging a tile.
 */
module GameState {
  import opened World

  /** The player's box is a 30 x 30 square anchored at its top-left corner. */
  const PlayerSize: int := 30

  datatype Position = Position(x: int, y: int)

  datatype PlayerState = PlayerState(position: Position, cameraOffset: int)

  /** The player's hitbox in world coordinates. */
  function PlayerBox(p: Position): (b: Box)
    ensures b.top == p.y && b.left == p.x
    ensures b.bottom == b.top + PlayerSize && b.right == b.left + PlayerSize
  {
    Box(p.y, p.y + PlayerSize, p.x, p.x + PlayerSize)
  }

  /** The player at the start of the game: in the open sky, inside the world's width, camera at the surface. */
  function NewPlayerState(): (s: PlayerState)
    ensures s.cameraOffset == 0
    ensures 0 <= PlayerBox(s.position).left && PlayerBox(s.position).right <= WorldWidth * TileSize
    ensures 0 <= PlayerBox(s.position).top && PlayerBox(s.position).bottom <= AboveGroundRows * TileSize
  {
    PlayerState(Position(100, 0), 0)
  }

  /** A float-to-unsigned cast on an integral value: negatives saturate to 0. */
  function Saturate(v: int): (n: nat)
    ensures v >= 0 ==> n == v
    ensures v < 0 ==> n == 0
  {
    if v < 0 then 0 else v
  }

  /**
   * The grid cell under a world point: row-major, column `x / TileSize`,
   * row `y / TileSize`, after saturating negative coordinates to 0. Columns
   * are not clamped, so a point right of the world lands in a later row.
   */
  function ToTileCell(x: int, y: int): (cell: nat)
  {
    Saturate(y) / TileSize * WorldWidth + Saturate(x) / TileSize
  }

  /** Within the world's width, the cell's row is the saturated y over TileSize and its column the saturated x over TileSize. */
  lemma TileCellRowColumn(x: int, y: int)
    requires Saturate(x) < WorldWidth * TileSize
    ensures ToTileCell(x, y) / WorldWidth == Saturate(y) / TileSize
    ensures ToTileCell(x, y) % WorldWidth == Saturate(x) / TileSize
  {
  }

  /** Mapping a tile's own top-left corner back to a cell gives the tile's cell. */
  lemma TileCellRoundTrip(t: Tile)
    ensures ToTileCell(TileBox(t).left, TileBox(t).top) == t.cell
  {
    TileBoxOnGrid(t);
  }

  /** The tile whose cell a point maps to contains that point (within the world's width). */
  lemma CellContainsPoint(x: int, y: int, t: Tile)
    requires 0 <= x < WorldWidth * TileSize && 0 <= y
    requires t.cell == ToTileCell(x, y)
    ensures TileBox(t).left <= x < TileBox(t).right
    ensures TileBox(t).top <= y < TileBox(t).bottom
  {
    TileCellRowColumn(x, y);
    var b := TileBox(t);
    assert b.left == x / TileSize * TileSize;
    assert b.top == y / TileSize * TileSize;
  }

  /** A point one world-width right of the grid maps to the cell one row further down. */
  lemma ColumnSpill(x: int, y: int)
    requires WorldWidth * TileSize <= x && 0 <= y
    ensures ToTileCell(x, y) == ToTileCell(x - WorldWidth * TileSize, y + TileSize)
  {
    assert x / TileSize == (x - WorldWidth * TileSize) / TileSize + WorldWidth;
    assert (y + TileSize) / TileSize == y / TileSize + 1;
  }

  /** One hit on a tile: one hit point less, and Air once no hit points remain. */
  function Damaged(t: Tile): (r: Tile)
    ensures r.cell == t.cell && r.maxHp == t.maxHp
    ensures r.hp == t.hp - 1
    ensures r.kind == Air <==> (r.hp <= 0 || t.kind == Air)
    ensures Solid(r) ==> r.kind == t.kind
    ensures TileValid(t) && Solid(t) ==> TileValid(r)
  {
    var hit := t.(hp := t.hp - 1);
    if hit.hp <= 0 then hit.(kind := Air) else hit
  }

  /** Digs the tile at index `i` in place. */
  method Dig(tiles: array<Tile>, i: nat)
    requires i < tiles.Length
    modifies tiles
    ensures tiles[..] == old(tiles[..])[i := Damaged(old(tiles[i]))]
  {
    tiles[i] := tiles[i].(hp := tiles[i].hp - 1);
    if tiles[i].hp <= 0 {
      tiles[i] := tiles[i].(kind := Air);
    }
  }

  /** The tile after `n` successive hits. */
  function DamagedTimes(t: Tile, n: nat): Tile
  {
    if n == 0 then t else Damaged(DamagedTimes(t, n - 1))
  }

  /**
   * A solid tile with `h` hit points survives `h - 1` hits with its type
   * intact, turns to Air on hit number `h`, and stays Air afterwards; each hit
   * costs exactly one hit point.
   */
  lemma {:induction false} DigsUntilDestroyed(t: Tile, n: nat)
    requires Solid(t) && t.hp > 0
    ensures DamagedTimes(t, n).hp == t.hp - n
    ensures DamagedTimes(t, n).cell == t.cell && DamagedTimes(t, n).maxHp == t.maxHp
    ensures Solid(DamagedTimes(t, n)) <==> n < t.hp
    ensures n < t.hp ==> DamagedTimes(t, n).kind == t.kind
  {
    if n > 0 {
      DigsUntilDestroyed(t, n - 1);
    }
  }
}
