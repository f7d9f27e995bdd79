/**
 * Axis-separated collision: probe the leading edge of the player's box,
 * find the nearest solid tile under the probes, and clamp the velocity so
 * the box just touches it.
 */
module Collision {
  import opened Wrappers
  import opened World
  import opened GameState

  type Point = (int, int)

  /** The blocking tile's index (if any) and the velocity after clamping. */
  datatype Resolution = Resolution(blocking: Option<nat>, velX: int, velY: int)

  function Abs(v: int): nat
  {
    if v < 0 then -v else v
  }

  /** A position moved by a velocity. */
  function Moved(p: Position, dx: int, dy: int): Position
  {
    Position(p.x + dx, p.y + dy)
  }

  /**
   * The probe points, in scan order: first the two corners of the vertical
   * leading edge (inset by 1 horizontally, left corner first), then the two
   * corners of the horizontal leading edge (inset by 1 vertically, lower
   * corner first). An axis with zero velocity contributes no probe.
   */
  function ScanPoints(velX: int, velY: int, pos: Position): (ps: seq<Point>)
  {
    var b := PlayerBox(pos);
    var vertical: seq<Point> :=
      if velY > 0 then [(b.left + 1, b.bottom), (b.right - 1, b.bottom)]
      else if velY < 0 then [(b.left + 1, b.top), (b.right - 1, b.top)]
      else [];
    var horizontal: seq<Point> :=
      if velX > 0 then [(b.right, b.bottom - 1), (b.right, b.top + 1)]
      else if velX < 0 then [(b.left, b.bottom - 1), (b.left, b.top + 1)]
      else [];
    vertical + horizontal
  }

  /**
   * Two probes per moving axis; the vertical ones sit on the top or bottom
   * edge strictly between the box's sides, the horizontal ones on the left
   * or right edge strictly between its top and bottom.
   */
  lemma ScanPointsOnLeadingEdge(velX: int, velY: int, pos: Position)
    ensures var ps := ScanPoints(velX, velY, pos);
            |ps| == (if velY != 0 then 2 else 0) + (if velX != 0 then 2 else 0) &&
            (velY != 0 ==>
              PlayerBox(pos).left < ps[0].0 < ps[1].0 < PlayerBox(pos).right &&
              ps[0].1 == ps[1].1 == (if velY > 0 then PlayerBox(pos).bottom else PlayerBox(pos).top)) &&
            (velX != 0 ==>
              var h := if velY != 0 then 2 else 0;
              PlayerBox(pos).bottom > ps[h].1 > ps[h + 1].1 > PlayerBox(pos).top &&
              ps[h].0 == ps[h + 1].0 == (if velX > 0 then PlayerBox(pos).right else PlayerBox(pos).left))
  {
  }

  /** The cells the probes reach once offset by the full velocity, in scan order. */
  function ProbedCells(velX: int, velY: int, pos: Position): seq<nat>
  {
    var ps := ScanPoints(velX, velY, pos);
    seq(|ps|, i requires 0 <= i < |ps| => ToTileCell(ps[i].0 + velX, ps[i].1 + velY))
  }

  predicate CellsInBounds(cells: seq<nat>, tiles: seq<Tile>) {
    forall i :: 0 <= i < |cells| ==> cells[i] < |tiles|
  }

  /** Every probed cell exists; the game panics on an index past the end of the grid. */
  predicate ProbesInBounds(velX: int, velY: int, pos: Position, tiles: seq<Tile>) {
    CellsInBounds(ProbedCells(velX, velY, pos), tiles)
  }

  /** Manhattan distance from the player's top-left corner to a tile's top-left corner. */
  function Distance(t: Tile, pos: Position): nat
  {
    Abs(TileBox(t).left - PlayerBox(pos).left) + Abs(TileBox(t).top - PlayerBox(pos).top)
  }

  /** One step of the fold: a later candidate replaces the current one only when strictly nearer. */
  function Closer(closest: Option<nat>, next: nat, tiles: seq<Tile>, pos: Position): Option<nat>
    requires next < |tiles|
    requires closest.Some? ==> closest.value < |tiles|
  {
    match closest
    case None => Some(next)
    case Some(c) => if Distance(tiles[next], pos) < Distance(tiles[c], pos) then Some(next) else Some(c)
  }

  /** The left fold over the candidate cells that skips Air and keeps the nearest solid tile. */
  function Nearest(cells: seq<nat>, tiles: seq<Tile>, pos: Position): (r: Option<nat>)
    requires CellsInBounds(cells, tiles)
    ensures r.Some? ==> r.value in cells && r.value < |tiles| && Solid(tiles[r.value])
    ensures r.None? <==> forall i :: 0 <= i < |cells| ==> !Solid(tiles[cells[i]])
    decreases |cells|
  {
    if cells == [] then None
    else
      var init := cells[..|cells| - 1];
      var next := cells[|cells| - 1];
      var closest := Nearest(init, tiles, pos);
      if Solid(tiles[next]) then Closer(closest, next, tiles, pos) else closest
  }

  /** One more candidate: the fold over a one-longer prefix takes one more step. */
  lemma NearestExtend(cells: seq<nat>, tiles: seq<Tile>, pos: Position, k: nat)
    requires CellsInBounds(cells, tiles) && k < |cells|
    ensures CellsInBounds(cells[..k], tiles) && CellsInBounds(cells[..k + 1], tiles)
    ensures Nearest(cells[..k + 1], tiles, pos) ==
              if Solid(tiles[cells[k]]) then Closer(Nearest(cells[..k], tiles, pos), cells[k], tiles, pos)
              else Nearest(cells[..k], tiles, pos)
  {
    assert cells[..k + 1][..k] == cells[..k];
  }

  /**
   * `cells[k]` is solid, no solid candidate is nearer, and every solid
   * candidate before it in scan order is strictly farther.
   */
  ghost predicate IsFirstNearest(cells: seq<nat>, tiles: seq<Tile>, pos: Position, k: int)
    requires CellsInBounds(cells, tiles)
  {
    0 <= k < |cells| && Solid(tiles[cells[k]]) &&
    (forall j :: 0 <= j < |cells| && Solid(tiles[cells[j]]) ==>
       Distance(tiles[cells[k]], pos) <= Distance(tiles[cells[j]], pos)) &&
    (forall j :: 0 <= j < k && Solid(tiles[cells[j]]) ==>
       Distance(tiles[cells[k]], pos) < Distance(tiles[cells[j]], pos))
  }

  /** A last candidate that is Air or not strictly nearer keeps the prefix's first nearest. */
  lemma FirstNearestKept(cells: seq<nat>, tiles: seq<Tile>, pos: Position, k: int)
    requires CellsInBounds(cells, tiles) && cells != []
    requires CellsInBounds(cells[..|cells| - 1], tiles)
    requires IsFirstNearest(cells[..|cells| - 1], tiles, pos, k)
    requires Solid(tiles[cells[|cells| - 1]]) ==>
               Distance(tiles[cells[k]], pos) <= Distance(tiles[cells[|cells| - 1]], pos)
    ensures IsFirstNearest(cells, tiles, pos, k)
  {
    var init := cells[..|cells| - 1];
    assert forall j :: 0 <= j < |init| ==> init[j] == cells[j];
  }

  /** A solid last candidate strictly nearer than every solid one before it is the first nearest. */
  lemma FirstNearestIsLast(cells: seq<nat>, tiles: seq<Tile>, pos: Position)
    requires CellsInBounds(cells, tiles) && cells != []
    requires Solid(tiles[cells[|cells| - 1]])
    requires forall j :: 0 <= j < |cells| - 1 && Solid(tiles[cells[j]]) ==>
               Distance(tiles[cells[|cells| - 1]], pos) < Distance(tiles[cells[j]], pos)
    ensures IsFirstNearest(cells, tiles, pos, |cells| - 1)
  {
  }

  /** What the fold finds is the first nearest solid candidate. */
  lemma {:induction false} NearestFindsFirstNearest(cells: seq<nat>, tiles: seq<Tile>, pos: Position)
    requires CellsInBounds(cells, tiles)
    ensures Nearest(cells, tiles, pos).Some? ==>
              exists k :: IsFirstNearest(cells, tiles, pos, k) && Nearest(cells, tiles, pos).value == cells[k]
    decreases |cells|
  {
    if cells != [] {
      var n := |cells| - 1;
      var init := cells[..n];
      var next := cells[n];
      assert CellsInBounds(init, tiles);
      NearestFindsFirstNearest(init, tiles, pos);
      var prev := Nearest(init, tiles, pos);
      if prev.Some? {
        var k :| IsFirstNearest(init, tiles, pos, k) && prev.value == init[k];
        if Solid(tiles[next]) && Distance(tiles[next], pos) < Distance(tiles[prev.value], pos) {
          FirstNearestIsLast(cells, tiles, pos);
          assert Nearest(cells, tiles, pos).value == cells[n];
        } else {
          FirstNearestKept(cells, tiles, pos, k);
          assert Nearest(cells, tiles, pos).value == cells[k];
        }
      } else if Solid(tiles[next]) {
        FirstNearestIsLast(cells, tiles, pos);
        assert Nearest(cells, tiles, pos).value == cells[n];
      }
    }
  }

  /** At most one index is the first nearest. */
  lemma FirstNearestUnique(cells: seq<nat>, tiles: seq<Tile>, pos: Position, k1: int, k2: int)
    requires CellsInBounds(cells, tiles)
    requires IsFirstNearest(cells, tiles, pos, k1) && IsFirstNearest(cells, tiles, pos, k2)
    ensures k1 == k2
  {
  }

  /** The tie-break, stated from the other side: the first nearest solid candidate is what the fold returns. */
  lemma FirstNearestIsNearest(cells: seq<nat>, tiles: seq<Tile>, pos: Position, k: int)
    requires CellsInBounds(cells, tiles)
    requires IsFirstNearest(cells, tiles, pos, k)
    ensures Nearest(cells, tiles, pos) == Some(cells[k])
  {
    NearestFindsFirstNearest(cells, tiles, pos);
    var k' :| IsFirstNearest(cells, tiles, pos, k') && Nearest(cells, tiles, pos).value == cells[k'];
    FirstNearestUnique(cells, tiles, pos, k, k');
  }

  /** The velocity clamped against the blocking tile, if there is one; the vertical axis first. */
  function Clamp(nearest: Option<nat>, velX: int, velY: int, pos: Position, tiles: seq<Tile>): Resolution
    requires nearest.Some? ==> nearest.value < |tiles|
  {
    match nearest
    case None => Resolution(None, velX, velY)
    case Some(i) =>
      var tile := TileBox(tiles[i]);
      var b := PlayerBox(pos);
      if velY > 0 then Resolution(nearest, velX, tile.top - b.bottom)
      else if velY < 0 then Resolution(nearest, velX, tile.bottom - b.top)
      else if velX > 0 then Resolution(nearest, tile.left - b.right, velY)
      else if velX < 0 then Resolution(nearest, tile.right - b.left, velY)
      else Resolution(None, velX, velY)
  }

  /**
   * The specification of move_prep: the nearest solid probed tile, and the
   * velocity clamped to the gap between the box's leading edge and that
   * tile's facing edge. The vertical axis takes precedence when both move.
   */
  function Resolve(velX: int, velY: int, pos: Position, tiles: seq<Tile>): (r: Resolution)
    requires ProbesInBounds(velX, velY, pos, tiles)
    ensures velX == 0 && velY == 0 ==> r == Resolution(None, 0, 0)
    ensures r.blocking.Some? ==>
              r.blocking.value in ProbedCells(velX, velY, pos) &&
              r.blocking.value < |tiles| && Solid(tiles[r.blocking.value])
    ensures r.blocking.None? <==>
              forall i :: 0 <= i < |ProbedCells(velX, velY, pos)| ==> !Solid(tiles[ProbedCells(velX, velY, pos)[i]])
    ensures r.blocking.None? ==> r.velX == velX && r.velY == velY
    ensures r.blocking.Some? && velY > 0 ==>
              r.velX == velX && PlayerBox(Moved(pos, 0, r.velY)).bottom == TileBox(tiles[r.blocking.value]).top
    ensures r.blocking.Some? && velY < 0 ==>
              r.velX == velX && PlayerBox(Moved(pos, 0, r.velY)).top == TileBox(tiles[r.blocking.value]).bottom
    ensures r.blocking.Some? && velY == 0 && velX > 0 ==>
              r.velY == velY && PlayerBox(Moved(pos, r.velX, 0)).right == TileBox(tiles[r.blocking.value]).left
    ensures r.blocking.Some? && velY == 0 && velX < 0 ==>
              r.velY == velY && PlayerBox(Moved(pos, r.velX, 0)).left == TileBox(tiles[r.blocking.value]).right
  {
    Clamp(Nearest(ProbedCells(velX, velY, pos), tiles, pos), velX, velY, pos, tiles)
  }

  /** The blocking tile is the first probe, in scan order, among the nearest solid ones. */
  lemma ResolvePicksFirstNearest(velX: int, velY: int, pos: Position, tiles: seq<Tile>)
    requires ProbesInBounds(velX, velY, pos, tiles)
    ensures Resolve(velX, velY, pos, tiles).blocking.Some? ==>
              exists k :: IsFirstNearest(ProbedCells(velX, velY, pos), tiles, pos, k) &&
                          Resolve(velX, velY, pos, tiles).blocking.value == ProbedCells(velX, velY, pos)[k]
  {
    NearestFindsFirstNearest(ProbedCells(velX, velY, pos), tiles, pos);
  }

  /** The first half of move_prep: push the probe points of each moving axis, vertical axis first. */
  method PositionsToScan(velX: int, velY: int, pos: Position) returns (positionsToScan: seq<Point>)
    ensures positionsToScan == ScanPoints(velX, velY, pos)
  {
    var b := PlayerBox(pos);
    positionsToScan := [];
    if velY > 0 {
      positionsToScan := positionsToScan + [(b.left + 1, b.bottom)];
      positionsToScan := positionsToScan + [(b.right - 1, b.bottom)];
    } else if velY < 0 {
      positionsToScan := positionsToScan + [(b.left + 1, b.top)];
      positionsToScan := positionsToScan + [(b.right - 1, b.top)];
    }
    if velX > 0 {
      positionsToScan := positionsToScan + [(b.right, b.bottom - 1)];
      positionsToScan := positionsToScan + [(b.right, b.top + 1)];
    } else if velX < 0 {
      positionsToScan := positionsToScan + [(b.left, b.bottom - 1)];
      positionsToScan := positionsToScan + [(b.left, b.top + 1)];
    }
  }

  /**
   * move_prep: collect the probe points, then scan them in order, mapping
   * each to its cell, skipping Air and keeping the nearest tile; finally
   * clamp the velocity against it.
   */
  method MovePrep(velX: int, velY: int, pos: Position, tiles: seq<Tile>) returns (r: Resolution)
    requires ProbesInBounds(velX, velY, pos, tiles)
    ensures r == Resolve(velX, velY, pos, tiles)
  {
    var positionsToScan := PositionsToScan(velX, velY, pos);

    ghost var cells := ProbedCells(velX, velY, pos);
    var nearest: Option<nat> := None;
    for k := 0 to |positionsToScan|
      invariant CellsInBounds(cells[..k], tiles)
      invariant nearest == Nearest(cells[..k], tiles, pos)
    {
      var cell := ToTileCell(positionsToScan[k].0 + velX, positionsToScan[k].1 + velY);
      assert cell == cells[k];
      NearestExtend(cells, tiles, pos, k);
      if tiles[cell].kind != Air {
        nearest := Closer(nearest, cell, tiles, pos);
      }
    }
    assert cells[..|positionsToScan|] == cells;
    assert nearest == Nearest(cells, tiles, pos);

    var b := PlayerBox(pos);
    if nearest.Some? {
      var tile := TileBox(tiles[nearest.value]);
      if velY > 0 {
        return Resolution(nearest, velX, tile.top - b.bottom);
      } else if velY < 0 {
        return Resolution(nearest, velX, tile.bottom - b.top);
      }
      if velX > 0 {
        return Resolution(nearest, tile.left - b.right, velY);
      } else if velX < 0 {
        return Resolution(nearest, tile.right - b.left, velY);
      }
    }
    return Resolution(None, velX, velY);
  }
}
