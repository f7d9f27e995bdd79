/**
 * One simulation tick: input to velocity, vertical then horizontal
 * collision, ground contact, at most one dig, and the next player state.
 */
module PlayerTick {
  import opened Wrappers
  import opened World
  import opened GameState
  import opened Collision

  /** Units per tick moved upwards while `up` is held. */
  const JumpSpeed: int := 3
  /** Units per tick fallen whenever `up` is not held. */
  const Gravity: int := 3
  /** The camera starts to follow once the player is this far below the top of the world. */
  const CameraFollowDepth: int := 400

  datatype Velocity = Velocity(x: int, y: int)

  /** Everything a tick decides: the next state, ground contact and the tile it digs, if any. */
  datatype TickOutcome = TickOutcome(state: PlayerState, onGround: bool, dug: Option<nat>)

  function Max(a: int, b: int): int
  {
    if a < b then b else a
  }

  /**
   * The velocity the input asks for: left beats right, one unit sideways;
   * up means rising, anything else means falling under gravity.
   */
  function IntendedVelocity(input: PlayerInput): (v: Velocity)
    ensures v.x < 0 <==> input.left
    ensures v.x > 0 <==> !input.left && input.right
    ensures -1 <= v.x <= 1
    ensures v.y < 0 <==> input.up
    ensures v.y == -JumpSpeed || v.y == Gravity
  {
    var vx := if input.left then -1 else if input.right then 1 else 0;
    var vy := if input.up then -JumpSpeed else Gravity;
    Velocity(vx, vy)
  }

  /** Both collision queries of a tick stay inside the grid (otherwise the game panics). */
  predicate CanTick(state: PlayerState, tiles: seq<Tile>, input: PlayerInput) {
    var v := IntendedVelocity(input);
    var pos := state.position;
    ProbesInBounds(0, v.y, pos, tiles) &&
    ProbesInBounds(v.x, 0, Moved(pos, 0, Resolve(0, v.y, pos, tiles).velY), tiles)
  }

  /** The grid after digging the given tile, if any. */
  function ApplyDig(tiles: seq<Tile>, dug: Option<nat>): (r: seq<Tile>)
    requires dug.Some? ==> dug.value < |tiles|
    ensures |r| == |tiles|
    ensures forall j :: 0 <= j < |tiles| && dug != Some(j) ==> r[j] == tiles[j]
    ensures dug.Some? ==> r[dug.value] == Damaged(tiles[dug.value])
  {
    match dug
    case None => tiles
    case Some(i) => tiles[i := Damaged(tiles[i])]
  }

  /**
   * The specification of update_player_state. The vertical axis is resolved
   * from the current position, the horizontal axis from the vertically moved
   * one; the player is on the ground when a tile stopped the vertical move
   * from below. Holding `down` digs the tile that stopped the vertical move
   * (the one above when `up` is held as well); otherwise, on the ground, the
   * tile that stopped the sideways move; otherwise nothing.
   */
  function Tick(state: PlayerState, tiles: seq<Tile>, input: PlayerInput): (o: TickOutcome)
    requires CanTick(state, tiles, input)
    ensures var v := IntendedVelocity(input);
            var vertical := Resolve(0, v.y, state.position, tiles);
            var newPos := Moved(state.position, 0, vertical.velY);
            var horizontal := Resolve(v.x, 0, newPos, tiles);
            o.state.position == Moved(state.position, horizontal.velX, vertical.velY) &&
            (o.onGround <==> !input.up && vertical.blocking.Some?) &&
            (input.down && vertical.blocking.Some? ==> o.dug == vertical.blocking) &&
            (!(input.down && vertical.blocking.Some?) ==>
               o.dug == (if o.onGround then horizontal.blocking else None))
    ensures o.dug.Some? ==> o.dug.value < |tiles| && Solid(tiles[o.dug.value])
    ensures o.state.cameraOffset >= 0 && o.state.cameraOffset >= o.state.position.y - CameraFollowDepth
    ensures o.state.cameraOffset == 0 || o.state.cameraOffset == o.state.position.y - CameraFollowDepth
  {
    var v := IntendedVelocity(input);
    var current := state.position;
    var vertical := Resolve(0, v.y, current, tiles);
    var newPos := Moved(current, 0, vertical.velY);
    var horizontal := Resolve(v.x, 0, newPos, tiles);
    var onGround :=
      match vertical.blocking
      case Some(i) => PlayerBox(newPos).top < TileBox(tiles[i]).top
      case None => false;
    var dug :=
      if vertical.blocking.Some? && input.down then vertical.blocking
      else if horizontal.blocking.Some? && onGround then horizontal.blocking
      else None;
    var newPosition := Moved(current, horizontal.velX, vertical.velY);
    TickOutcome(PlayerState(newPosition, Max(0, newPosition.y - CameraFollowDepth)), onGround, dug)
  }

  /** The grid after a tick. */
  function TickTiles(state: PlayerState, tiles: seq<Tile>, input: PlayerInput): seq<Tile>
    requires CanTick(state, tiles, input)
  {
    ApplyDig(tiles, Tick(state, tiles, input).dug)
  }

  /**
   * A tick changes at most one tile, and only by one hit; every tile keeps
   * its cell, and the tile invariant of the world is preserved.
   */
  lemma TickDigsAtMostOneTile(state: PlayerState, tiles: seq<Tile>, input: PlayerInput)
    requires CanTick(state, tiles, input)
    ensures var after := TickTiles(state, tiles, input);
            |after| == |tiles| &&
            (forall j, k :: 0 <= j < k < |tiles| && after[j] != tiles[j] ==> after[k] == tiles[k]) &&
            (forall j :: 0 <= j < |tiles| && after[j] != tiles[j] ==> after[j] == Damaged(tiles[j]))
    ensures WellIndexed(tiles) ==> WellIndexed(TickTiles(state, tiles, input))
    ensures WorldValid(tiles) ==> WorldValid(TickTiles(state, tiles, input))
  {
    var o := Tick(state, tiles, input);
    var after := TickTiles(state, tiles, input);
    if o.dug.Some? {
      var d := o.dug.value;
      assert forall j :: 0 <= j < |tiles| && j != d ==> after[j] == tiles[j];
      assert TileValid(tiles[d]) && Solid(tiles[d]) ==> TileValid(after[d]);
    }
  }

  /** update_player_state: the player moves, and the grid is dug in place. */
  method UpdatePlayerState(current: PlayerState, tiles: array<Tile>, input: PlayerInput) returns (next: PlayerState)
    requires CanTick(current, tiles[..], input)
    modifies tiles
    ensures next == Tick(current, old(tiles[..]), input).state
    ensures tiles[..] == TickTiles(current, old(tiles[..]), input)
  {
    ghost var grid := tiles[..];
    var v := IntendedVelocity(input);
    var currentPosition := current.position;
    var vertical := MovePrep(0, v.y, currentPosition, tiles[..]);
    var newPos := Moved(currentPosition, 0, vertical.velY);
    var horizontal := MovePrep(v.x, 0, newPos, tiles[..]);

    var onGround := false;
    if vertical.blocking.Some? {
      onGround := PlayerBox(newPos).top < TileBox(tiles[vertical.blocking.value]).top;
    }

    // every read of the grid above happens before the single write below
    if vertical.blocking.Some? && input.down {
      Dig(tiles, vertical.blocking.value);
    } else if horizontal.blocking.Some? && onGround {
      Dig(tiles, horizontal.blocking.value);
    }

    var newPosition := Moved(currentPosition, horizontal.velX, vertical.velY);
    var cameraOffset := Max(0, newPosition.y - CameraFollowDepth);
    next := PlayerState(newPosition, cameraOffset);
    assert Tick(current, grid, input).state == next;
  }
}
