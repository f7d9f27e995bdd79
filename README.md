# Digging game core, in Dafny

This project models the game logic of a small 2D digging game. The world is
a grid 20 tiles wide and 10000 rows deep, with 40-unit tiles. The top five
rows are open sky; every cell below is Ground or, on a random roll, Gold.
The player is a 30 x 30 box that spawns in the sky. Each tick it falls under
gravity or rises while `up` is held, and it moves one unit sideways for
`left` or `right`. It collides with solid tiles one axis at a time: the
vertical axis first, then the horizontal axis from the vertically moved
position. Holding `down` digs the tile that stopped the vertical move (the
tile above when `up` is held as well). Otherwise, when the player is on the
ground and pushes into a wall, it digs the wall. Every tile has ten hit
points, and a dug tile loses one; at zero it becomes Air. The camera
follows the player once the player is more than 400 units below the top.

Modules:

- `World` (`world.dfy`): tile types, tiles, the grid constants, hitboxes
  of tiles and world generation. The generator is the imperative
  `GenerateWorld`, which pushes tiles onto a sequence. The random number
  drawn for each ground cell is a parameter, `rolls`.
- `GameState` (`game_state.dfy`): the player's position and hitbox, the
  spawn state, and the point-to-cell mapping with the float-to-unsigned
  cast saturating negatives to 0. It also holds the dig on a tile:
  `Damaged` as a value and `Dig` as an in-place update of an array element.
- `Collision` (`collision.dfy`): `move_prep`. The method `MovePrep` pushes
  the probe points and runs the scan-map-filter-fold as a loop. It is
  proved equal to the specification function `Resolve`. `Resolve` states
  that any blocking tile is a solid probed cell, that there is none exactly
  when every probed cell is Air, and that the clamped velocity leaves the
  box touching the blocking tile. `ResolvePicksFirstNearest` states that
  the blocking tile is the nearest solid probed cell; with ties it is the
  first such probe in scan order.
- `PlayerTick` (`tick.dfy`): `update_player_state`. The method
  `UpdatePlayerState` digs the grid, an `array<Tile>`, in place. It is
  proved equal to the pure `Tick` and `TickTiles`. Their lemma states that
  a tick changes at most one tile, by one hit.
- `Scenario` (`scenario.dfy`): whole-tick behaviour built from the above.
  A box resting on a row boundary stays where it is. In any generated
  world, a spawned player falls three units per tick and lands on the
  surface at height 170 after 57 ticks, without digging.
- `Wrappers` (`wrappers.dfy`): `Option`.

Coordinates are `f32` in the game and `int` here. Every value the game
computes is an integer: the velocities are -3, -1, 0, 1 and 3, and the
clamped velocities are differences of integer box edges. These values stay
far below 2^24 inside the grid. Up to 2^24, `f32` holds every integer
exactly and `as usize` truncation is the identity, so integers match the
game exactly. A negative coordinate cast to `usize` saturates to 0
(`GameState.Saturate`). Where the game would panic on an index past the
end of the grid, the model has a precondition: `ProbesInBounds` for one
collision query, and `CanTick` for a whole tick.

## Model

| member | source | states |
|---|---|---|
| World.NewTile | src/main.rs:22-27 | A new tile has the given cell and type, and full health: hp == maxHp == 10, which satisfies the tile invariant. |
| World.TileBox | src/main.rs:36-49 | A tile's box is one tile wide and one tile high, with non-negative top and left edges. |
| World.TileBoxOnGrid | src/main.rs:36-49 | A tile's box is aligned to the 40-unit grid, lies within the world's 800-unit width, and sits at row cell / 20, column cell % 20. |
| World.GenerateWorld | src/main.rs:59-81 | The world has 200000 tiles, and tile i has cell i and full health. The first 100 cells are Air. Each later cell is Gold exactly when its roll is at most 10, otherwise Ground. The tile invariant holds everywhere. |
| GameState.PlayerBox | src/game_state.rs:14-27 | The player's hitbox is the 30 x 30 square whose top-left corner is the position. |
| GameState.NewPlayerState | src/game_state.rs:35-39 | The spawn state has camera offset 0 and a box inside the world's width and inside the five sky rows. |
| GameState.TileCellRowColumn | src/game_state.rs:41-46 | Within the world's width, the cell of a point is row-major: row = saturated y / 40, column = saturated x / 40. |
| GameState.TileCellRoundTrip | src/game_state.rs:41-46 | Mapping a tile's top-left corner back to a cell gives that tile's own cell. |
| GameState.CellContainsPoint | src/game_state.rs:41-46 | The tile at the cell a point maps to contains the point. |
| GameState.ColumnSpill | src/game_state.rs:41-46 | Columns are not clamped: a point 800 units right of another point maps to the first point's cell one row further down. |
| GameState.Damaged | src/game_state.rs:103-108 | A hit keeps the cell and max hp and costs one hit point. The tile is Air afterwards exactly when its hp dropped to 0 or below, or it was Air already. A tile that stays solid keeps its type. A valid solid tile stays valid. |
| GameState.Dig | src/game_state.rs:103-108 | Digging in place changes exactly element i of the array, to the damaged tile. |
| GameState.DigsUntilDestroyed | src/game_state.rs:103-108 | A solid tile with h hit points has h - n left after n hits. It stays solid with its type for exactly the first h - 1 hits, and is Air from hit h on. |
| Collision.ScanPointsOnLeadingEdge | src/game_state.rs:49-63 | Each moving axis has two probes. Vertical probes lie on the bottom (falling) or top (rising) edge, strictly between the sides, left first. Horizontal probes lie on the right or left edge, strictly between top and bottom, lower first. |
| Collision.PositionsToScan | src/game_state.rs:49-63 | The pushes build exactly the probe points in scan order. |
| Collision.Nearest | src/game_state.rs:65-84 | The fold returns a solid candidate, or nothing exactly when every candidate is Air. |
| Collision.NearestFindsFirstNearest | src/game_state.rs:72-84 | What the fold returns is a first nearest candidate: solid, no solid candidate nearer, and every earlier solid candidate strictly farther. |
| Collision.FirstNearestUnique | src/game_state.rs:72-84 | At most one index is the first nearest. |
| Collision.FirstNearestIsNearest | src/game_state.rs:72-84 | Conversely, the first nearest candidate is exactly what the fold returns. Equal distances go to the earlier probe. |
| Collision.Resolve | src/game_state.rs:48-101 | Zero velocity gives no collision and zero velocity. Any blocking tile is a probed, solid cell. There is no blocking tile exactly when every probed cell is Air, and then the velocity is unchanged. Otherwise the velocity on the moving axis is clamped so the box's leading edge meets the tile's facing edge, vertical before horizontal, and the other component is unchanged. |
| Collision.ResolvePicksFirstNearest | src/game_state.rs:65-101 | The blocking tile is the first nearest probed cell. |
| Collision.MovePrep | src/game_state.rs:48-101 | The loop over the probe points computes exactly Resolve. |
| PlayerTick.IntendedVelocity | src/game_state.rs:111-124 | The horizontal velocity is negative exactly when left is held, and positive exactly when only right is held. The vertical velocity is negative exactly when up is held. It is -3 or 3. |
| PlayerTick.ApplyDig | src/game_state.rs:138-142 | Digging changes only the dug index, to the damaged tile, and keeps the length. |
| PlayerTick.Tick | src/game_state.rs:110-151 | The new position is the start moved by both clamped velocities. The player is on the ground exactly when up is not held and the vertical move was blocked. With down held and a vertical blocker, the tick digs that blocker. Otherwise it digs the horizontal blocker if the player is on the ground, and nothing if not. A dug tile is a solid cell in range. The camera offset is max(0, y - 400). |
| PlayerTick.TickDigsAtMostOneTile | src/game_state.rs:138-142 | A tick changes at most one tile, and that tile by one hit. Cell indexing and the tile invariant are preserved, so hit points never leave 0..10. |
| PlayerTick.UpdatePlayerState | src/game_state.rs:110-151 | The in-place tick returns Tick's next state and leaves the grid equal to TickTiles. |
| Scenario.RestingGravity | src/game_state.rs:86-89 | A blocked fall of a box whose bottom lies on a row boundary is clamped to zero. |
| Scenario.RestingStaysPut | src/game_state.rs:110-151 | Such a box, with no key held, does not move, is on the ground and digs nothing. |
| Scenario.SkyTick | src/game_state.rs:110-151 | In the sky of a generated world, a tick without input falls the full 3 units, without ground contact and without digging. |
| Scenario.LandingGravity | src/game_state.rs:65-89 | From height 168 or 170, the gravity probes hit cells 102 and 103 at equal distance. Cell 102 blocks, and the fall is clamped to end at height 170. |
| Scenario.LandingTick | src/game_state.rs:128-145 | From height 168 or 170, a tick lands the player at 170, on the ground, without digging. |
| Scenario.FallingTick | src/game_state.rs:110-151 | Tick n of the fall takes the player from FallHeight(n) to FallHeight(n + 1). It is on the ground from tick 56 on, never digs, and keeps the camera at 0. |
| Scenario.FallAndLand | src/main.rs:115-128 | From the spawn state in any generated world, with no input, every tick of the n-tick fall is in range. Each tick yields the next state of the fall and leaves the grid unchanged. |

## Left out

- `renderer.rs`, the window configuration and drawing: presentation only.
- The main loop's frame-time accumulator, which runs 0 or more ticks per displayed frame. That number depends on the clock. The scenario reasons about sequences of ticks instead.
- Keyboard sampling (`PlayerInput::update`): the input of each tick is a parameter. `PlayerInput::new` is `World.NoInput`.
- Seeding the random generator from the system clock, and the draws themselves. The draws are the `rolls` parameter of `GenerateWorld`. Their range (0 to 100) is not constrained, because the model's layout facts hold for any roll.
- `Display` for `Position`: text formatting.
- Out-of-range indexing, where the game panics: the model requires its absence (`ProbesInBounds`, `CanTick`) instead of modelling a crash.
- 32-bit `hp` and 64-bit `usize` overflow: neither is reachable. `TickDigsAtMostOneTile` keeps hp within 0..10, and reachable cell indices are far below the width of `usize`. The model uses unbounded integers.
- `f32` rounding: as argued above, every coordinate the game computes is an integer small enough to be exact.
- Money, rewards and a dig cooldown: `game_state.rs` has none of them. The player state holds only position and camera offset, and every tick may dig.
- Moving past the left or right side of the grid: the cell arithmetic is modelled as written. `ColumnSpill` states what the game then does: a point right of the world maps into the next row down. No lemma follows a player who leaves the world sideways.
