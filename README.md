# GoblinAdventure game-rule engine in Dafny

This project models the rule engine of GoblinAdventure, a single-screen tile
game. A goblin moves on a 20 × 15 grid. It picks up coins for points, loses a
life on bombs, and is blocked by walls. The game is won when the score passes
2999 and lost when the lives reach 0. After that the player can restart (Y)
or quit (N).

The model follows the three core classes of the game:

- `grid.dfy`: module `Grid` holds tile positions, the board size, and the
  one-step wraparound and clamping of the player's tick. Module `Tiles` holds
  the `Wall` and `Bomb` position records and the "something lies on this
  tile" predicates.
- `coin.dfy`: module `Coins` holds the `Coin` value, built from a position
  and one bonus roll of `nextInt(11)`. It also defines what picking up the
  coins on one tile yields (`Collected`, `Remaining`, `Worth`) and models
  `ArrayList.removeAll` (`RemoveAll`).
- `placement.dfy`: module `Placement` holds the placement loop shared by
  `createWalls` and `createBombs`, including the redraw loop. Randomness comes
  from an injected stream of draws.
- `player.dfy`: module `Players` holds class `Player`, with the position and
  the score and lives counters. It defines the tick (wrap, then bomb, then
  wall), the arrow-key move, `canMove`, and the two overlap searches.
- `board.dfy`: module `Boards` holds the wall, bomb and coin creation and
  class `Board`. The class covers the tick state machine `ActionPerformed`,
  coin pickup, the periodic coin spawn, the end screen, restart and key
  handling. `Board.Valid()` is the invariant every operation keeps: lives stay
  within 0..3, the score is never negative, the timer runs exactly while
  neither end flag is set, walls and bombs are empty on the end screen, and
  every wall and bomb lies on the board and off the spawn tile (0,0).

Modelling choices:

- `Player.score` and `Player.lives` are process-wide statics in the game.
  Here they are fields of the single `Player` object that the board owns.
  The game's `Player` constructor resets only the score. `lives` gets its
  value 3 from the static initializer, and the game creates only one player,
  so the model's constructor sets lives to 3.
- `java.util.Random` is replaced by injected draws. A wall or bomb placement
  takes a stream of tile draws. Each draw is one `(nextInt(COLUMNS),
  nextInt(ROWS))` pair and so lies on the board. `Placement.Place` is the
  result of a whole placement, or `None` if the stream runs dry. A real
  `Random` never runs dry, so the placement methods require a stream that
  lasts (`Boards.Supplies`). Coin creation takes one position and one roll in
  0..10 per coin. The spawn takes the same as parameters.
- The Swing timer is the `ticking` flag. `timer.stop()` and `timer.start()`
  clear and set it. `ActionPerformed` requires it, because the timer only
  fires while started. `System.exit(0)` sets the `exited` flag.
- Keys are the datatype `Key` (`Up`, `Down`, `Left`, `Right`, `Y`, `N`,
  `Other`).
- `Coin` does not override `equals`, so `removeAll` compares coins by
  identity. The model compares coin values. Both remove the same coins:
  every coin on the player's tile is in the collected list, and no coin on
  another tile equals one of them. `Coins.RemoveAllCollected` proves that
  the result is the list of coins on the other tiles, in order.
- The coin accessors `getPos` and `getSpecial` are the datatype's
  destructors `pos` and `special`. The player's `getPos` is the field `pos`.
- The code and one of its comments disagree, and the model follows the code.
  The comment at Board.java:298-300 says nothing keeps walls off the
  player's tile. `createWalls` does check for it. When a first draw lands on
  (0,0), both `createWalls` and `createBombs` redraw until a draw lands
  elsewhere. They then drop that redrawn tile, so the entity is never placed
  and the list is one entry short. `Placement.PlaceDropsSpawnDraw` and
  `Placement.PlaceAllOnlyWithoutSpawnDraws` state this.

## Model

| member | source | states |
|---|---|---|
| Grid.WrapAxis | Player.java:83-97 | The wrapped coordinate is always within [0, n), and an in-range coordinate is unchanged |
| Grid.ClampAxis | Player.java:79-97 | The restore coordinate (`currentX` / `currentY`) is always within [0, n), and an in-range coordinate is unchanged |
| Grid.Wrap | Player.java:82-97 | Wrapping each axis independently always lands on the board and leaves an on-board position unchanged |
| Grid.Clamp | Player.java:79-97 | The restore position is always on the board and equals an on-board position |
| Grid.WrapAxisIsModulo | Player.java:83-97 | For a coordinate at most one step off the board, wrapping equals the coordinate modulo the axis length |
| Grid.WrapRule | Player.java:83-96 | For every coordinate however far off the board: below it, the wrap gives n-1 and the restore gives 0; past it, the wrap gives 0 and the restore gives n-1 |
| Grid.ClampAxisIsNearest | Player.java:79-89 | The restore coordinate is the in-range value nearest the coordinate |
| Grid.WrapOppositeClamp | Player.java:83-97 | After leaving the board on an axis, the wrapped and restore coordinates lie on opposite edges |
| Coins.Make | Coin.java:21-35 | A new coin sits at the given (x, y), and it is special exactly when its draw is 0 or 1 |
| Coins.BonusOdds | Coin.java:22-31 | Exactly 2 of the 11 possible draws give a bonus coin |
| Coins.CollectedMembers | Board.java:340-350 | A coin is collected exactly when it is in the list and on the player's tile |
| Coins.RemainingMembers | Board.java:340-353 | A coin remains exactly when it is in the list and not on the player's tile, so no remaining coin is on that tile |
| Coins.CollectPartitions | Board.java:339-353 | The coins before pickup are, as a multiset, exactly the collected coins plus the remaining ones |
| Coins.RemainingWhenNoneAt | Board.java:340-353 | With no coin on the player's tile, the list is unchanged and no points are earned |
| Coins.RemainingAppend | Board.java:340-353 | Keeping the coins on other tiles distributes over list concatenation, so their original order is kept |
| Coins.WorthIsCollectedTotal | Board.java:342-349 | The points earned are the sum of the awards of the collected coins and of nothing else |
| Coins.WorthBounds | Board.java:344-348 | Each collected coin earns between 50 and 300 points |
| Coins.RemoveAll | Board.java:353 | `removeAll` keeps exactly the elements of the list that are not in the removed list, and never grows it |
| Coins.RemoveAllCollected | Board.java:349-353 | `removeAll` with the collected list leaves exactly the coins on other tiles, in their original order |
| Placement.AfterRedraw | Board.java:305-312 | The redraw loop consumes draws up to the first one off (0,0), leaving a proper suffix of the stream |
| Placement.AfterRedrawFirst | Board.java:305-312 | When draw j is the first one off (0,0), the redraw loop consumes exactly draws 0..j and leaves the rest of the stream |
| Placement.Place | Board.java:301-316 | The placement rounds yield at most `count` entities and consume part of the stream |
| Placement.PlaceSound | Board.java:301-318 | A placement yields at most `count` entities, each on the board and none on (0,0), and consumes a prefix of the draws |
| Placement.PlaceDropsSpawnDraw | Board.java:304-315 | A first draw on (0,0) is redrawn and then dropped, so the list is at least one entity short |
| Placement.PlaceWithoutSpawnDraws | Board.java:301-316 | When no draw lands on (0,0), the entities are exactly the first `count` draws, in order |
| Placement.PlaceAllOnlyWithoutSpawnDraws | Board.java:301-316 | Every entity is placed only when none of the first `count` draws is (0,0): a (0,0) draw in any round costs that round's entity |
| Placement.PlaceAvoidingSpawn | Board.java:301-318 | The loop with its nested redraw loop computes `Place`: at most `count` entities, on the board and off (0,0) |
| Players.Step | Player.java:61-72 | An arrow key moves exactly one tile along one axis, and any other key does not move |
| Players.TickPos | Player.java:79-107 | The position after a tick is on the board, whatever the position before |
| Players.TickBombWins | Player.java:99-102 | A bomb on the wrapped tile always sends the player to (0,0), even when a wall shares the tile |
| Players.TickKeepsOnBoard | Player.java:99-107 | A player on the board and not on a bomb keeps its tile, since the wall restore is a no-op there |
| Players.TickWallBlocksWrap | Player.java:83-107 | A wall on the tile across the edge stops the wrap: the player stays on the edge it left, not on the wrapped tile |
| Players.Player.constructor | Player.java:22-29 | A new player is at (0,0) with score 0 and 3 lives |
| Players.Player.KeyPressed | Player.java:54-73 | The position moves by the key's step, without wrapping, and score and lives are unchanged |
| Players.Player.Tick | Player.java:75-108 | The new position is `TickPos`; lives drop by exactly 1 on a bomb hit and are otherwise unchanged; the score is unchanged |
| Players.Player.IsOverlappingWithBomb | Player.java:110-117 | True exactly when some bomb is on the player's tile |
| Players.Player.IsOverlappingWithWalls | Player.java:119-127 | True exactly when some wall is on the player's tile |
| Players.Player.AddScore | Player.java:133-135 | The score rises by exactly the amount, and nothing else changes |
| Players.Player.CanMove | Player.java:141-149 | False exactly when a wall is on the raw tile (x+dx, y+dy), checked without wrapping |
| Boards.CreateWalls | Board.java:294-319 | At most NUM_WALLS walls, each on the board and off (0,0), as the draws dictate |
| Boards.CreateBombs | Board.java:267-292 | At most NUM_BOMBS bombs, each on the board and off (0,0), as the draws dictate |
| Boards.PopulateCoins | Board.java:321-335 | Exactly NUM_COINS coins, the k-th on the k-th drawn tile (on the board) and special exactly when its roll is at most 1 |
| Boards.Board.constructor | Board.java:40-58 | A new board keeps the invariant, with the timer running, no end flag, the player at (0,0) with score 0 and 3 lives, and the lists the draws dictate |
| Boards.Board.ActionPerformed | Board.java:60-87 | Win is checked first (score > 2999), then lose (lives == 0); either stops the timer and empties walls, bombs and coins; otherwise the player ticks and then coins are collected at the new tile; the invariant is kept, so lives never go negative |
| Boards.Board.NewCoin | Board.java:89-94 | The spawn appends exactly one coin at the drawn tile and leaves the existing coins untouched |
| Boards.Board.CollectCoins | Board.java:337-354 | The score rises by 300 per bonus coin and 50 per ordinary coin on the player's tile; exactly those coins are removed, and the rest keep their order |
| Boards.Board.EndScreen | Board.java:356-361 | Walls, bombs and coins are all emptied |
| Boards.Board.Restart | Board.java:363-378 | Both end flags are cleared, score is 0, lives are 3, the lists are regenerated and the timer restarts; the player's position is unchanged |
| Boards.Board.KeyPressed | Board.java:135-161 | An arrow moves the player only when `canMove` holds for its step; Y restarts only on the end screen; N exits only on the end screen with `canMove(-1, 0)`, which always holds there because the walls are empty; other keys change nothing |

## Left out

- Rendering is not modelled. This covers `paintComponent`, `drawBackground`,
  `drawScore`, `drawEndText`, the `draw` methods and `Player.getScore`, the
  text form of the score for the display. It is pixel and font work.
- Image loading (`loadImage`, `loadSpecialImage`) is not modelled. It is
  file I/O. Whether a coin is special decides only which image is loaded,
  besides the flag.
- The Swing timer and the scheduled executor that runs the coin spawn every
  2 seconds are not modelled. They are threading and timing. The spawn is the
  sequential method `Board.NewCoin`, and its interleaving with ticks and with
  key events is not modelled.
- `System.exit(0)` is the `exited` flag. Nothing stops further calls after
  it is set.
- The redraw loop's probabilistic termination is not modelled. A `Random`
  always produces another draw eventually. The model needs a finite draw
  stream that lasts (`Boards.Supplies`).
- `KeyEvent` and `ActionEvent` plumbing, `keyTyped`, `keyReleased`,
  `serialVersionUID` and background colours are not modelled.
- Java's 32-bit `int` arithmetic is not modelled. Positions and score are
  unbounded integers. The score stops growing after the tick in which it passes
  2999. That tick still adds 300 or 50 for each coin on the tile, so the
  score stays far below 2^31. While
  the game is playing, each tick wraps the position back onto the board. On
  the end screen no tick runs and the walls are gone, so every arrow press
  moves the player one more tile, and positions are unbounded there (restart
  does not move the player back). Overflow would take about 2^31 key
  presses.
- Players.Player.constructor: the `walls` and `bombs` arguments of the game's
  constructor are unused there, so the model's constructor takes none.
- Wall.java and Bomb.java are not part of this model. They are taken as
  immutable records whose only accessor is the position.
