/** The board: the per-tick state machine (win check, lose check, otherwise
    player tick and coin pickup), the random placement of walls, bombs and
    coins, the periodic coin spawn, the end screen, restart and the key
    handling. Random draws are injected as parameters. */
module Boards {
  import opened Grid
  import opened Tiles
  import opened Coins
  import opened Placement
  import opened Players

  /** How many bombs, walls and initial coins a board is set up with. */
  const NUM_BOMBS: nat := 5
  const NUM_WALLS: nat := 10
  const NUM_COINS: nat := 5

  /** The game is won on the first tick that sees a score above this. */
  const WIN_SCORE: int := 2999

  /** A draw stream that lasts for `count` placements of walls or bombs. */
  predicate Supplies(count: nat, draws: seq<Pos>) {
    AllInBounds(draws) && Place(count, draws).Some?
  }

  /** The draws made to populate the initial coins: one position pair and one
      bonus roll per coin. */
  predicate CoinDraws(positions: seq<Pos>, rolls: seq<int>) {
    |positions| == NUM_COINS && |rolls| == NUM_COINS && AllInBounds(positions) &&
    forall k :: 0 <= k < |rolls| ==> 0 <= rolls[k] < 11
  }

  /** Walls and bombs lie on the board and off the spawn tile. */
  predicate WellPlaced(walls: seq<Wall>, bombs: seq<Bomb>) {
    (forall k :: 0 <= k < |walls| ==> InBounds(walls[k].pos) && walls[k].pos != Origin) &&
    (forall k :: 0 <= k < |bombs| ==> InBounds(bombs[k].pos) && bombs[k].pos != Origin)
  }

  /** The walls that a wall-placement stream produces. */
  function WallsFrom(draws: seq<Pos>): seq<Wall>
    requires Supplies(NUM_WALLS, draws)
  {
    var ps := Place(NUM_WALLS, draws).value.0;
    seq(|ps|, k requires 0 <= k < |ps| => Wall(ps[k]))
  }

  /** The bombs that a bomb-placement stream produces. */
  function BombsFrom(draws: seq<Pos>): seq<Bomb>
    requires Supplies(NUM_BOMBS, draws)
  {
    var ps := Place(NUM_BOMBS, draws).value.0;
    seq(|ps|, k requires 0 <= k < |ps| => Bomb(ps[k]))
  }

  /** The coins that the initial coin draws produce. */
  function CoinsFrom(positions: seq<Pos>, rolls: seq<int>): seq<Coin>
    requires CoinDraws(positions, rolls)
  {
    seq(NUM_COINS, k requires 0 <= k < NUM_COINS => Make(positions[k].x, positions[k].y, rolls[k]))
  }

  /** createWalls: at most NUM_WALLS walls, all on the board and off the
      spawn tile. */
  method CreateWalls(draws: seq<Pos>) returns (walls: seq<Wall>)
    requires Supplies(NUM_WALLS, draws)
    ensures walls == WallsFrom(draws)
    ensures |walls| <= NUM_WALLS
    ensures forall k :: 0 <= k < |walls| ==> InBounds(walls[k].pos) && walls[k].pos != Origin
  {
    var placed, rest := PlaceAvoidingSpawn(NUM_WALLS, draws);
    walls := seq(|placed|, k requires 0 <= k < |placed| => Wall(placed[k]));
  }

  /** createBombs: at most NUM_BOMBS bombs, all on the board and off the
      spawn tile. */
  method CreateBombs(draws: seq<Pos>) returns (bombs: seq<Bomb>)
    requires Supplies(NUM_BOMBS, draws)
    ensures bombs == BombsFrom(draws)
    ensures |bombs| <= NUM_BOMBS
    ensures forall k :: 0 <= k < |bombs| ==> InBounds(bombs[k].pos) && bombs[k].pos != Origin
  {
    var placed, rest := PlaceAvoidingSpawn(NUM_BOMBS, draws);
    bombs := seq(|placed|, k requires 0 <= k < |placed| => Bomb(placed[k]));
  }

  /** populateCoins: exactly NUM_COINS coins, the k-th on the k-th drawn tile
      with the k-th bonus roll. No tile is avoided. */
  method PopulateCoins(positions: seq<Pos>, rolls: seq<int>) returns (coins: seq<Coin>)
    requires CoinDraws(positions, rolls)
    ensures coins == CoinsFrom(positions, rolls)
    ensures |coins| == NUM_COINS
    ensures forall k :: 0 <= k < |coins| ==>
              coins[k].pos == positions[k] && InBounds(coins[k].pos) &&
              (coins[k].special <==> rolls[k] <= 1)
  {
    coins := [];
    var i := 0;
    while i < NUM_COINS
      invariant 0 <= i <= NUM_COINS
      invariant |coins| == i
      invariant forall k :: 0 <= k < i ==> coins[k] == Make(positions[k].x, positions[k].y, rolls[k])
    {
      coins := coins + [Make(positions[i].x, positions[i].y, rolls[i])];
      i := i + 1;
    }
  }

  class Board {
    const player: Player
    var walls: seq<Wall>
    var bombs: seq<Bomb>
    var coins: seq<Coin>
    /** The flags that select the end screen. */
    var win: bool
    var lose: bool
    /** Whether the tick timer is running (started and not stopped). */
    var ticking: bool
    /** Whether the game has exited. */
    var exited: bool

    /** The board invariant: lives stay within 0..3, the score is never
        negative, at most one end flag is set, the timer runs exactly while
        no end flag is set, walls and bombs are gone on the end screen, and
        everything lies on the board, walls and bombs off the spawn tile. */
    ghost predicate Valid()
      reads this, player
    {
      0 <= player.lives <= START_LIVES && player.score >= 0 &&
      !(win && lose) && (ticking <==> !win && !lose) &&
      ((win || lose) ==> walls == [] && bombs == []) &&
      WellPlaced(walls, bombs) &&
      (forall k :: 0 <= k < |coins| ==> InBounds(coins[k].pos))
    }

    /** Set up a board from the draws of its three placements. */
    constructor(wallDraws: seq<Pos>, bombDraws: seq<Pos>, coinPositions: seq<Pos>, coinRolls: seq<int>)
      requires Supplies(NUM_WALLS, wallDraws) && Supplies(NUM_BOMBS, bombDraws)
      requires CoinDraws(coinPositions, coinRolls)
      ensures Valid() && fresh(player)
      ensures ticking && !win && !lose && !exited
      ensures player.pos == Origin && player.score == 0 && player.lives == START_LIVES
      ensures walls == WallsFrom(wallDraws) && bombs == BombsFrom(bombDraws)
      ensures coins == CoinsFrom(coinPositions, coinRolls)
    {
      var ws := CreateWalls(wallDraws);
      var bs := CreateBombs(bombDraws);
      player := new Player();
      var cs := PopulateCoins(coinPositions, coinRolls);
      walls, bombs, coins := ws, bs, cs;
      win, lose := false, false;
      ticking := true;
      exited := false;
    }

    /** One timer tick. The win check comes first, then the lose check; each
        stops the timer and clears the board. Otherwise the player ticks and
        then picks up the coins on its tile. */
    method ActionPerformed()
      requires Valid() && ticking
      modifies this, player
      ensures Valid()
      ensures exited == old(exited)
      ensures old(player.score) > WIN_SCORE ==>
                win && !lose && !ticking && walls == [] && bombs == [] && coins == [] &&
                unchanged(player)
      ensures old(player.score) <= WIN_SCORE && old(player.lives) == 0 ==>
                lose && !win && !ticking && walls == [] && bombs == [] && coins == [] &&
                unchanged(player)
      ensures old(player.score) <= WIN_SCORE && old(player.lives) != 0 ==>
                ticking && !win && !lose && walls == old(walls) && bombs == old(bombs) &&
                player.pos == TickPos(old(player.pos), walls, bombs) &&
                player.lives == old(player.lives) - (if BombAt(Wrap(old(player.pos)), bombs) then 1 else 0) &&
                player.score == old(player.score) + Worth(old(coins), player.pos) &&
                coins == Remaining(old(coins), player.pos)
    {
      if player.score > WIN_SCORE {
        ticking := false;
        win := true;
        EndScreen();
      } else if player.lives == 0 {
        ticking := false;
        lose := true;
        EndScreen();
      } else {
        player.Tick(walls, bombs);
        ghost var before := coins;
        CollectCoins();
        forall k | 0 <= k < |coins| ensures InBounds(coins[k].pos) {
          RemainingMembers(before, player.pos, coins[k]);
        }
      }
    }

    /** The periodic spawn: append one coin on the drawn tile, with its own
        bonus roll, leaving the coins already there untouched. It runs on
        its own schedule, on the end screen too. */
    method NewCoin(x: int, y: int, roll: int)
      requires Valid()
      requires 0 <= x < COLUMNS && 0 <= y < ROWS && 0 <= roll < 11
      modifies this`coins
      ensures Valid()
      ensures coins == old(coins) + [Make(x, y, roll)]
    {
      coins := coins + [Make(x, y, roll)];
    }

    /** Pick up every coin on the player's tile: 300 points for a bonus
        coin, 50 for an ordinary one; the picked-up coins are then removed. */
    method CollectCoins()
      modifies this`coins, player
      ensures coins == Remaining(old(coins), player.pos)
      ensures player.score == old(player.score) + Worth(old(coins), player.pos)
      ensures player.pos == old(player.pos) && player.lives == old(player.lives)
    {
      var collected: seq<Coin> := [];
      var i := 0;
      while i < |coins|
        invariant 0 <= i <= |coins|
        invariant coins == old(coins)
        invariant player.pos == old(player.pos) && player.lives == old(player.lives)
        invariant collected == Collected(coins[..i], player.pos)
        invariant player.score == old(player.score) + Worth(coins[..i], player.pos)
      {
        var coin := coins[i];
        assert coins[..i + 1] == coins[..i] + [coin];
        CollectedAppend(coins[..i], [coin], player.pos);
        WorthAppend(coins[..i], [coin], player.pos);
        if player.pos == coin.pos {
          if coin.special {
            player.AddScore(SPECIAL_AWARD);
          } else {
            player.AddScore(ORDINARY_AWARD);
          }
          collected := collected + [coin];
        }
        i := i + 1;
      }
      assert coins[..i] == coins;
      RemoveAllCollected(coins, player.pos);
      coins := RemoveAll(coins, collected);
    }

    /** Clear walls, bombs and coins for the end screen. */
    method EndScreen()
      modifies this`walls, this`bombs, this`coins
      ensures walls == [] && bombs == [] && coins == []
    {
      walls := [];
      bombs := [];
      coins := [];
    }

    /** Start a new game: clear the end flags, reset score and lives, place
        new walls, bombs and coins, and restart the timer. The player's
        position is not reset. */
    method Restart(wallDraws: seq<Pos>, bombDraws: seq<Pos>, coinPositions: seq<Pos>, coinRolls: seq<int>)
      requires Supplies(NUM_WALLS, wallDraws) && Supplies(NUM_BOMBS, bombDraws)
      requires CoinDraws(coinPositions, coinRolls)
      modifies this, player
      ensures Valid()
      ensures !win && !lose && ticking && exited == old(exited)
      ensures player.score == 0 && player.lives == START_LIVES && player.pos == old(player.pos)
      ensures walls == WallsFrom(wallDraws) && bombs == BombsFrom(bombDraws)
      ensures coins == CoinsFrom(coinPositions, coinRolls)
    {
      win := false;
      lose := false;
      player.score := 0;
      player.lives := START_LIVES;
      walls := CreateWalls(wallDraws);
      bombs := CreateBombs(bombDraws);
      coins := PopulateCoins(coinPositions, coinRolls);
      ticking := true;
    }

    /** Key handling. An arrow key moves the player only when the tile it
        leads to holds no wall. Y restarts only on the end screen. N exits
        only on the end screen and only when the tile left of the player
        holds no wall, which on the end screen is always so. The draws are
        those a restart would make. */
    method KeyPressed(key: Key, wallDraws: seq<Pos>, bombDraws: seq<Pos>,
                      coinPositions: seq<Pos>, coinRolls: seq<int>)
      requires Valid()
      requires key == Y && (win || lose) ==>
                 Supplies(NUM_WALLS, wallDraws) && Supplies(NUM_BOMBS, bombDraws) &&
                 CoinDraws(coinPositions, coinRolls)
      modifies this, player
      ensures Valid()
      ensures key in {Up, Down, Left, Right} ==>
                unchanged(this) && player.score == old(player.score) &&
                player.lives == old(player.lives) &&
                var next := Translate(old(player.pos), Step(key).0, Step(key).1);
                player.pos == if WallAt(next, walls) then old(player.pos) else next
      ensures key == Y && old(win || lose) ==>
                !win && !lose && ticking && exited == old(exited) &&
                player.score == 0 && player.lives == START_LIVES && player.pos == old(player.pos) &&
                walls == WallsFrom(wallDraws) && bombs == BombsFrom(bombDraws) &&
                coins == CoinsFrom(coinPositions, coinRolls)
      ensures key == Y && !old(win || lose) ==> unchanged(this, player)
      ensures key == N ==>
                unchanged(player) && walls == old(walls) && bombs == old(bombs) &&
                coins == old(coins) && win == old(win) && lose == old(lose) &&
                ticking == old(ticking) &&
                exited == (old(exited) ||
                           (old(win || lose) && !WallAt(Translate(old(player.pos), -1, 0), walls)))
      ensures key == N && old(win || lose) ==> exited
      ensures key == Other ==> unchanged(this, player)
    {
      var ok: bool;
      if key == Up {
        ok := player.CanMove(0, -1, walls);
        if ok {
          player.KeyPressed(key);
        }
      }
      if key == Right {
        ok := player.CanMove(1, 0, walls);
        if ok {
          player.KeyPressed(key);
        }
      }
      if key == Down {
        ok := player.CanMove(0, 1, walls);
        if ok {
          player.KeyPressed(key);
        }
      }
      if key == Left {
        ok := player.CanMove(-1, 0, walls);
        if ok {
          player.KeyPressed(key);
        }
      }
      if key == Y {
        if win || lose {
          Restart(wallDraws, bombDraws, coinPositions, coinRolls);
        }
      }
      if key == N {
        ok := player.CanMove(-1, 0, walls);
        if ok {
          if win || lose {
            exited := true;
          }
        }
      }
    }
  }
}
