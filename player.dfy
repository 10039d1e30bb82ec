/** The player: a grid position that arrow keys move one tile at a time, the
    per-tick wraparound and bomb/wall resolution, and the score and lives
    counters (process-wide statics in the game, fields of the one player
    object here). */
module Players {
  import opened Grid
  import opened Tiles

  /** Lives at the start of a game. */
  const START_LIVES: int := 3

  /** The keys the game reacts to; every other key is `Other`. */
  datatype Key = Up | Down | Left | Right | Y | N | Other

  /** The tile step of a key: an arrow key moves exactly one tile along one
      axis; every other key does not move at all. */
  function Step(k: Key): (d: (int, int))
    ensures k in {Up, Down, Left, Right} ==> Abs(d.0) + Abs(d.1) == 1
    ensures k !in {Up, Down, Left, Right} ==> d == (0, 0)
  {
    match k
    case Up => (0, -1)
    case Right => (1, 0)
    case Down => (0, 1)
    case Left => (-1, 0)
    case _ => (0, 0)
  }

  /** The tile a player who stood on p occupies after one tick: the board
      wraps first; a bomb on the wrapped tile sends the player to the spawn
      tile; otherwise a wall there puts the player back on the edge tile it
      left; otherwise the player stays on the wrapped tile. */
  function TickPos(p: Pos, walls: seq<Wall>, bombs: seq<Bomb>): (q: Pos)
    ensures InBounds(q)
  {
    if BombAt(Wrap(p), bombs) then Origin
    else if WallAt(Wrap(p), walls) then Clamp(p)
    else Wrap(p)
  }

  /** A bomb hit resets to the spawn tile wherever it happens, even when a
      wall shares the tile. */
  lemma TickBombWins(p: Pos, walls: seq<Wall>, bombs: seq<Bomb>)
    requires BombAt(Wrap(p), bombs)
    ensures TickPos(p, walls, bombs) == Origin
  {
  }

  /** A player already on the board and not on a bomb keeps its tile, even
      when a wall shares it: restoring puts it back where it was. */
  lemma TickKeepsOnBoard(p: Pos, walls: seq<Wall>, bombs: seq<Bomb>)
    requires InBounds(p) && !BombAt(p, bombs)
    ensures TickPos(p, walls, bombs) == p
  {
  }

  /** A wall on the tile across the edge blocks the wraparound: the player
      stays on the edge tile it left, which is not the wrapped tile. */
  lemma TickWallBlocksWrap(p: Pos, walls: seq<Wall>, bombs: seq<Bomb>)
    requires !InBounds(p) && !BombAt(Wrap(p), bombs) && WallAt(Wrap(p), walls)
    ensures TickPos(p, walls, bombs) == Clamp(p)
    ensures TickPos(p, walls, bombs) != Wrap(p)
  {
  }

  class Player {
    var pos: Pos
    var score: int
    var lives: int

    /** A new player stands on the spawn tile with no score. Lives start at
        the static initial value, 3. */
    constructor()
      ensures pos == Origin && score == 0 && lives == START_LIVES
    {
      pos := Origin;
      score := 0;
      lives := START_LIVES;
    }

    /** Move one tile in the direction of an arrow key, without wrapping;
        other keys leave the position unchanged. */
    method KeyPressed(key: Key)
      modifies this
      ensures pos == Translate(old(pos), Step(key).0, Step(key).1)
      ensures score == old(score) && lives == old(lives)
    {
      if key == Up {
        pos := Translate(pos, 0, -1);
      }
      if key == Right {
        pos := Translate(pos, 1, 0);
      }
      if key == Down {
        pos := Translate(pos, 0, 1);
      }
      if key == Left {
        pos := Translate(pos, -1, 0);
      }
    }

    /** The per-tick update: wrap, then the bomb check, then the wall check. */
    method Tick(walls: seq<Wall>, bombs: seq<Bomb>)
      modifies this
      ensures pos == TickPos(old(pos), walls, bombs)
      ensures lives == old(lives) - (if BombAt(Wrap(old(pos)), bombs) then 1 else 0)
      ensures score == old(score)
    {
      var currentX, currentY := pos.x, pos.y;

      if pos.x < 0 {
        currentX := 0;
        pos := pos.(x := COLUMNS - 1);
      } else if pos.x >= COLUMNS {
        currentX := COLUMNS - 1;
        pos := pos.(x := 0);
      }
      if pos.y < 0 {
        currentY := 0;
        pos := pos.(y := ROWS - 1);
      } else if pos.y >= ROWS {
        currentY := ROWS - 1;
        pos := pos.(y := 0);
      }

      var onBomb := IsOverlappingWithBomb(bombs);
      if onBomb {
        lives := lives - 1;
        pos := Origin;
      } else {
        var onWall := IsOverlappingWithWalls(walls);
        if onWall {
          pos := Pos(currentX, currentY);
        }
      }
    }

    /** Whether a bomb lies on the player's tile. */
    method IsOverlappingWithBomb(bombs: seq<Bomb>) returns (r: bool)
      ensures r == BombAt(pos, bombs)
    {
      var i := 0;
      while i < |bombs|
        invariant 0 <= i <= |bombs|
        invariant forall j :: 0 <= j < i ==> bombs[j].pos != pos
      {
        if pos == bombs[i].pos {
          return true;
        }
        i := i + 1;
      }
      return false;
    }

    /** Whether a wall stands on the player's tile. */
    method IsOverlappingWithWalls(walls: seq<Wall>) returns (r: bool)
      ensures r == WallAt(pos, walls)
    {
      var i := 0;
      while i < |walls|
        invariant 0 <= i <= |walls|
        invariant forall j :: 0 <= j < i ==> walls[j].pos != pos
      {
        if pos == walls[i].pos {
          return true;
        }
        i := i + 1;
      }
      return false;
    }

    method AddScore(amount: int)
      modifies this
      ensures score == old(score) + amount
      ensures pos == old(pos) && lives == old(lives)
    {
      score := score + amount;
    }

    /** Whether the tile (dx, dy) away, taken as is and not wrapped, is free
        of walls. */
    method CanMove(dx: int, dy: int, walls: seq<Wall>) returns (ok: bool)
      ensures ok <==> !WallAt(Translate(pos, dx, dy), walls)
    {
      var nextPos := Translate(pos, dx, dy);
      var i := 0;
      while i < |walls|
        invariant 0 <= i <= |walls|
        invariant forall j :: 0 <= j < i ==> walls[j].pos != nextPos
      {
        if walls[i].pos == nextPos {
          return false;
        }
        i := i + 1;
      }
      return true;
    }
  }
}
