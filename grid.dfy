/** Board geometry: tile positions, the board's size, and the one-step
    wraparound and clamping that the player's tick applies to each axis. */
module Grid {

  /** Number of tile columns and rows on the board. */
  const COLUMNS: int := 20
  const ROWS: int := 15

  /** A tile coordinate. Like java.awt.Point as the game uses it, two
      positions are equal exactly when both coordinates are. */
  datatype Pos = Pos(x: int, y: int)

  /** The player's spawn tile. */
  const Origin: Pos := Pos(0, 0)

  predicate InBounds(p: Pos) {
    0 <= p.x < COLUMNS && 0 <= p.y < ROWS
  }

  /** Point.translate: move by (dx, dy), without any wrapping. */
  function Translate(p: Pos, dx: int, dy: int): Pos {
    Pos(p.x + dx, p.y + dy)
  }

  /** Wraparound on one axis of length n: a coordinate one step past either
      edge reappears on the opposite edge; an in-range one is kept. */
  function WrapAxis(v: int, n: int): (r: int)
    requires n > 0
    ensures 0 <= r < n
    ensures 0 <= v < n ==> r == v
  {
    if v < 0 then n - 1 else if v >= n then 0 else v
  }

  /** The edge coordinate the player stood on before leaving the board on
      one axis (the tick's `currentX` / `currentY`). */
  function ClampAxis(v: int, n: int): (r: int)
    requires n > 0
    ensures 0 <= r < n
    ensures 0 <= v < n ==> r == v
  {
    if v < 0 then 0 else if v >= n then n - 1 else v
  }

  /** Wraparound applied to each axis independently. */
  function Wrap(p: Pos): (q: Pos)
    ensures InBounds(q)
    ensures InBounds(p) ==> q == p
  {
    Pos(WrapAxis(p.x, COLUMNS), WrapAxis(p.y, ROWS))
  }

  /** Clamping applied to each axis independently. */
  function Clamp(p: Pos): (q: Pos)
    ensures InBounds(q)
    ensures InBounds(p) ==> q == p
  {
    Pos(ClampAxis(p.x, COLUMNS), ClampAxis(p.y, ROWS))
  }

  function Abs(v: int): nat {
    if v < 0 then -v else v
  }

  /** For a coordinate at most one step off the board, wrapping agrees with
      taking the coordinate modulo the axis length. */
  lemma WrapAxisIsModulo(v: int, n: int)
    requires n > 0 && -1 <= v <= n
    ensures WrapAxis(v, n) == v % n
  {
  }

  /** The rule for every off-board coordinate, however far off: below the
      board it wraps to the far edge n - 1 and is restored to 0; past the
      board it wraps to 0 and is restored to n - 1. */
  lemma WrapRule(v: int, n: int)
    requires n > 0
    ensures v < 0 ==> WrapAxis(v, n) == n - 1 && ClampAxis(v, n) == 0
    ensures v >= n ==> WrapAxis(v, n) == 0 && ClampAxis(v, n) == n - 1
  {
  }

  /** The clamped coordinate is the in-range value nearest the input. */
  lemma ClampAxisIsNearest(v: int, n: int, w: int)
    requires n > 0 && 0 <= w < n
    ensures Abs(v - ClampAxis(v, n)) <= Abs(v - w)
  {
  }

  /** When a coordinate has left the board, the wrapped coordinate is on the
      opposite edge from the clamped one. */
  lemma WrapOppositeClamp(v: int, n: int)
    requires n > 0 && !(0 <= v < n)
    ensures WrapAxis(v, n) + ClampAxis(v, n) == n - 1
  {
  }
}

/** The game's static tiles. Wall and Bomb are immutable position records;
    their only accessor is the position. */
module Tiles {
  import opened Grid

  datatype Wall = Wall(pos: Pos)

  datatype Bomb = Bomb(pos: Pos)

  /** Some wall stands on tile p. */
  predicate WallAt(p: Pos, walls: seq<Wall>) {
    exists i :: 0 <= i < |walls| && walls[i].pos == p
  }

  /** Some bomb lies on tile p. */
  predicate BombAt(p: Pos, bombs: seq<Bomb>) {
    exists i :: 0 <= i < |bombs| && bombs[i].pos == p
  }
}
