/** Random placement of walls and bombs, with java.util.Random replaced by an
    injected stream of draws. Each draw is one (nextInt(COLUMNS),
    nextInt(ROWS)) pair, so every draw lies on the board.

    For each of `count` entities the placement draws a tile. A tile other
    than the player's spawn tile is placed. A draw on the spawn tile starts a
    redraw loop that consumes draws until one lands elsewhere; that redrawn
    tile is then dropped, so the entity is never placed. */
module Placement {
  import opened Grid

  datatype Option<T> = None | Some(value: T)

  /** Every draw of the stream lies on the board. */
  predicate AllInBounds(ds: seq<Pos>) {
    forall k :: 0 <= k < |ds| ==> InBounds(ds[k])
  }

  /** The stream left after the redraw loop: draws are consumed up to and
      including the first one off the spawn tile. None when the stream
      runs dry first (a real Random never does). What is left is a proper
      suffix of the stream. */
  function AfterRedraw(ds: seq<Pos>): (r: Option<seq<Pos>>)
    ensures r.Some? ==> |r.value| < |ds| && r.value == ds[|ds| - |r.value|..]
  {
    if ds == [] then None
    else if ds[0] != Origin then Some(ds[1..])
    else AfterRedraw(ds[1..])
  }

  /** The redraw loop stops at the first draw off the spawn tile: when draw
      j is that draw, exactly draws 0..j are consumed. */
  lemma {:induction false} AfterRedrawFirst(ds: seq<Pos>, j: nat)
    requires j < |ds| && ds[j] != Origin
    requires forall i :: 0 <= i < j ==> ds[i] == Origin
    ensures AfterRedraw(ds) == Some(ds[j + 1..])
  {
    if j > 0 {
      assert ds[1..][j - 1] == ds[j];
      AfterRedrawFirst(ds[1..], j - 1);
      assert ds[1..][j..] == ds[j + 1..];
    }
  }

  /** The entities placed by `count` rounds of drawing, in order, and the
      stream left afterwards; None when the stream runs dry. */
  function Place(count: nat, ds: seq<Pos>): (r: Option<(seq<Pos>, seq<Pos>)>)
    ensures r.Some? ==> |r.value.0| <= count && |r.value.1| <= |ds|
  {
    if count == 0 then Some(([], ds))
    else if ds == [] then None
    else if ds[0] == Origin then
      match AfterRedraw(ds[1..])
      case None => None
      case Some(rest) => Place(count - 1, rest)
    else
      match Place(count - 1, ds[1..])
      case None => None
      case Some(r) => Some(([ds[0]] + r.0, r.1))
  }

  /** Placement puts at most `count` entities on the board, none of them on
      the spawn tile, and consumes a prefix of the stream. */
  lemma {:induction false} PlaceSound(count: nat, ds: seq<Pos>)
    requires AllInBounds(ds)
    requires Place(count, ds).Some?
    ensures |Place(count, ds).value.0| <= count
    ensures forall k :: 0 <= k < |Place(count, ds).value.0| ==>
              InBounds(Place(count, ds).value.0[k]) && Place(count, ds).value.0[k] != Origin
    ensures |Place(count, ds).value.1| <= |ds|
    ensures Place(count, ds).value.1 == ds[|ds| - |Place(count, ds).value.1|..]
  {
    if count > 0 {
      if ds[0] == Origin {
        var rest := AfterRedraw(ds[1..]).value;
        assert AllInBounds(rest) by {
          forall k | 0 <= k < |rest| ensures InBounds(rest[k]) {
            assert rest[k] == ds[1..][|ds[1..]| - |rest| + k];
          }
        }
        PlaceSound(count - 1, rest);
      } else {
        PlaceSound(count - 1, ds[1..]);
      }
    }
  }

  /** A first draw on the spawn tile costs an entity: the list comes out at
      least one short. */
  lemma PlaceDropsSpawnDraw(count: nat, ds: seq<Pos>)
    requires count > 0 && ds != [] && ds[0] == Origin
    requires Place(count, ds).Some?
    ensures |Place(count, ds).value.0| <= count - 1
  {
  }

  /** When no draw lands on the spawn tile, every entity is placed: the
      first `count` draws, in order. */
  lemma {:induction false} PlaceWithoutSpawnDraws(count: nat, ds: seq<Pos>)
    requires count <= |ds|
    requires forall k :: 0 <= k < count ==> ds[k] != Origin
    ensures Place(count, ds) == Some((ds[..count], ds[count..]))
  {
    if count > 0 {
      PlaceWithoutSpawnDraws(count - 1, ds[1..]);
      assert [ds[0]] + ds[1..][..count - 1] == ds[..count];
      assert ds[1..][count - 1..] == ds[count..];
    }
  }

  /** Conversely, every entity is placed only when none of the first
      `count` draws lands on the spawn tile: a spawn-tile draw in any round
      costs that round's entity. */
  lemma {:induction false} PlaceAllOnlyWithoutSpawnDraws(count: nat, ds: seq<Pos>)
    requires Place(count, ds).Some? && |Place(count, ds).value.0| == count
    ensures count <= |ds|
    ensures forall k :: 0 <= k < count ==> ds[k] != Origin
  {
    if count > 0 && ds[0] != Origin {
      PlaceAllOnlyWithoutSpawnDraws(count - 1, ds[1..]);
      forall k | 0 <= k < count ensures ds[k] != Origin {
        if k > 0 {
          assert ds[k] == ds[1..][k - 1];
        }
      }
    }
  }

  /** The placement loop of createWalls and createBombs, drawing from the
      injected stream `draws`; `rest` is what is left of the stream. */
  method PlaceAvoidingSpawn(count: nat, draws: seq<Pos>) returns (placed: seq<Pos>, rest: seq<Pos>)
    requires AllInBounds(draws)
    requires Place(count, draws).Some?
    ensures Place(count, draws) == Some((placed, rest))
    ensures |placed| <= count
    ensures forall k :: 0 <= k < |placed| ==> InBounds(placed[k]) && placed[k] != Origin
  {
    placed, rest := [], draws;
    var i := 0;
    assert placed + Place(count, draws).value.0 == Place(count, draws).value.0;
    while i < count
      invariant 0 <= i <= count
      invariant Place(count - i, rest).Some?
      invariant Place(count, draws) ==
                Some((placed + Place(count - i, rest).value.0, Place(count - i, rest).value.1))
    {
      var p := rest[0];
      rest := rest[1..];
      if p == Origin {
        ghost var target := AfterRedraw(rest);
        var inPlayerSpot := true;
        while inPlayerSpot
          invariant target.Some? && Place(count - i - 1, target.value).Some?
          invariant inPlayerSpot ==> AfterRedraw(rest) == target
          invariant !inPlayerSpot ==> rest == target.value
          decreases |rest|
        {
          p := rest[0];
          rest := rest[1..];
          if p != Origin {
            inPlayerSpot := false;
          }
        }
      } else {
        ghost var tail := Place(count - i - 1, rest).value;
        assert placed + ([p] + tail.0) == (placed + [p]) + tail.0;
        placed := placed + [p];
      }
      i := i + 1;
    }
    assert placed + [] == placed;
    PlaceSound(count, draws);
  }
}
