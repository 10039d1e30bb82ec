/** Coins: an immutable position plus a bonus flag fixed at creation by one
    draw, and the bookkeeping of picking up the coins on one tile. */
module Coins {
  import opened Grid

  /** Points for a bonus ("special") coin and for an ordinary one. */
  const SPECIAL_AWARD: nat := 300
  const ORDINARY_AWARD: nat := 50

  /** Both fields are final in the game, so a coin is a value. Its getPos
      and getSpecial accessors are the destructors `pos` and `special`. */
  datatype Coin = Coin(pos: Pos, special: bool)

  /** The coin constructor: the position is the one given, and the bonus flag
      comes from a single draw `roll` of nextInt(11). */
  function Make(x: int, y: int, roll: int): (c: Coin)
    requires 0 <= roll < 11
    ensures c.pos == Pos(x, y)
    ensures c.special <==> roll == 0 || roll == 1
  {
    if roll > 1 then Coin(Pos(x, y), false) else Coin(Pos(x, y), true)
  }

  /** Two of the eleven equally likely draws give a bonus coin. */
  lemma BonusOdds(x: int, y: int)
    ensures |set r | 0 <= r < 11 && Make(x, y, r).special| == 2
  {
    assert (set r | 0 <= r < 11 && Make(x, y, r).special) == {0, 1};
  }

  /** Points awarded for picking up one coin. */
  function Award(c: Coin): nat {
    if c.special then SPECIAL_AWARD else ORDINARY_AWARD
  }

  /** Sum of the awards of a list of coins. */
  function Total(cs: seq<Coin>): nat {
    if cs == [] then 0 else Award(cs[0]) + Total(cs[1..])
  }

  /** The coins lying on tile p, in list order. */
  function Collected(cs: seq<Coin>, p: Pos): seq<Coin> {
    if cs == [] then []
    else (if cs[0].pos == p then [cs[0]] else []) + Collected(cs[1..], p)
  }

  /** The coins lying elsewhere than on tile p, in list order. */
  function Remaining(cs: seq<Coin>, p: Pos): seq<Coin> {
    if cs == [] then []
    else (if cs[0].pos != p then [cs[0]] else []) + Remaining(cs[1..], p)
  }

  /** Points earned by a player standing on tile p: the award of every coin
      on that tile. */
  function Worth(cs: seq<Coin>, p: Pos): nat {
    if cs == [] then 0
    else (if cs[0].pos == p then Award(cs[0]) else 0) + Worth(cs[1..], p)
  }

  /** ArrayList.removeAll: keep, in order, the elements not in ys. */
  function RemoveAll(xs: seq<Coin>, ys: seq<Coin>): (r: seq<Coin>)
    ensures |r| <= |xs|
    ensures forall x :: x in r <==> x in xs && x !in ys
  {
    if xs == [] then []
    else (if xs[0] !in ys then [xs[0]] else []) + RemoveAll(xs[1..], ys)
  }

  lemma {:induction false} CollectedAppend(a: seq<Coin>, b: seq<Coin>, p: Pos)
    ensures Collected(a + b, p) == Collected(a, p) + Collected(b, p)
  {
    if a != [] {
      assert (a + b)[1..] == a[1..] + b;
      CollectedAppend(a[1..], b, p);
    } else {
      assert a + b == b;
    }
  }

  lemma {:induction false} RemainingAppend(a: seq<Coin>, b: seq<Coin>, p: Pos)
    ensures Remaining(a + b, p) == Remaining(a, p) + Remaining(b, p)
  {
    if a != [] {
      assert (a + b)[1..] == a[1..] + b;
      RemainingAppend(a[1..], b, p);
    } else {
      assert a + b == b;
    }
  }

  lemma {:induction false} WorthAppend(a: seq<Coin>, b: seq<Coin>, p: Pos)
    ensures Worth(a + b, p) == Worth(a, p) + Worth(b, p)
  {
    if a != [] {
      assert (a + b)[1..] == a[1..] + b;
      WorthAppend(a[1..], b, p);
    } else {
      assert a + b == b;
    }
  }

  /** A coin is collected exactly when it is in the list and on tile p. */
  lemma {:induction false} CollectedMembers(cs: seq<Coin>, p: Pos, c: Coin)
    ensures c in Collected(cs, p) <==> c in cs && c.pos == p
  {
    if cs != [] {
      CollectedMembers(cs[1..], p, c);
      assert cs == [cs[0]] + cs[1..];
    }
  }

  /** A coin remains exactly when it is in the list and not on tile p. */
  lemma {:induction false} RemainingMembers(cs: seq<Coin>, p: Pos, c: Coin)
    ensures c in Remaining(cs, p) <==> c in cs && c.pos != p
  {
    if cs != [] {
      RemainingMembers(cs[1..], p, c);
      assert cs == [cs[0]] + cs[1..];
    }
  }

  /** Picking up splits the list: every coin is either collected or
      remains, none is lost and none is duplicated. */
  lemma {:induction false} CollectPartitions(cs: seq<Coin>, p: Pos)
    ensures multiset(cs) == multiset(Collected(cs, p)) + multiset(Remaining(cs, p))
  {
    if cs != [] {
      CollectPartitions(cs[1..], p);
      assert cs == [cs[0]] + cs[1..];
    }
  }

  /** When no coin lies on tile p, nothing is removed. */
  lemma {:induction false} RemainingWhenNoneAt(cs: seq<Coin>, p: Pos)
    requires forall i :: 0 <= i < |cs| ==> cs[i].pos != p
    ensures Remaining(cs, p) == cs
    ensures Worth(cs, p) == 0
  {
    if cs != [] {
      RemainingWhenNoneAt(cs[1..], p);
      assert cs == [cs[0]] + cs[1..];
    }
  }

  /** The points earned are the awards of the collected coins and of nothing
      else. */
  lemma {:induction false} WorthIsCollectedTotal(cs: seq<Coin>, p: Pos)
    ensures Worth(cs, p) == Total(Collected(cs, p))
  {
    if cs != [] {
      WorthIsCollectedTotal(cs[1..], p);
      if cs[0].pos == p {
        assert Collected(cs, p) == [cs[0]] + Collected(cs[1..], p);
        assert ([cs[0]] + Collected(cs[1..], p))[1..] == Collected(cs[1..], p);
      } else {
        assert [] + Collected(cs[1..], p) == Collected(cs[1..], p);
      }
    }
  }

  /** Each collected coin is worth between 50 and 300 points. */
  lemma {:induction false} WorthBounds(cs: seq<Coin>, p: Pos)
    ensures ORDINARY_AWARD * |Collected(cs, p)| <= Worth(cs, p) <= SPECIAL_AWARD * |Collected(cs, p)|
  {
    if cs != [] {
      WorthBounds(cs[1..], p);
    }
  }

  /** Removing the collected coins with removeAll leaves exactly the coins on
      the other tiles, in their original order. */
  lemma RemoveAllCollected(cs: seq<Coin>, p: Pos)
    ensures RemoveAll(cs, Collected(cs, p)) == Remaining(cs, p)
  {
    forall c | c in cs
      ensures c in Collected(cs, p) <==> c.pos == p
    {
      CollectedMembers(cs, p, c);
    }
    RemoveAllByTile(cs, Collected(cs, p), p);
  }

  /** removeAll against a list that holds exactly the coins on tile p
      behaves as the filter `Remaining`. */
  lemma {:induction false} RemoveAllByTile(xs: seq<Coin>, ys: seq<Coin>, p: Pos)
    requires forall c :: c in xs ==> (c in ys <==> c.pos == p)
    ensures RemoveAll(xs, ys) == Remaining(xs, p)
  {
    if xs != [] {
      assert xs[0] in xs;
      assert xs == [xs[0]] + xs[1..];
      RemoveAllByTile(xs[1..], ys, p);
    }
  }
}
