/** The order book (order_book.cpp): two price-level maps and a cancel index, updated in place. */
module OrderBooks {
  import opened Orders
  import opened PriceLevels
  import opened Exchange

  class OrderBook {
    var bids: Levels
    var asks: Levels
    var index: map<nat, CancelInfo>

    ghost predicate Valid()
      reads this
    {
      WellFormed(bids) && WellFormed(asks)
    }

    ghost function View(): Book
      reads this
    {
      Book(Queue(BUY, bids), Queue(SELL, asks), index)
    }

    function LevelsOf(s: Side): Levels
      reads this
    {
      if s == BUY then bids else asks
    }

    constructor ()
      ensures Valid() && View() == Book([], [], map[])
    {
      bids, asks, index := map[], map[], map[];
    }

    /** Overwrite one price level of side `s` in place, erasing it when it is now empty. */
    method PutLevel(s: Side, p: real, level: seq<Order>)
      modifies this
      ensures LevelsOf(s) == SetLevel(old(LevelsOf(s)), p, level)
      ensures LevelsOf(Opposite(s)) == old(LevelsOf(Opposite(s))) && index == old(index)
    {
      var m := if level == [] then LevelsOf(s) - {p} else LevelsOf(s)[p := level];
      if s == BUY {
        bids := m;
      } else {
        asks := m;
      }
    }

    method AddRestingOrder(o: Order)
      requires Valid()
      modifies this
      ensures Valid() && View() == AddResting(old(View()), o)
    {
      var level := if o.price in LevelsOf(o.side) then LevelsOf(o.side)[o.price] else [];
      QueuePushBack(o.side, LevelsOf(o.side), o);
      PutLevel(o.side, o.price, level + [o]);
      index := index[o.id := CancelInfo(o.side, o.price)];
    }

    method CancelOrder(id: nat) returns (found: bool)
      requires Valid()
      modifies this
      ensures Valid() && (View(), found) == CancelBook(old(View()), id)
    {
      if id !in index {
        return false;
      }
      var info := index[id];
      if info.price in LevelsOf(info.side) {
        EraseFirst(info.side, info.price, id);
      } else {
        QueueEraseAbsent(info.side, LevelsOf(info.side), id, info.price);
      }
      index := index - {id};
      return true;
    }

    /** The scan of one price level: erase the first order with this id, if there is one. */
    method EraseFirst(s: Side, p: real, id: nat)
      requires Valid() && p in LevelsOf(s)
      modifies this
      ensures Valid() && index == old(index) && LevelsOf(Opposite(s)) == old(LevelsOf(Opposite(s)))
      ensures Queue(s, LevelsOf(s)) == Without(old(Queue(s, LevelsOf(s))), id, p)
    {
      var m := LevelsOf(s);
      var dq := m[p];
      assert LevelAt(p, dq);
      for i := 0 to |dq|
        invariant forall j :: 0 <= j < i ==> dq[j].id != id
        invariant bids == old(bids) && asks == old(asks) && index == old(index)
      {
        if dq[i].id == id {
          ErasedAt(dq, i, id, p);
          QueueErase(s, m, id, p);
          PutLevel(s, p, dq[..i] + dq[i + 1..]);
          return;
        }
      }
      QueueEraseAbsent(s, m, id, p);
    }

    method BestBid() returns (p: Option<real>)
      requires Valid()
      ensures p == if View().bids == [] then None else Some(View().bids[0].price)
    {
      HeadIsBest(BUY, bids);
      p := if bids == map[] then None else Some(Best(BUY, bids));
    }

    method BestAsk() returns (p: Option<real>)
      requires Valid()
      ensures p == if View().asks == [] then None else Some(View().asks[0].price)
    {
      HeadIsBest(SELL, asks);
      p := if asks == map[] then None else Some(Best(SELL, asks));
    }

    method EmptySide(s: Side) returns (r: bool)
      requires Valid()
      ensures r <==> View().Resting(s) == []
    {
      HeadIsBest(s, LevelsOf(s));
      r := LevelsOf(s) == map[];
    }

    method RemoveFromIndex(id: nat)
      modifies this`index
      ensures index == old(index) - {id}
    {
      index := index - {id};
    }
  }

  lemma HeadIsBest(s: Side, m: Levels)
    requires WellFormed(m)
    ensures m == map[] <==> Queue(s, m) == []
    ensures m != map[] ==> Queue(s, m)[0] == m[Best(s, m)][0] && Queue(s, m)[0].price == Best(s, m)
  {
  }

  /** The scan of `cancel_order` stops at the order that `Without` drops. */
  lemma {:induction false} ErasedAt(dq: seq<Order>, i: nat, id: nat, p: real)
    requires i < |dq| && dq[i].id == id && dq[i].price == p
    requires forall j :: 0 <= j < i ==> dq[j].id != id
    ensures Without(dq, id, p) == dq[..i] + dq[i + 1..] && Holds(dq, id, p)
  {
    if i > 0 {
      ErasedAt(dq[1..], i - 1, id, p);
      assert dq[..i] == [dq[0]] + dq[1..][..i - 1];
      assert dq[1..][i..] == dq[i + 1..];
    }
  }

  /** Editing the front of the best level edits the head of the queue. */
  lemma PutFront(s: Side, m: Levels, front: Order)
    requires WellFormed(m) && m != map[] && front.price == Best(s, m)
    ensures var p := Best(s, m);
      var m' := SetLevel(m, p, [front] + m[p][1..]);
      WellFormed(m') && Queue(s, m') == [front] + Queue(s, m)[1..]
  {
    var p := Best(s, m);
    assert LevelAt(p, m[p]);
    QueueReplaceBest(s, m, [front] + m[p][1..]);
    FrontOf(m[p], Queue(s, m - {p}));
  }

  /** Popping the front of the best level, and the level once empty, drops the head of the queue. */
  lemma DropFront(s: Side, m: Levels)
    requires WellFormed(m) && m != map[]
    ensures var p := Best(s, m);
      var m' := SetLevel(m, p, m[p][1..]);
      WellFormed(m') && Queue(s, m') == Queue(s, m)[1..]
  {
    var p := Best(s, m);
    assert LevelAt(p, m[p]);
    QueueReplaceBest(s, m, m[p][1..]);
    FrontOf(m[p], Queue(s, m - {p}));
  }

  lemma FrontOf(dq: seq<Order>, tail: seq<Order>)
    requires dq != []
    ensures (dq + tail)[1..] == dq[1..] + tail
    ensures forall front :: [front] + dq[1..] + tail == [front] + (dq + tail)[1..]
    ensures dq[1..] == [] ==> dq[1..] + tail == tail
  {
  }
}
