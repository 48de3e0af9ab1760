/** What holds in every state an engine can reach, whatever is submitted and cancelled. */
module BookInvariants {
  import opened Orders
  import opened PriceLevels
  import opened Matching
  import opened Exchange

  /** Strict price-time priority: better price first, earlier arrival first within a price. */
  predicate Precedes(s: Side, a: Order, b: Order) {
    Ahead(s, a.price, b.price) || (a.price == b.price && a.timestamp < b.timestamp)
  }

  predicate InPriority(s: Side, q: seq<Order>) {
    forall i, j :: 0 <= i < j < |q| ==> Precedes(s, q[i], q[j])
  }

  lemma TailInPriority(s: Side, q: seq<Order>)
    requires q != [] && InPriority(s, q)
    ensures InPriority(s, q[1..])
    ensures forall i :: 0 <= i < |q[1..]| ==> Precedes(s, q[0], q[1..][i])
  {
  }

  /** A resting order is a LIMIT order of that side with something left to trade. */
  predicate RestsOn(s: Side, o: Order, now: nat) {
    o.side == s && o.kind == LIMIT && 0 < o.remaining <= o.quantity && o.timestamp < now
  }

  predicate AllRest(s: Side, q: seq<Order>, now: nat) {
    forall i :: 0 <= i < |q| ==> RestsOn(s, q[i], now)
  }

  predicate Uncrossed(bids: seq<Order>, asks: seq<Order>) {
    forall i, j :: 0 <= i < |bids| && 0 <= j < |asks| ==> bids[i].price < asks[j].price
  }

  predicate GoodSide(s: Side, q: seq<Order>, now: nat) {
    InPriority(s, q) && AllRest(s, q, now)
  }

  predicate Good(e: Engine) {
    && GoodSide(BUY, e.book.bids, e.nextTs)
    && GoodSide(SELL, e.book.asks, e.nextTs)
    && Uncrossed(e.book.bids, e.book.asks)
  }

  lemma SweepKeepsSide(s: Side, inc: Order, qty: nat, q: seq<Order>, now: nat, later: nat)
    requires GoodSide(s, q, later)
    ensures GoodSide(s, Sweep(inc, qty, q, now).rest, later)
  {
  }

  /** Where `Insert` puts the newcomer: the split of the queue at its priority. */
  lemma {:induction false} InsertSplits(s: Side, q: seq<Order>, o: Order) returns (k: nat)
    ensures k <= |q| && Insert(s, q, o) == q[..k] + [o] + q[k..]
    ensures forall i :: 0 <= i < k ==> !Ahead(s, o.price, q[i].price)
    ensures k < |q| ==> Ahead(s, o.price, q[k].price)
  {
    if q == [] || Ahead(s, o.price, q[0].price) {
      k := 0;
    } else {
      var k' := InsertSplits(s, q[1..], o);
      k := k' + 1;
      assert q[..k] == [q[0]] + q[1..][..k'];
      assert q[k..] == q[1..][k'..];
      forall i | 0 <= i < k ensures !Ahead(s, o.price, q[i].price) {
        assert i > 0 ==> q[i] == q[1..][i - 1];
      }
    }
  }

  lemma InsertKeepsSide(s: Side, q: seq<Order>, o: Order, now: nat)
    requires GoodSide(s, q, o.timestamp) && RestsOn(s, o, now)
    ensures GoodSide(s, Insert(s, q, o), now)
  {
    var k := InsertSplits(s, q, o);
    var q' := Insert(s, q, o);
    forall i, j | 0 <= i < j < |q'| ensures Precedes(s, q'[i], q'[j]) {
      if j < k {
        assert Precedes(s, q[i], q[j]);
      } else if j == k {
      } else if i >= k {
        assert k < |q| && Ahead(s, o.price, q[k].price);
        assert j - 1 == k || Precedes(s, q[k], q[j - 1]);
        assert i == k || Precedes(s, q[i - 1], q[j - 1]);
      } else {
        assert Precedes(s, q[i], q[j - 1]);
      }
    }
  }

  /** `Without` removes at most one order and keeps the rest as it was. */
  lemma {:induction false} WithoutSplits(q: seq<Order>, id: nat, p: real) returns (k: nat)
    ensures k <= |q|
    ensures forall i :: 0 <= i < k ==> !(q[i].id == id && q[i].price == p)
    ensures k == |q| ==> Without(q, id, p) == q
    ensures k < |q| ==> q[k].id == id && q[k].price == p && Without(q, id, p) == q[..k] + q[k + 1..]
  {
    if q == [] || (q[0].id == id && q[0].price == p) {
      k := 0;
    } else {
      var k' := WithoutSplits(q[1..], id, p);
      k := k' + 1;
      assert k < |q| ==> q[..k] == [q[0]] + q[1..][..k'] && q[k + 1..] == q[1..][k' + 1..];
      forall i | 0 <= i < k ensures !(q[i].id == id && q[i].price == p) {
        assert i > 0 ==> q[i] == q[1..][i - 1];
      }
    }
  }

  lemma WithoutKeepsSide(s: Side, q: seq<Order>, id: nat, p: real, now: nat)
    requires GoodSide(s, q, now)
    ensures GoodSide(s, Without(q, id, p), now)
    ensures forall i :: 0 <= i < |Without(q, id, p)| ==> Without(q, id, p)[i] in q
  {
    var k := WithoutSplits(q, id, p);
  }

  /** An order that still has a remainder after its sweep crosses nothing that is left. */
  lemma RemainderDoesNotCross(inc: Order, qty: nat, q: seq<Order>, now: nat, later: nat, i: nat)
    requires GoodSide(Opposite(inc.side), q, later)
    requires Sweep(inc, qty, q, now).left > 0 && i < |Sweep(inc, qty, q, now).rest|
    ensures !Crosses(inc, Sweep(inc, qty, q, now).rest[i].price)
  {
  }

  /** The book after an accepted order: the other side as the sweep left it, its own with the remainder. */
  lemma SubmitSides(e: Engine, o: Order)
    requires Accepts(e, o)
    ensures var r := SweepOf(e, o);
      var b := Submit(e, o).0.book;
      && Submit(e, o).1 == Filled(r.trades)
      && b.Resting(Opposite(o.side)) == r.rest
      && b.Resting(o.side) ==
           if r.left > 0 && o.kind == LIMIT
           then Insert(o.side, e.book.Resting(o.side), Stamped(o, e.nextTs).(remaining := r.left))
           else e.book.Resting(o.side)
  {
  }

  lemma MoreTime(s: Side, q: seq<Order>, now: nat, later: nat)
    requires GoodSide(s, q, now) && now <= later
    ensures GoodSide(s, q, later)
  {
  }

  lemma UncrossedFrom(s: Side, q: seq<Order>, other: seq<Order>, q': seq<Order>)
    requires if s == BUY then Uncrossed(q, other) else Uncrossed(other, q)
    requires forall i :: 0 <= i < |q'| ==> exists j :: 0 <= j < |q| && q[j].price == q'[i].price
    ensures if s == BUY then Uncrossed(q', other) else Uncrossed(other, q')
  {
  }

  lemma SweptGood(e: Engine, o: Order)
    requires Good(e)
    ensures var r := SweepOf(e, o);
            Good(e.(book := SweptBook(e.book, Opposite(o.side), r), nextTs := e.nextTs + 1 + |r.trades|))
  {
    var r := SweepOf(e, o);
    var s := Opposite(o.side);
    var q := e.book.Resting(s);
    var later := e.nextTs + 1 + |r.trades|;
    var inc := Stamped(o, e.nextTs);
    MoreTime(BUY, e.book.bids, e.nextTs, later);
    MoreTime(SELL, e.book.asks, e.nextTs, later);
    SweepKeepsSide(s, inc, o.quantity, q, e.nextTs + 1, later);
    forall i | 0 <= i < |r.rest| ensures exists j :: 0 <= j < |q| && q[j].price == r.rest[i].price {
      SweepRestAt(inc, o.quantity, q, e.nextTs + 1, i);
      assert q[i + |r.gone|].price == r.rest[i].price;
    }
    UncrossedFrom(s, q, e.book.Resting(o.side), r.rest);
  }

  /** Submitting any order, of any id, price and quantity, keeps the book good. */
  lemma SubmitGood(e: Engine, o: Order)
    requires Good(e)
    ensures Good(Submit(e, o).0)
  {
    if Accepts(e, o) {
      SweptGood(e, o);
      var r := SweepOf(e, o);
      var b := SweptBook(e.book, Opposite(o.side), r);
      var later := e.nextTs + 1 + |r.trades|;
      if r.left > 0 && o.kind == LIMIT {
        SweptLeft(e, o);
        var inc := Stamped(o, e.nextTs);
        var rem := inc.(remaining := r.left);
        InsertKeepsSide(o.side, e.book.Resting(o.side), rem, later);
        forall i | 0 <= i < |r.rest| ensures !Crosses(inc, r.rest[i].price) {
          RemainderDoesNotCross(inc, o.quantity, e.book.Resting(Opposite(o.side)), e.nextTs + 1, e.nextTs, i);
        }
        InsertUncrossed(o.side, e.book.Resting(o.side), rem, r.rest);
      }
    }
  }

  lemma InsertUncrossed(s: Side, q: seq<Order>, o: Order, other: seq<Order>)
    requires o.side == s && o.kind == LIMIT
    requires if s == BUY then Uncrossed(q, other) else Uncrossed(other, q)
    requires forall i :: 0 <= i < |other| ==> !Crosses(o, other[i].price)
    ensures if s == BUY then Uncrossed(Insert(s, q, o), other) else Uncrossed(other, Insert(s, q, o))
  {
  }

  /** A sweep never leaves more than it was given. */
  lemma {:induction false} LeftAtMost(inc: Order, qty: nat, q: seq<Order>, now: nat)
    ensures Sweep(inc, qty, q, now).left <= qty
  {
    if qty == 0 || q == [] || !Crosses(inc, q[0].price) {
    } else if q[0].remaining <= qty {
      LeftAtMost(inc, qty - q[0].remaining, q[1..], now + 1);
    }
  }

  lemma SweptLeft(e: Engine, o: Order)
    ensures SweepOf(e, o).left <= o.quantity
  {
    LeftAtMost(Stamped(o, e.nextTs), o.quantity, e.book.Resting(Opposite(o.side)), e.nextTs + 1);
  }

  lemma CancelGood(e: Engine, id: nat)
    requires Good(e)
    ensures Good(Cancel(e, id).0)
  {
    if id in e.book.index {
      var info := e.book.index[id];
      var q := e.book.Resting(info.side);
      WithoutKeepsSide(info.side, q, id, info.price, e.nextTs);
      UncrossedFrom(info.side, q, e.book.Resting(Opposite(info.side)), Without(q, id, info.price));
    }
  }

  lemma StepGood(e: Engine, op: Op)
    requires Good(e)
    ensures Good(Step(e, op).0)
  {
    match op {
      case SubmitOp(o) => SubmitGood(e, o);
      case CancelOp(id) => CancelGood(e, id);
    }
  }

  /**
   In every reachable state the book is not crossed, both sides are in strict price-time priority,
   and every resting order has a positive remainder no larger than its quantity.
   */
  lemma {:induction false} RunGood(e: Engine, ops: seq<Op>)
    requires Good(e)
    ensures Good(Run(e, ops).0)
  {
    if ops != [] {
      RunGood(e, ops[..|ops| - 1]);
      StepGood(Run(e, ops[..|ops| - 1]).0, ops[|ops| - 1]);
    }
  }

  /** Some run of submissions and cancels leads a new engine here. */
  ghost predicate Reachable(e: Engine) {
    exists ops: seq<Op> :: Run(Fresh(e.band), ops).0 == e
  }

  lemma ReachableGood(e: Engine)
    requires Reachable(e)
    ensures Good(e)
  {
    var ops: seq<Op> :| Run(Fresh(e.band), ops).0 == e;
    RunGood(Fresh(e.band), ops);
  }

  /** The best prices, at the heads of the queues, never meet. */
  lemma NeverCrossed(e: Engine)
    requires Reachable(e) && e.book.bids != [] && e.book.asks != []
    ensures e.book.bids[0].price < e.book.asks[0].price
  {
    ReachableGood(e);
  }
}
