/**
 Price-time priority, against a matcher that knows nothing of queues: from an unordered pool of
 resting orders it repeatedly takes the best-priced and, among those, the earliest.
 */
module PriceTime {
  import opened Sequences
  import opened Orders
  import opened PriceLevels
  import opened Matching
  import opened Exchange
  import opened BookInvariants

  /** A MARKET order takes any price, a buyer anything up to its limit, a seller anything from its limit on. */
  predicate Acceptable(inc: Order, p: real) {
    inc.kind == LIMIT ==> match inc.side case BUY => p <= inc.price case SELL => inc.price <= p
  }

  /** The incoming order is better off with `b` than with `d`, or as well off and `b` was first. */
  predicate Better(inc: Order, b: Order, d: Order) {
    || (inc.side == BUY && b.price < d.price)
    || (inc.side == SELL && d.price < b.price)
    || (b.price == d.price && b.timestamp < d.timestamp)
  }

  /** `n` units between the incoming order and `b`, at the price of `b`. */
  function TradeWith(inc: Order, b: Order, n: nat, now: nat): Trade {
    match inc.side
    case BUY => Trade(inc.id, b.id, b.price, n, now)
    case SELL => Trade(b.id, inc.id, b.price, n, now)
  }

  /** `b` is the order the incoming one must trade with next. */
  ghost predicate Next(inc: Order, pool: set<Order>, b: Order) {
    && b in pool && Acceptable(inc, b.price)
    && forall d :: d in pool && d != b && Acceptable(inc, d.price) ==> Better(inc, b, d)
  }

  /** What matching leaves: the trades, the resting orders, the unfilled rest and the ids of filled orders. */
  datatype Matched = Matched(trades: seq<Trade>, rest: set<Order>, left: nat, gone: set<nat>)

  ghost function Reference(inc: Order, qty: nat, pool: set<Order>, now: nat): Matched
    decreases qty, |pool|
  {
    if qty == 0 || !exists b :: Next(inc, pool, b) then Matched([], pool, qty, {}) else
      var b :| Next(inc, pool, b);
      if b.remaining <= qty then
        var r := Reference(inc, qty - b.remaining, pool - {b}, now + 1);
        Matched([TradeWith(inc, b, b.remaining, now)] + r.trades, r.rest, r.left, {b.id} + r.gone)
      else
        Matched([TradeWith(inc, b, qty, now)], pool - {b} + {b.(remaining := b.remaining - qty)}, 0, {})
  }

  lemma HeadIsNext(inc: Order, q: seq<Order>, b: Order)
    requires InPriority(Opposite(inc.side), q)
    ensures Next(inc, Elements(q), b) <==> q != [] && Crosses(inc, q[0].price) && b == q[0]
  {
  }

  lemma TailElements(s: Side, q: seq<Order>)
    requires q != [] && InPriority(s, q)
    ensures Elements(q) - {q[0]} == Elements(q[1..])
  {
  }

  /** The matching loop makes the very trades of the reference matcher and leaves the same orders. */
  lemma {:induction false} SweepIsReference(inc: Order, qty: nat, q: seq<Order>, now: nat)
    requires InPriority(Opposite(inc.side), q)
    ensures var r := Sweep(inc, qty, q, now);
            Reference(inc, qty, Elements(q), now) == Matched(r.trades, Elements(r.rest), r.left, Elements(r.gone))
  {
    if qty == 0 {
    } else if q == [] || !Crosses(inc, q[0].price) {
      forall b ensures !Next(inc, Elements(q), b) { HeadIsNext(inc, q, b); }
    } else {
      var s := Opposite(inc.side);
      var b := q[0];
      HeadIsNext(inc, q, b);
      forall c | Next(inc, Elements(q), c) ensures c == b { HeadIsNext(inc, q, c); }
      TailElements(s, q);
      if b.remaining <= qty {
        TailInPriority(s, q);
        SweepIsReference(inc, qty - b.remaining, q[1..], now + 1);
      } else {
        var b' := b.(remaining := b.remaining - qty);
        assert Elements([b'] + q[1..]) == Elements(q[1..]) + {b'};
      }
    }
  }

  /** A set of orders has only one arrangement in strict priority order. */
  lemma {:induction false} OneArrangement(s: Side, q: seq<Order>, p: seq<Order>)
    requires InPriority(s, q) && InPriority(s, p) && Elements(q) == Elements(p)
    ensures q == p
  {
    if q == [] {
      assert forall i :: 0 <= i < |p| ==> p[i] in Elements(q);
    } else {
      assert q[0] in Elements(p);
      assert p != [];
      assert p[0] in Elements(q);
      var i :| 0 <= i < |p| && p[i] == q[0];
      var j :| 0 <= j < |q| && q[j] == p[0];
      if i > 0 && j > 0 {
        assert false;
      }
      TailElements(s, q);
      TailElements(s, p);
      TailInPriority(s, q);
      TailInPriority(s, p);
      OneArrangement(s, q[1..], p[1..]);
    }
  }

  /** What the reference matcher makes of the resting orders that `o` meets in state `e`. */
  ghost function ReferenceFor(e: Engine, o: Order): Matched {
    Reference(Stamped(o, e.nextTs), o.quantity, Elements(e.book.Resting(Opposite(o.side))), e.nextTs + 1)
  }

  lemma SweepIsReferenceFor(e: Engine, o: Order)
    requires Good(e)
    ensures var r := SweepOf(e, o);
      && ReferenceFor(e, o) == Matched(r.trades, Elements(r.rest), r.left, Elements(r.gone))
      && InPriority(Opposite(o.side), r.rest)
  {
    var s := Opposite(o.side);
    var q, inc := e.book.Resting(s), Stamped(o, e.nextTs);
    SweepIsReference(inc, o.quantity, q, e.nextTs + 1);
    SweepKeepsSide(s, inc, o.quantity, q, e.nextTs + 1, e.nextTs);
  }

  lemma InsertElements(s: Side, q: seq<Order>, o: Order)
    ensures Elements(Insert(s, q, o)) == Elements(q) + {o}
  {
    var k := InsertSplits(s, q, o);
    assert q == q[..k] + q[k..];
  }

  /**
   In every reachable state, an accepted order makes exactly the trades of the reference matcher, and
   both sides afterwards are the one arrangement in priority of what they must hold: the other side the
   orders that matcher leaves, its own side what it held and the remainder of a LIMIT order.
   */
  lemma PriceTimePriority(e: Engine, o: Order)
    requires Reachable(e) && Accepts(e, o)
    ensures var s := Opposite(o.side);
      var after := Submit(e, o).0.book;
      var r := ReferenceFor(e, o);
      && Submit(e, o).1 == Filled(r.trades)
      && Elements(after.Resting(s)) == r.rest && InPriority(s, after.Resting(s))
      && Elements(after.Resting(o.side)) == Elements(e.book.Resting(o.side))
           + (if r.left > 0 && o.kind == LIMIT then {Stamped(o, e.nextTs).(remaining := r.left)} else {})
      && InPriority(o.side, after.Resting(o.side))
  {
    ReachableGood(e);
    SubmitSides(e, o);
    SweepIsReferenceFor(e, o);
    SubmitGood(e, o);
    InsertElements(o.side, e.book.Resting(o.side), Stamped(o, e.nextTs).(remaining := SweepOf(e, o).left));
  }
}
