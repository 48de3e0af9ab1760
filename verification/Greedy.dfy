/** How much a sweep trades, and that no other way to trade it is better for the incoming order. */
module Greedy {
  import opened Orders
  import opened Matching
  import opened Exchange
  import opened BookInvariants

  /** Everything resting in `q` that the incoming order may trade with. */
  function CrossVolume(inc: Order, q: seq<Order>): nat {
    if q == [] then 0 else (if Crosses(inc, q[0].price) then q[0].remaining else 0) + CrossVolume(inc, q[1..])
  }

  function Volume(trades: seq<Trade>): nat {
    if trades == [] then 0 else trades[0].quantity + Volume(trades[1..])
  }

  /** Money for `n` units at price `p`, one unit at a time. */
  function Amount(n: nat, p: real): real {
    if n == 0 then 0.0 else p + Amount(n - 1, p)
  }

  lemma {:induction false} AmountIsProduct(n: nat, p: real)
    ensures Amount(n, p) == n as real * p
  {
    if n > 0 {
      AmountIsProduct(n - 1, p);
      var x := (n - 1) as real;
      assert n as real == x + 1.0;
      assert (x + 1.0) * p == x * p + p;
    }
  }

  lemma {:induction false} AmountAdd(m: nat, n: nat, p: real)
    ensures Amount(m + n, p) == Amount(m, p) + Amount(n, p)
  {
    if m > 0 {
      AmountAdd(m - 1, n, p);
    }
  }

  function Cost(trades: seq<Trade>): real {
    if trades == [] then 0.0 else Amount(trades[0].quantity, trades[0].price) + Cost(trades[1..])
  }

  lemma {:induction false} NothingCrosses(inc: Order, q: seq<Order>)
    requires forall i :: 0 <= i < |q| ==> !Crosses(inc, q[i].price)
    ensures CrossVolume(inc, q) == 0
  {
    if q != [] {
      forall i | 0 <= i < |q[1..]| ensures !Crosses(inc, q[1..][i].price) {
        assert q[1..][i] == q[i + 1];
      }
      NothingCrosses(inc, q[1..]);
    }
  }

  lemma HeadDecides(inc: Order, q: seq<Order>)
    requires q != [] && InPriority(Opposite(inc.side), q) && !Crosses(inc, q[0].price)
    ensures forall i :: 0 <= i < |q| ==> !Crosses(inc, q[i].price)
  {
  }

  /** The traded volume is the smaller of what is asked for and what is on offer at acceptable prices. */
  lemma {:induction false} TradedVolume(inc: Order, qty: nat, q: seq<Order>, now: nat)
    requires InPriority(Opposite(inc.side), q)
    ensures var r := Sweep(inc, qty, q, now);
            Volume(r.trades) == Min(qty, CrossVolume(inc, q)) && r.left == qty - Volume(r.trades)
  {
    if qty == 0 || q == [] {
    } else if !Crosses(inc, q[0].price) {
      HeadDecides(inc, q);
      NothingCrosses(inc, q);
    } else if q[0].remaining <= qty {
      TailInPriority(Opposite(inc.side), q);
      TradedVolume(inc, qty - q[0].remaining, q[1..], now + 1);
      var r := Sweep(inc, qty, q, now);
      assert r.trades[1..] == Sweep(inc, qty - q[0].remaining, q[1..], now + 1).trades;
    } else {
      var r := Sweep(inc, qty, q, now);
      assert r.trades[1..] == [];
    }
  }

  function Total(q: seq<Order>): nat {
    if q == [] then 0 else q[0].remaining + Total(q[1..])
  }

  /** Units resting at `limit` or below, which a buyer with that limit can have. */
  function AtMost(q: seq<Order>, limit: real): nat {
    if q == [] then 0 else (if q[0].price <= limit then q[0].remaining else 0) + AtMost(q[1..], limit)
  }

  /** Units resting at `limit` or above, which a seller with that limit can have. */
  function AtLeast(q: seq<Order>, limit: real): nat {
    if q == [] then 0 else (if q[0].price >= limit then q[0].remaining else 0) + AtLeast(q[1..], limit)
  }

  lemma {:induction false} MarketTakesAny(inc: Order, qty: nat, q: seq<Order>, now: nat)
    requires inc.kind == MARKET
    ensures var r := Sweep(inc, qty, q, now);
      Volume(r.trades) == Min(qty, Total(q)) && r.left == qty - Volume(r.trades)
  {
    if qty == 0 || q == [] {
    } else if q[0].remaining <= qty {
      MarketTakesAny(inc, qty - q[0].remaining, q[1..], now + 1);
      SweepUnfolds(inc, qty, q, now);
    } else {
      SweepEnds(inc, qty, q, now);
    }
  }

  /**
   A MARKET order is never rejected, whatever the state: it trades as much as it asks for, or all
   that rests on the other side. What it cannot have is dropped, so its own side stays as it is.
   */
  lemma MarketVolume(e: Engine, o: Order)
    requires o.kind == MARKET
    ensures var (e', r) := Submit(e, o);
      && r.Filled?
      && Volume(r.trades) == Min(o.quantity, Total(if o.side == BUY then e.book.asks else e.book.bids))
      && (if o.side == BUY then e'.book.bids == e.book.bids else e'.book.asks == e.book.asks)
  {
    MarketTakesAny(Stamped(o, e.nextTs), o.quantity, e.book.Resting(Opposite(o.side)), e.nextTs + 1);
  }

  lemma {:induction false} LimitCrosses(inc: Order, q: seq<Order>)
    requires inc.kind == LIMIT
    ensures CrossVolume(inc, q) == if inc.side == BUY then AtMost(q, inc.price) else AtLeast(q, inc.price)
  {
    if q != [] {
      LimitCrosses(inc, q[1..]);
    }
  }

  /**
   A LIMIT order that is not rejected trades as much as it asks for, or all that rests on the other
   side at its limit or better.
   */
  lemma LimitVolume(e: Engine, o: Order)
    requires Reachable(e) && o.kind == LIMIT
    ensures var r := Submit(e, o).1;
      r.Filled? ==>
        Volume(r.trades)
          == Min(o.quantity, if o.side == BUY then AtMost(e.book.asks, o.price) else AtLeast(e.book.bids, o.price))
  {
    ReachableGood(e);
    var inc, q := Stamped(o, e.nextTs), e.book.Resting(Opposite(o.side));
    TradedVolume(inc, o.quantity, q, e.nextTs + 1);
    LimitCrosses(inc, q);
  }

  /** A way to fill an incoming order: `a[i]` units from the i-th resting order. */
  predicate Feasible(inc: Order, q: seq<Order>, a: seq<nat>) {
    |a| == |q| && forall i :: 0 <= i < |a| ==> a[i] <= q[i].remaining && (a[i] > 0 ==> Crosses(inc, q[i].price))
  }

  function AllocVolume(a: seq<nat>): nat {
    if a == [] then 0 else a[0] + AllocVolume(a[1..])
  }

  function AllocCost(q: seq<Order>, a: seq<nat>): real
    requires |a| == |q|
  {
    if a == [] then 0.0 else Amount(a[0], q[0].price) + AllocCost(q[1..], a[1..])
  }

  /** What the incoming order wants small: money paid by a buyer, or minus the money a seller gets. */
  function Burden(s: Side, money: real): real {
    if s == BUY then money else -money
  }

  predicate NoBetterThan(inc: Order, q: seq<Order>, p: real) {
    forall i :: 0 <= i < |q| ==> Burden(inc.side, p) <= Burden(inc.side, q[i].price)
  }

  lemma TailFeasible(inc: Order, q: seq<Order>, a: seq<nat>)
    requires q != [] && Feasible(inc, q, a)
    ensures Feasible(inc, q[1..], a[1..])
  {
  }

  lemma TailNoBetter(inc: Order, q: seq<Order>)
    requires q != [] && InPriority(Opposite(inc.side), q)
    ensures NoBetterThan(inc, q[1..], q[0].price)
  {
  }

  lemma {:induction false} AmountMono(n: nat, s: Side, x: real, y: real)
    requires Burden(s, x) <= Burden(s, y)
    ensures Burden(s, Amount(n, x)) <= Burden(s, Amount(n, y))
  {
    if n > 0 {
      AmountMono(n - 1, s, x, y);
    }
  }

  /** Any allocation over orders no better than `p` costs at least `p` a unit. */
  lemma {:induction false} AllocAtLeast(inc: Order, q: seq<Order>, a: seq<nat>, p: real)
    requires |a| == |q| && NoBetterThan(inc, q, p)
    ensures Burden(inc.side, Amount(AllocVolume(a), p)) <= Burden(inc.side, AllocCost(q, a))
  {
    if a != [] {
      AllocAtLeast(inc, q[1..], a[1..], p);
      AmountMono(a[0], inc.side, p, q[0].price);
      AmountAdd(a[0], AllocVolume(a[1..]), p);
    }
  }

  /** An allocation of `alloc` units for `allocCost` is no cheaper than `volume` units for `cost` and the further ones at `p`. */
  predicate NoCheaper(s: Side, p: real, volume: nat, cost: real, alloc: nat, allocCost: real) {
    volume <= alloc && Burden(s, cost + Amount(alloc - volume, p)) <= Burden(s, allocCost)
  }

  /** One step of the exchange: `f` units swept and `a0` allocated at the head, `v` and `av` behind it. */
  lemma GreedyStep(s: Side, p: real, p0: real, f: nat, a0: nat, av: nat, v: nat, cost: real, allocCost: real)
    requires Burden(s, p) <= Burden(s, p0) && a0 + av >= f + v
    requires av >= v && Burden(s, cost + Amount(av - v, p0)) <= Burden(s, allocCost)
    ensures Burden(s, Amount(f, p0) + cost + Amount(a0 + av - (f + v), p)) <= Burden(s, Amount(a0, p0) + allocCost)
  {
    var extra := a0 + av - (f + v);
    AmountMono(extra, s, p, p0);
    AmountAdd(extra, f, p0);
    AmountAdd(av - v, a0, p0);
  }

  /** Volume and cost of a sweep that fills the head and goes on. */
  lemma SweepUnfolds(inc: Order, qty: nat, q: seq<Order>, now: nat)
    requires q != [] && 0 < qty && q[0].remaining <= qty && Crosses(inc, q[0].price)
    ensures var r, tail := Sweep(inc, qty, q, now), Sweep(inc, qty - q[0].remaining, q[1..], now + 1);
      && Volume(r.trades) == q[0].remaining + Volume(tail.trades)
      && Cost(r.trades) == Amount(q[0].remaining, q[0].price) + Cost(tail.trades)
  {
    var r := Sweep(inc, qty, q, now);
    assert r.trades[1..] == Sweep(inc, qty - q[0].remaining, q[1..], now + 1).trades;
  }

  /** Volume and cost of a sweep that the head fills. */
  lemma SweepEnds(inc: Order, qty: nat, q: seq<Order>, now: nat)
    requires q != [] && 0 < qty < q[0].remaining && Crosses(inc, q[0].price)
    ensures var r := Sweep(inc, qty, q, now);
      Volume(r.trades) == qty && Cost(r.trades) == Amount(qty, q[0].price)
  {
    var r := Sweep(inc, qty, q, now);
    assert r.trades[1..] == [];
  }

  lemma GreedyFills(inc: Order, qty: nat, q: seq<Order>, now: nat, a: seq<nat>, p: real)
    requires q != [] && |a| == |q| && 0 < qty && q[0].remaining <= qty && Crosses(inc, q[0].price)
    requires NoBetterThan(inc, q, p) && AllocVolume(a) >= Volume(Sweep(inc, qty, q, now).trades)
    requires var r := Sweep(inc, qty - q[0].remaining, q[1..], now + 1);
      NoCheaper(inc.side, q[0].price, Volume(r.trades), Cost(r.trades), AllocVolume(a[1..]), AllocCost(q[1..], a[1..]))
    ensures var r := Sweep(inc, qty, q, now);
      NoCheaper(inc.side, p, Volume(r.trades), Cost(r.trades), AllocVolume(a), AllocCost(q, a))
  {
    var r := Sweep(inc, qty - q[0].remaining, q[1..], now + 1);
    SweepUnfolds(inc, qty, q, now);
    GreedyStep(inc.side, p, q[0].price, q[0].remaining, a[0], AllocVolume(a[1..]), Volume(r.trades),
               Cost(r.trades), AllocCost(q[1..], a[1..]));
  }

  lemma GreedyStops(inc: Order, qty: nat, q: seq<Order>, now: nat, a: seq<nat>, p: real)
    requires q != [] && |a| == |q| && 0 < qty < q[0].remaining && Crosses(inc, q[0].price)
    requires NoBetterThan(inc, q, p) && AllocVolume(a) >= Volume(Sweep(inc, qty, q, now).trades)
    requires NoCheaper(inc.side, q[0].price, 0, 0.0, AllocVolume(a[1..]), AllocCost(q[1..], a[1..]))
    ensures var r := Sweep(inc, qty, q, now);
      NoCheaper(inc.side, p, Volume(r.trades), Cost(r.trades), AllocVolume(a), AllocCost(q, a))
  {
    SweepEnds(inc, qty, q, now);
    GreedyStep(inc.side, p, q[0].price, qty, a[0], AllocVolume(a[1..]), 0, 0.0, AllocCost(q[1..], a[1..]));
  }

  /**
   Exchange argument: an allocation of at least the swept volume costs at least what the sweep pays,
   plus `p` for each further unit, when nothing in the queue is better than `p`.
   */
  lemma {:induction false} GreedyBound(inc: Order, qty: nat, q: seq<Order>, now: nat, a: seq<nat>, p: real)
    requires InPriority(Opposite(inc.side), q) && NoBetterThan(inc, q, p) && Feasible(inc, q, a)
    requires AllocVolume(a) >= Volume(Sweep(inc, qty, q, now).trades)
    ensures var r := Sweep(inc, qty, q, now);
      NoCheaper(inc.side, p, Volume(r.trades), Cost(r.trades), AllocVolume(a), AllocCost(q, a))
  {
    if qty == 0 || q == [] || !Crosses(inc, q[0].price) {
      AllocAtLeast(inc, q, a, p);
    } else {
      TailInPriority(Opposite(inc.side), q);
      TailNoBetter(inc, q);
      TailFeasible(inc, q, a);
      if q[0].remaining <= qty {
        SweepUnfolds(inc, qty, q, now);
        GreedyBound(inc, qty - q[0].remaining, q[1..], now + 1, a[1..], q[0].price);
        GreedyFills(inc, qty, q, now, a, p);
      } else {
        AllocAtLeast(inc, q[1..], a[1..], q[0].price);
        GreedyStops(inc, qty, q, now, a, p);
      }
    }
  }

  /**
   No way to trade the same volume with the resting orders the incoming order may trade with costs a
   buyer less, or brings a seller more, than the sweep does.
   */
  lemma SweepIsOptimal(inc: Order, qty: nat, q: seq<Order>, now: nat, a: seq<nat>)
    requires InPriority(Opposite(inc.side), q) && Feasible(inc, q, a)
    requires AllocVolume(a) == Volume(Sweep(inc, qty, q, now).trades)
    ensures var paid := Cost(Sweep(inc, qty, q, now).trades);
            if inc.side == BUY then paid <= AllocCost(q, a) else paid >= AllocCost(q, a)
  {
    if q != [] {
      TailNoBetter(inc, q);
      forall i | 0 <= i < |q| ensures Burden(inc.side, q[0].price) <= Burden(inc.side, q[i].price) {
        assert i > 0 ==> q[i] == q[1..][i - 1];
      }
      GreedyBound(inc, qty, q, now, a, q[0].price);
    }
  }

  lemma {:induction false} AllocAtMost(inc: Order, q: seq<Order>, a: seq<nat>)
    requires Feasible(inc, q, a)
    ensures AllocVolume(a) <= CrossVolume(inc, q)
  {
    if q != [] {
      TailFeasible(inc, q, a);
      AllocAtMost(inc, q[1..], a[1..]);
    }
  }

  /**
   Best execution in every reachable state: of all ways to fill an accepted order from the resting
   orders it may trade with, none trades more, and none that trades as much is cheaper for a buyer or
   brings a seller more.
   */
  lemma BestExecution(e: Engine, o: Order, a: seq<nat>)
    requires Reachable(e) && Accepts(e, o)
    requires Feasible(o, e.book.Resting(Opposite(o.side)), a) && AllocVolume(a) <= o.quantity
    ensures var trades := Submit(e, o).1.trades;
      var other := AllocCost(e.book.Resting(Opposite(o.side)), a);
      && AllocVolume(a) <= Volume(trades)
      && (AllocVolume(a) == Volume(trades) ==> if o.side == BUY then Cost(trades) <= other else Cost(trades) >= other)
  {
    ReachableGood(e);
    var q := e.book.Resting(Opposite(o.side));
    var inc := Stamped(o, e.nextTs);
    forall p ensures Crosses(inc, p) == Crosses(o, p) {}
    assert Feasible(inc, q, a);
    TradedVolume(inc, o.quantity, q, e.nextTs + 1);
    AllocAtMost(inc, q, a);
    if AllocVolume(a) == Volume(SweepOf(e, o).trades) {
      SweepIsOptimal(inc, o.quantity, q, e.nextTs + 1, a);
    }
  }
}
