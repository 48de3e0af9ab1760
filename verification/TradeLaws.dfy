/** Prices of trades: limits, the collar, the last price, and splitting a MARKET order. */
module TradeLaws {
  import opened Orders
  import opened PriceLevels
  import opened PriceCollar
  import opened Matching
  import opened Exchange
  import opened BookInvariants
  import opened Ledger

  /** Prices of the trades of one submission only move away from the best price. */
  lemma TradePricesMonotone(e: Engine, o: Order, i: nat, j: nat)
    requires Good(e) && Accepts(e, o) && i <= j < |Submit(e, o).1.trades|
    ensures var t := Submit(e, o).1.trades;
            if o.side == BUY then t[i].price <= t[j].price else t[i].price >= t[j].price
  {
    TradesArePositive(e, o, i);
    TradesArePositive(e, o, j);
    var q := e.book.Resting(Opposite(o.side));
    assert i < j ==> Precedes(Opposite(o.side), q[i], q[j]);
  }

  /**
   A LIMIT order is rejected exactly when its price is outside the collar around the last price. All
   trades of an accepted one respect its limit and the collar around the price that was last when it
   arrived, although the last price moves while the order sweeps. A rejected order changes nothing but
   the clock, and is told its id and on which side of the collar it was.
   */
  lemma LimitAndCollar(e: Engine, o: Order)
    requires o.kind == LIMIT
    ensures var (e', r) := Submit(e, o);
      && (r.Rejected? <==> e.last.Some? && !(CollarLow(e) <= o.price <= CollarHigh(e)))
      && (r.Rejected? ==>
            && e' == e.(nextTs := e.nextTs + 1)
            && r == Rejected(o.id, if o.price > CollarHigh(e) then PRICE_TOO_HIGH else PRICE_TOO_LOW))
      && (r.Filled? ==> forall i :: 0 <= i < |r.trades| ==>
            if o.side == BUY
            then r.trades[i].price <= o.price && (e.last.Some? ==> r.trades[i].price <= CollarHigh(e))
            else r.trades[i].price >= o.price && (e.last.Some? ==> r.trades[i].price >= CollarLow(e)))
  {
    var lo, hi := CollarLow(e), CollarHigh(e);
    assert Accepts(e, o) <==> e.last.None? || lo <= o.price <= hi by {
      if e.last.Some? {
        AcceptedPrices(e.band, o.price, e.last.value);
      }
    }
    if Accepts(e, o) {
      forall i | 0 <= i < |SweepOf(e, o).trades| ensures Crosses(o, SweepOf(e, o).trades[i].price) {
        SweepTrade(Stamped(o, e.nextTs), o.quantity, e.book.Resting(Opposite(o.side)), e.nextTs + 1, i);
      }
    }
  }

  function CollarLow(e: Engine): real {
    if e.last.Some? then e.last.value * (1.0 - e.band) else 0.0
  }

  function CollarHigh(e: Engine): real {
    if e.last.Some? then e.last.value * (1.0 + e.band) else 0.0
  }

  /** The timestamp of the order whose arrival made the most recent trade. */
  function LastAggressor(e: Engine, ops: seq<Op>): Option<nat> {
    if ops == [] then None else
      var mid := Run(e, ops[..|ops| - 1]).0;
      if Step(mid, ops[|ops| - 1]).1 != [] then Some(mid.nextTs) else LastAggressor(e, ops[..|ops| - 1])
  }

  /** What a trading sweep leaves is on its own side of its final price, which the order accepted. */
  lemma SweptBeyond(s: Side, inc: Order, qty: nat, q: seq<Order>, now: nat, i: nat)
    requires s == Opposite(inc.side) && GoodSide(s, q, now)
    requires Sweep(inc, qty, q, now).trades != []
    ensures var r := Sweep(inc, qty, q, now);
      var p := r.trades[|r.trades| - 1].price;
      && Crosses(inc, p) && (exists n :: 0 <= n < |q| && q[n].price == p)
      && (i < |r.rest| ==> !Ahead(s, r.rest[i].price, p) && r.rest[i].timestamp < now)
  {
    var r := Sweep(inc, qty, q, now);
    var n := |r.trades| - 1;
    SweepRest(inc, qty, q, now);
    SweepTrade(inc, qty, q, now, n);
    assert q[n].price == r.trades[n].price;
    if i < |r.rest| {
      SweepRestAt(inc, qty, q, now, i);
      assert n < i + |r.gone| ==> Precedes(s, q[n], q[i + |r.gone|]);
    }
  }

  /** Orders older than time `t` are on their own side of `p`; the one of time `t` reaches across it. */
  predicate OnOwnSide(s: Side, q: seq<Order>, t: nat, p: real) {
    forall i :: 0 <= i < |q| ==>
      && (q[i].timestamp < t ==> !Ahead(s, q[i].price, p))
      && (q[i].timestamp == t ==> !Ahead(s, p, q[i].price))
  }

  predicate Sandwiches(b: Book, t: nat, p: real) {
    OnOwnSide(BUY, b.bids, t, p) && OnOwnSide(SELL, b.asks, t, p)
  }

  lemma InsertOnOwnSide(s: Side, q: seq<Order>, o: Order, p: real)
    requires forall i :: 0 <= i < |q| ==> q[i].timestamp < o.timestamp && !Ahead(s, q[i].price, p)
    requires !Ahead(s, p, o.price)
    ensures OnOwnSide(s, Insert(s, q, o), o.timestamp, p)
  {
  }

  /** In an uncrossed book the price of an order is beyond every order of the other side. */
  lemma OwnSideBelow(e: Engine, s: Side, p: real)
    requires Good(e) && exists n :: 0 <= n < |e.book.Resting(Opposite(s))| && e.book.Resting(Opposite(s))[n].price == p
    ensures var own := e.book.Resting(s);
      forall i :: 0 <= i < |own| ==> own[i].timestamp < e.nextTs && !Ahead(s, own[i].price, p)
  {
  }

  /** What a trading submission leaves of the other side is beyond its last price, which it accepted. */
  lemma RestOnOwnSide(e: Engine, o: Order)
    requires Good(e) && SweepOf(e, o).trades != []
    ensures var r := SweepOf(e, o);
      var s := Opposite(o.side);
      var p := r.trades[|r.trades| - 1].price;
      && OnOwnSide(s, r.rest, e.nextTs, p) && Crosses(Stamped(o, e.nextTs), p)
      && (exists n :: 0 <= n < |e.book.Resting(s)| && e.book.Resting(s)[n].price == p)
  {
    var inc, s, now := Stamped(o, e.nextTs), Opposite(o.side), e.nextTs + 1;
    var q, r := e.book.Resting(s), SweepOf(e, o);
    var p := r.trades[|r.trades| - 1].price;
    MoreTime(s, q, e.nextTs, now);
    SweptBeyond(s, inc, o.quantity, q, now, 0);
    forall i | 0 <= i < |r.rest| ensures !Ahead(s, r.rest[i].price, p) && r.rest[i].timestamp < e.nextTs {
      SweptBeyond(s, inc, o.quantity, q, now, i);
      SweepRestAt(inc, o.quantity, q, now, i);
    }
  }

  lemma TradingSandwiches(e: Engine, o: Order)
    requires Good(e) && Accepts(e, o) && SweepOf(e, o).trades != []
    ensures var e' := Submit(e, o).0;
      e'.last.Some? && Sandwiches(e'.book, e.nextTs, e'.last.value)
  {
    var r := SweepOf(e, o);
    var p := r.trades[|r.trades| - 1].price;
    RestOnOwnSide(e, o);
    OwnSideBelow(e, o.side, p);
    if r.left > 0 && o.kind == LIMIT {
      InsertOnOwnSide(o.side, e.book.Resting(o.side), Stamped(o, e.nextTs).(remaining := r.left), p);
    }
    SubmitSides(e, o);
    BothSides(Submit(e, o).0.book, o.side, e.nextTs, p);
  }

  lemma BothSides(b: Book, s: Side, t: nat, p: real)
    requires OnOwnSide(s, b.Resting(s), t, p) && OnOwnSide(Opposite(s), b.Resting(Opposite(s)), t, p)
    ensures Sandwiches(b, t, p)
  {
  }

  /** Removing orders, or adding ones later than `t`, keeps the sandwich. */
  lemma StillSandwiches(b: Book, b': Book, t: nat, p: real)
    requires Sandwiches(b, t, p)
    requires forall s: Side, i: nat :: i < |b'.Resting(s)| ==> b'.Resting(s)[i].timestamp > t || b'.Resting(s)[i] in b.Resting(s)
    ensures Sandwiches(b', t, p)
  {
    assert b'.Resting(BUY) == b'.bids && b'.Resting(SELL) == b'.asks;
  }

  lemma CancelSandwiches(e: Engine, id: nat, t: nat, p: real)
    requires Good(e) && Sandwiches(e.book, t, p)
    ensures Sandwiches(Cancel(e, id).0.book, t, p)
  {
    if id in e.book.index {
      var info := e.book.index[id];
      WithoutKeepsSide(info.side, e.book.Resting(info.side), id, info.price, e.nextTs);
    }
    StillSandwiches(e.book, Cancel(e, id).0.book, t, p);
  }

  lemma QuietSubmit(e: Engine, o: Order)
    requires Accepts(e, o) && SweepOf(e, o).trades == []
    ensures var b := Submit(e, o).0.book;
      && b.Resting(Opposite(o.side)) == e.book.Resting(Opposite(o.side))
      && forall i :: 0 <= i < |b.Resting(o.side)| ==>
           b.Resting(o.side)[i].timestamp == e.nextTs || b.Resting(o.side)[i] in e.book.Resting(o.side)
  {
    assert SweepOf(e, o).rest == e.book.Resting(Opposite(o.side));
    var k := InsertSplits(o.side, e.book.Resting(o.side), Stamped(o, e.nextTs).(remaining := SweepOf(e, o).left));
  }

  lemma QuietStepSandwiches(e: Engine, op: Op, t: nat, p: real)
    requires Good(e) && Step(e, op).1 == [] && Sandwiches(e.book, t, p) && t < e.nextTs
    ensures Sandwiches(Step(e, op).0.book, t, p) && Step(e, op).0.last == e.last && t < Step(e, op).0.nextTs
  {
    match op {
      case CancelOp(id) =>
        CancelSandwiches(e, id, t, p);
      case SubmitOp(o) =>
        if Accepts(e, o) {
          QuietSubmit(e, o);
          var b := Submit(e, o).0.book;
          forall s: Side, i: nat | i < |b.Resting(s)|
            ensures b.Resting(s)[i].timestamp > t || b.Resting(s)[i] in e.book.Resting(s)
          {
            assert s == o.side || s == Opposite(o.side);
          }
          StillSandwiches(e.book, b, t, p);
        }
    }
  }

  /**
   In every reachable state after a trade, each order that rested before the last trading submission
   lies on its own side of the last price, and the remainder of that submission on the other.
   */
  lemma {:induction false} LastPriceSandwich(band: real, ops: seq<Op>)
    ensures var e := Run(Fresh(band), ops).0;
      var t := LastAggressor(Fresh(band), ops);
      && (t.Some? <==> e.last.Some?)
      && (t.Some? ==> t.value < e.nextTs && Sandwiches(e.book, t.value, e.last.value))
  {
    if ops != [] {
      var init := ops[..|ops| - 1];
      var op := ops[|ops| - 1];
      LastPriceSandwich(band, init);
      RunGood(Fresh(band), init);
      var mid := Run(Fresh(band), init).0;
      var t := LastAggressor(Fresh(band), init);
      if Step(mid, op).1 != [] {
        TradingSandwiches(mid, op.order);
      } else if t.Some? {
        QuietStepSandwiches(mid, op, t.value, mid.last.value);
      }
    }
  }

  /** Two orders that trade at the same prices, whoever placed them and when; a MARKET order has no price of its own. */
  predicate SameTerms(a: Order, b: Order) {
    a.side == b.side && a.kind == b.kind && (a.kind == MARKET || a.price == b.price)
  }

  function FinalPrice(trades: seq<Trade>): Option<real> {
    LastPrice(None, trades)
  }

  /** Outcomes `one` and then `two` amount to `all`, for the book and for resting order `id` of side `s`. */
  predicate AddsUp(s: Side, id: nat, all: Outcome, one: Outcome, two: Outcome) {
    && two.rest == all.rest && one.gone + two.gone == all.gone && one.left + two.left == all.left
    && FinalPrice(all.trades) == (if two.trades == [] then FinalPrice(one.trades) else FinalPrice(two.trades))
    && Traded(s, id, all.trades) == Traded(s, id, one.trades) + Traded(s, id, two.trades)
  }

  /** Sweeping `a + b` units is sweeping `a` and then `b`. */
  lemma {:induction false} SweepSplit(inc: Order, again: Order, a: nat, b: nat, q: seq<Order>, now: nat, later: nat, id: nat)
    requires SameTerms(inc, again)
    ensures var one := Sweep(inc, a, q, now);
            AddsUp(Opposite(inc.side), id, Sweep(inc, a + b, q, now), one, Sweep(again, b, one.rest, later))
  {
    if a == 0 || q == [] || !Crosses(inc, q[0].price) {
      SplitAtOnce(inc, again, a, b, q, now, later, id);
    } else if q[0].remaining <= a {
      SweepSplit(inc, again, a - q[0].remaining, b, q[1..], now + 1, later, id);
      SplitAfter(inc, again, a, b, q, now, later, id);
    } else {
      SplitInside(inc, again, a, b, q, now, later, id);
    }
  }

  lemma SplitAtOnce(inc: Order, again: Order, a: nat, b: nat, q: seq<Order>, now: nat, later: nat, id: nat)
    requires SameTerms(inc, again) && (a == 0 || q == [] || !Crosses(inc, q[0].price))
    ensures var one := Sweep(inc, a, q, now);
            AddsUp(Opposite(inc.side), id, Sweep(inc, a + b, q, now), one, Sweep(again, b, one.rest, later))
  {
    if a == 0 {
      SameSweep(inc, again, b, q, now, later, id);
    }
  }

  lemma SplitAfter(inc: Order, again: Order, a: nat, b: nat, q: seq<Order>, now: nat, later: nat, id: nat)
    requires a > 0 && q != [] && Crosses(inc, q[0].price) && q[0].remaining <= a
    requires var one := Sweep(inc, a - q[0].remaining, q[1..], now + 1);
             AddsUp(Opposite(inc.side), id, Sweep(inc, a - q[0].remaining + b, q[1..], now + 1), one, Sweep(again, b, one.rest, later))
    ensures var one := Sweep(inc, a, q, now);
            AddsUp(Opposite(inc.side), id, Sweep(inc, a + b, q, now), one, Sweep(again, b, one.rest, later))
  {
    var m := q[0].remaining;
    var t := MakeTrade(inc, q[0], m, now);
    var all, one := Sweep(inc, a - m + b, q[1..], now + 1), Sweep(inc, a - m, q[1..], now + 1);
    assert a - m + b == a + b - m;
    assert Sweep(inc, a, q, now) == Prepend(t, q[0].id, one);
    assert Sweep(inc, a + b, q, now) == Prepend(t, q[0].id, all);
    SplitStep(Opposite(inc.side), id, t, q[0].id, all, one, Sweep(again, b, one.rest, later));
  }

  function Prepend(t: Trade, x: nat, r: Outcome): Outcome {
    Outcome([t] + r.trades, r.rest, r.left, [x] + r.gone)
  }

  lemma SplitStep(s: Side, id: nat, t: Trade, x: nat, all: Outcome, one: Outcome, two: Outcome)
    requires AddsUp(s, id, all, one, two)
    ensures AddsUp(s, id, Prepend(t, x, all), Prepend(t, x, one), two)
  {
  }

  /** Two outcomes that are the same to the book, and to resting order `id` of side `s`. */
  predicate SameOutcome(s: Side, id: nat, r: Outcome, r': Outcome) {
    && r'.rest == r.rest && r'.gone == r.gone && r'.left == r.left && |r'.trades| == |r.trades|
    && FinalPrice(r'.trades) == FinalPrice(r.trades) && Traded(s, id, r'.trades) == Traded(s, id, r.trades)
  }

  lemma SameStep(s: Side, id: nat, t: Trade, t': Trade, x: nat, r: Outcome, r': Outcome)
    requires SameOutcome(s, id, r, r')
    requires t'.price == t.price && t'.quantity == t.quantity && Party(s, t') == Party(s, t)
    ensures SameOutcome(s, id, Prepend(t, x, r), Prepend(t', x, r'))
  {
    TradedConcat(s, id, [t], r.trades);
    TradedConcat(s, id, [t'], r'.trades);
  }

  lemma SameCrossing(a: Order, b: Order, p: real)
    requires SameTerms(a, b)
    ensures Crosses(a, p) <==> Crosses(b, p)
  {
  }

  /** Who sweeps and when does not matter to the book. */
  lemma {:induction false} SameSweep(inc: Order, again: Order, b: nat, q: seq<Order>, now: nat, later: nat, id: nat)
    requires SameTerms(inc, again)
    ensures SameOutcome(Opposite(inc.side), id, Sweep(inc, b, q, now), Sweep(again, b, q, later))
  {
    if b != 0 && q != [] {
      SameCrossing(inc, again, q[0].price);
      var m := q[0].remaining;
      if Crosses(inc, q[0].price) && m <= b {
        var t, t' := MakeTrade(inc, q[0], m, now), MakeTrade(again, q[0], m, later);
        var r, r' := Sweep(inc, b - m, q[1..], now + 1), Sweep(again, b - m, q[1..], later + 1);
        SameSweep(inc, again, b - m, q[1..], now + 1, later + 1, id);
        SameStep(Opposite(inc.side), id, t, t', q[0].id, r, r');
        assert Sweep(inc, b, q, now) == Prepend(t, q[0].id, r);
        assert Sweep(again, b, q, later) == Prepend(t', q[0].id, r');
      }
    }
  }

  /** The first part ends inside an order, and the second goes on with what it left there. */
  lemma SplitInside(inc: Order, again: Order, a: nat, b: nat, q: seq<Order>, now: nat, later: nat, id: nat)
    requires SameTerms(inc, again) && q != [] && Crosses(inc, q[0].price) && 0 < a < q[0].remaining
    ensures var one := Sweep(inc, a, q, now);
            AddsUp(Opposite(inc.side), id, Sweep(inc, a + b, q, now), one, Sweep(again, b, one.rest, later))
  {
    var m := q[0].remaining;
    var q' := [q[0].(remaining := m - a)] + q[1..];
    assert q'[1..] == q[1..];
    assert Sweep(inc, a, q, now) == Outcome([MakeTrade(inc, q[0], a, now)], q', 0, []);
    if b > 0 && m <= a + b {
      SplitAcross(inc, again, a, b, q, now, later, id);
    } else if b > 0 {
      SplitWithin(inc, again, a, b, q, now, later, id);
    }
  }

  /** Both parts end inside the same order. */
  lemma SplitWithin(inc: Order, again: Order, a: nat, b: nat, q: seq<Order>, now: nat, later: nat, id: nat)
    requires SameTerms(inc, again) && q != [] && Crosses(inc, q[0].price) && a > 0 && b > 0 && a + b < q[0].remaining
    ensures var one := Sweep(inc, a, q, now);
            AddsUp(Opposite(inc.side), id, Sweep(inc, a + b, q, now), one, Sweep(again, b, one.rest, later))
  {
    var m := q[0].remaining;
    var q', q'' := [q[0].(remaining := m - a)] + q[1..], [q[0].(remaining := m - a - b)] + q[1..];
    var t, t1, t2 := MakeTrade(inc, q[0], a + b, now), MakeTrade(inc, q[0], a, now), MakeTrade(again, q'[0], b, later);
    SameCrossing(inc, again, q[0].price);
    assert q'[1..] == q[1..];
    assert Sweep(inc, a + b, q, now) == Outcome([t], q'', 0, []);
    assert Sweep(inc, a, q, now) == Outcome([t1], q', 0, []);
    assert Sweep(again, b, q', later) == Outcome([t2], q'', 0, []);
    GlueWithin(Opposite(inc.side), id, q', q'', t, t1, t2);
  }

  lemma GlueWithin(s: Side, id: nat, q': seq<Order>, q'': seq<Order>, t: Trade, t1: Trade, t2: Trade)
    requires Party(s, t) == Party(s, t1) == Party(s, t2) && t.quantity == t1.quantity + t2.quantity && t.price == t2.price
    ensures AddsUp(s, id, Outcome([t], q'', 0, []), Outcome([t1], q', 0, []), Outcome([t2], q'', 0, []))
  {
  }

  lemma SplitAcross(inc: Order, again: Order, a: nat, b: nat, q: seq<Order>, now: nat, later: nat, id: nat)
    requires SameTerms(inc, again) && q != [] && Crosses(inc, q[0].price)
    requires 0 < a < q[0].remaining <= a + b
    ensures var one := Sweep(inc, a, q, now);
            AddsUp(Opposite(inc.side), id, Sweep(inc, a + b, q, now), one, Sweep(again, b, one.rest, later))
  {
    var s := Opposite(inc.side);
    var m := q[0].remaining;
    var n := a + b - m;
    var q' := [q[0].(remaining := m - a)] + q[1..];
    assert q'[1..] == q[1..];
    var t, t1, t2 := MakeTrade(inc, q[0], m, now), MakeTrade(inc, q[0], a, now), MakeTrade(again, q'[0], m - a, later);
    var tail, tail' := Sweep(inc, n, q[1..], now + 1), Sweep(again, n, q[1..], later + 1);
    assert Sweep(inc, a + b, q, now) == Prepend(t, q[0].id, tail);
    assert Sweep(inc, a, q, now) == Outcome([t1], q', 0, []);
    assert b - (m - a) == n;
    assert Sweep(again, b, q', later) == Prepend(t2, q[0].id, tail');
    SameSweep(inc, again, n, q[1..], now + 1, later + 1, id);
    GlueAcross(s, id, q[0].id, q', t, t1, t2, tail, tail');
  }

  lemma GlueAcross(s: Side, id: nat, x: nat, q: seq<Order>, t: Trade, t1: Trade, t2: Trade, tail: Outcome, tail': Outcome)
    requires tail'.rest == tail.rest && tail'.gone == tail.gone && tail'.left == tail.left
    requires |tail'.trades| == |tail.trades| && FinalPrice(tail'.trades) == FinalPrice(tail.trades)
    requires Traded(s, id, tail'.trades) == Traded(s, id, tail.trades)
    requires Party(s, t) == Party(s, t1) == Party(s, t2) && t.quantity == t1.quantity + t2.quantity && t.price == t2.price
    ensures AddsUp(s, id, Prepend(t, x, tail), Outcome([t1], q, 0, []), Prepend(t2, x, tail'))
  {
  }

  /**
   A MARKET order of `a + b` units, or one of `a` and then one of `b` on the same side, leave the same
   book, index and last price, and give every resting order the same number of units.
   */
  lemma MarketSplit(e: Engine, o: Order, o1: Order, o2: Order, id: nat)
    requires o.kind == MARKET && SameTerms(o, o1) && SameTerms(o, o2) && o.quantity == o1.quantity + o2.quantity
    ensures var whole := Submit(e, o);
      var first := Submit(e, o1);
      var second := Submit(first.0, o2);
      && second.0.book == whole.0.book && second.0.last == whole.0.last
      && Traded(Opposite(o.side), id, first.1.trades + second.1.trades) == Traded(Opposite(o.side), id, whole.1.trades)
  {
    var s := Opposite(o.side);
    var e1 := Submit(e, o1).0;
    MarketSubmit(e, o);
    MarketSubmit(e, o1);
    MarketSubmit(e1, o2);
    assert e1.book.Resting(s) == SweepOf(e, o1).rest;
    MarketSweeps(Stamped(o, e.nextTs), Stamped(o1, e.nextTs), Stamped(o2, e1.nextTs), o1.quantity, o2.quantity,
                 e.book.Resting(s), e.nextTs + 1, e1.nextTs + 1, id);
    SweptTwice(e.book, s, id, e.last, SweepOf(e, o), SweepOf(e, o1), SweepOf(e1, o2));
  }

  lemma MarketSweeps(inc: Order, first: Order, again: Order, a: nat, b: nat, q: seq<Order>, now: nat, later: nat, id: nat)
    requires SameTerms(inc, first) && SameTerms(inc, again)
    ensures var one := Sweep(first, a, q, now);
            AddsUp(Opposite(inc.side), id, Sweep(inc, a + b, q, now), one, Sweep(again, b, one.rest, later))
  {
    SweepSplit(first, again, a, b, q, now, later, id);
    SameSweep(inc, first, a + b, q, now, now, id);
  }

  lemma SweptTwice(b: Book, s: Side, id: nat, last: Option<real>, all: Outcome, one: Outcome, two: Outcome)
    requires AddsUp(s, id, all, one, two)
    ensures SweptBook(SweptBook(b, s, one), s, two) == SweptBook(b, s, all)
    ensures LastPrice(LastPrice(last, one.trades), two.trades) == LastPrice(last, all.trades)
    ensures Traded(s, id, one.trades + two.trades) == Traded(s, id, all.trades)
  {
    AlsoGone(b.index, one.gone, two.gone);
    TradedConcat(s, id, one.trades, two.trades);
    FinalPriceDecides(last, one.trades);
    FinalPriceDecides(LastPrice(last, one.trades), two.trades);
    FinalPriceDecides(last, all.trades);
  }

  lemma MarketSubmit(e: Engine, o: Order)
    requires o.kind == MARKET
    ensures var r := SweepOf(e, o);
      && Submit(e, o).1 == Filled(r.trades)
      && Submit(e, o).0.book == SweptBook(e.book, Opposite(o.side), r)
      && Submit(e, o).0.last == LastPrice(e.last, r.trades)
  {
  }

  lemma FinalPriceDecides(last: Option<real>, trades: seq<Trade>)
    ensures LastPrice(last, trades) == if FinalPrice(trades).Some? then FinalPrice(trades) else last
  {
  }
}
