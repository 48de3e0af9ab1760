/** Where resting orders and trades come from: over every run, from what was submitted. */
module Provenance {
  import opened Orders
  import opened PriceLevels
  import opened Matching
  import opened Exchange
  import opened BookInvariants
  import opened Ledger

  /** Matching changes how much of an order remains, and arrival stamps it; the rest stays as submitted. */
  predicate SameTerms(r: Order, o: Order) {
    && r.id == o.id && r.client == o.client && r.side == o.side && r.kind == o.kind
    && r.symbol == o.symbol && r.price == o.price && r.quantity == o.quantity
  }

  predicate SubmittedAt(r: Order, ops: seq<Op>, k: nat) {
    k < |ops| && ops[k].SubmitOp? && SameTerms(r, ops[k].order)
  }

  ghost predicate WasSubmitted(r: Order, ops: seq<Op>) {
    exists k: nat :: SubmittedAt(r, ops, k)
  }

  ghost predicate AllSubmitted(q: seq<Order>, ops: seq<Op>) {
    forall i :: 0 <= i < |q| ==> WasSubmitted(q[i], ops)
  }

  ghost predicate Known(r: Order, q: seq<Order>) {
    exists j :: 0 <= j < |q| && SameTerms(r, q[j])
  }

  lemma InsertOrigins(s: Side, q: seq<Order>, o: Order, i: nat)
    requires i < |Insert(s, q, o)|
    ensures Known(Insert(s, q, o)[i], q) || Insert(s, q, o)[i] == o
  {
    var k := InsertSplits(s, q, o);
    if i < k {
      assert Insert(s, q, o)[i] == q[i];
    } else if i > k {
      assert Insert(s, q, o)[i] == q[i - 1];
    }
  }

  lemma SweepOrigins(inc: Order, qty: nat, q: seq<Order>, now: nat, i: nat)
    requires i < |Sweep(inc, qty, q, now).rest|
    ensures Known(Sweep(inc, qty, q, now).rest[i], q)
  {
    SweepRestAt(inc, qty, q, now, i);
    assert SameTerms(Sweep(inc, qty, q, now).rest[i], q[i + |Sweep(inc, qty, q, now).gone|]);
  }

  lemma StepOrigins(e: Engine, op: Op, s: Side, i: nat)
    requires i < |Step(e, op).0.book.Resting(s)|
    ensures var r := Step(e, op).0.book.Resting(s)[i];
      Known(r, e.book.Resting(s)) || (op.SubmitOp? && SameTerms(r, op.order))
  {
    var q := e.book.Resting(s);
    match op {
      case SubmitOp(o) =>
        if !Accepts(e, o) {
          assert SameTerms(q[i], q[i]);
        } else if s == Opposite(o.side) {
          SweepOrigins(Stamped(o, e.nextTs), o.quantity, q, e.nextTs + 1, i);
        } else if SweepOf(e, o).left > 0 && o.kind == LIMIT {
          InsertOrigins(s, q, Stamped(o, e.nextTs).(remaining := SweepOf(e, o).left), i);
        } else {
          assert SameTerms(q[i], q[i]);
        }
      case CancelOp(id) =>
        CancelOrigins(e, id, s, i);
    }
  }

  lemma CancelOrigins(e: Engine, id: nat, s: Side, i: nat)
    requires i < |Cancel(e, id).0.book.Resting(s)|
    ensures Known(Cancel(e, id).0.book.Resting(s)[i], e.book.Resting(s))
  {
    var q := e.book.Resting(s);
    if id in e.book.index && e.book.index[id].side == s {
      WithoutOrigins(q, id, e.book.index[id].price, i);
    } else {
      assert SameTerms(q[i], q[i]);
    }
  }

  lemma WithoutOrigins(q: seq<Order>, id: nat, p: real, i: nat)
    requires i < |Without(q, id, p)|
    ensures Known(Without(q, id, p)[i], q)
  {
    var k := WithoutSplits(q, id, p);
    if i < k {
      assert Without(q, id, p)[i] == q[i];
    } else {
      assert Without(q, id, p)[i] == q[i + 1];
    }
  }

  lemma KeptSubmitted(r: Order, q: seq<Order>, ops: seq<Op>, op: Op)
    requires AllSubmitted(q, ops) && (Known(r, q) || (op.SubmitOp? && SameTerms(r, op.order)))
    ensures WasSubmitted(r, ops + [op])
  {
    if Known(r, q) {
      var j :| 0 <= j < |q| && SameTerms(r, q[j]);
      var k: nat :| SubmittedAt(q[j], ops, k);
      assert SubmittedAt(r, ops + [op], k);
    } else {
      assert SubmittedAt(r, ops + [op], |ops|);
    }
  }

  lemma StepSubmitted(e: Engine, before: seq<Op>, op: Op, ops: seq<Op>, s: Side)
    requires AllSubmitted(e.book.Resting(s), before) && ops == before + [op]
    ensures AllSubmitted(Step(e, op).0.book.Resting(s), ops)
  {
    var q := Step(e, op).0.book.Resting(s);
    forall i | 0 <= i < |q| ensures WasSubmitted(q[i], ops) {
      StepOrigins(e, op, s, i);
      KeptSubmitted(q[i], e.book.Resting(s), before, op);
    }
  }

  /** Whatever rests, on either side, was submitted, and all its terms are still those of its submission. */
  lemma {:induction false} RestingWasSubmitted(band: real, ops: seq<Op>, s: Side)
    ensures AllSubmitted(Run(Fresh(band), ops).0.book.Resting(s), ops)
  {
    if ops != [] {
      var init, op := ops[..|ops| - 1], ops[|ops| - 1];
      RestingWasSubmitted(band, init, s);
      StepSubmitted(Run(Fresh(band), init).0, init, op, ops, s);
    }
  }

  /** The trade of a resting `maker` with an arriving `taker`: who is who, at whose price, within both limits. */
  predicate Between(t: Trade, maker: Order, taker: Order) {
    && maker.kind == LIMIT && t.price == maker.price && 0 < t.quantity <= maker.quantity && t.quantity <= taker.quantity
    && match taker.side
       case BUY => && maker.side == SELL && t.buyId == taker.id && t.sellId == maker.id
                   && (taker.kind == LIMIT ==> t.price <= taker.price)
       case SELL => && maker.side == BUY && t.buyId == maker.id && t.sellId == taker.id
                    && (taker.kind == LIMIT ==> t.price >= taker.price)
  }

  lemma {:induction false} TradesWithin(inc: Order, qty: nat, q: seq<Order>, now: nat, i: nat)
    requires i < |Sweep(inc, qty, q, now).trades|
    ensures Sweep(inc, qty, q, now).trades[i].quantity <= qty
  {
    if i > 0 {
      TradesWithin(inc, qty - q[0].remaining, q[1..], now + 1, i - 1);
    }
  }

  /** The i-th trade of an arriving order is with the i-th order of the other side. */
  lemma TradesAreBetween(e: Engine, o: Order, i: nat)
    requires Good(e) && i < |Step(e, SubmitOp(o)).1|
    ensures var q := e.book.Resting(Opposite(o.side));
      i < |q| && Between(Step(e, SubmitOp(o)).1[i], q[i], o)
  {
    var q := e.book.Resting(Opposite(o.side));
    TradesArePositive(e, o, i);
    SweepTrade(Stamped(o, e.nextTs), o.quantity, q, e.nextTs + 1, i);
    TradesWithin(Stamped(o, e.nextTs), o.quantity, q, e.nextTs + 1, i);
    assert RestsOn(Opposite(o.side), q[i], e.nextTs);
  }

  lemma TermsDecide(t: Trade, r: Order, maker: Order, taker: Order)
    requires Between(t, r, taker) && SameTerms(r, maker)
    ensures Between(t, maker, taker)
  {
  }

  /** So it is with an order that was submitted before. */
  lemma MakersWereSubmitted(e: Engine, ops: seq<Op>, o: Order, i: nat)
    requires Good(e) && AllSubmitted(e.book.Resting(Opposite(o.side)), ops) && i < |Step(e, SubmitOp(o)).1|
    ensures exists k :: 0 <= k < |ops| && ops[k].SubmitOp? && Between(Step(e, SubmitOp(o)).1[i], ops[k].order, o)
  {
    TradesAreBetween(e, o, i);
    var q := e.book.Resting(Opposite(o.side));
    assert WasSubmitted(q[i], ops);
    var k: nat :| SubmittedAt(q[i], ops, k);
    TermsDecide(Step(e, SubmitOp(o)).1[i], q[i], ops[k].order, o);
  }

  /** The trade `t` is of the orders of operations `j` and `k`, the earlier of which rested. */
  predicate TradeOf(t: Trade, ops: seq<Op>, j: nat, k: nat) {
    j < k < |ops| && ops[j].SubmitOp? && ops[k].SubmitOp? && Between(t, ops[j].order, ops[k].order)
  }

  ghost predicate OfOrders(t: Trade, ops: seq<Op>) {
    exists j: nat, k: nat :: TradeOf(t, ops, j, k)
  }

  lemma StillOfOrders(t: Trade, ops: seq<Op>, op: Op)
    requires OfOrders(t, ops)
    ensures OfOrders(t, ops + [op])
  {
    var j: nat, k: nat :| TradeOf(t, ops, j, k);
    assert TradeOf(t, ops + [op], j, k);
  }

  lemma NewlyOfOrders(e: Engine, ops: seq<Op>, op: Op, t: Trade)
    requires Good(e) && AllSubmitted(e.book.bids, ops) && AllSubmitted(e.book.asks, ops) && t in Step(e, op).1
    ensures OfOrders(t, ops + [op])
  {
    var i: nat :| i < |Step(e, op).1| && Step(e, op).1[i] == t;
    MakersWereSubmitted(e, ops, op.order, i);
    var j: nat :| j < |ops| && ops[j].SubmitOp? && Between(t, ops[j].order, op.order);
    assert TradeOf(t, ops + [op], j, |ops|);
  }

  lemma LastOfOrders(band: real, ops: seq<Op>, op: Op, t: Trade)
    requires t in Step(Run(Fresh(band), ops).0, op).1
    ensures OfOrders(t, ops + [op])
  {
    RunGood(Fresh(band), ops);
    RestingWasSubmitted(band, ops, BUY);
    RestingWasSubmitted(band, ops, SELL);
    NewlyOfOrders(Run(Fresh(band), ops).0, ops, op, t);
  }

  /** Every trade of every run is of two submitted orders: the later one took from the earlier, at the earlier one's price. */
  lemma {:induction false} TradesAreOfOrders(band: real, ops: seq<Op>, t: Trade)
    requires t in Run(Fresh(band), ops).1
    ensures OfOrders(t, ops)
  {
    var init, op := ops[..|ops| - 1], ops[|ops| - 1];
    assert init + [op] == ops;
    if t in Run(Fresh(band), init).1 {
      TradesAreOfOrders(band, init, t);
      StillOfOrders(t, init, op);
    } else {
      LastOfOrders(band, init, op, t);
    }
  }
}
