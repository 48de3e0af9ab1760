/** Where every unit of every submitted quantity goes. */
module Ledger {
  import opened Orders
  import opened PriceLevels
  import opened Matching
  import opened Exchange
  import opened BookInvariants

  /** The order a trade names on side `s`. */
  function Party(s: Side, t: Trade): nat {
    if s == BUY then t.buyId else t.sellId
  }

  /** Units that `trades` give to order `id` of side `s`. */
  function Traded(s: Side, id: nat, trades: seq<Trade>): nat {
    if trades == [] then 0
    else (if Party(s, trades[0]) == id then trades[0].quantity else 0) + Traded(s, id, trades[1..])
  }

  /** Units of orders with this id still resting in `q`. */
  function Resting(id: nat, q: seq<Order>): nat {
    if q == [] then 0 else (if q[0].id == id then q[0].remaining else 0) + Resting(id, q[1..])
  }

  lemma TradedCons(s: Side, id: nat, t: Trade, rest: seq<Trade>)
    ensures Traded(s, id, [t] + rest) == (if Party(s, t) == id then t.quantity else 0) + Traded(s, id, rest)
  {
  }

  lemma RestingCons(id: nat, o: Order, rest: seq<Order>)
    ensures Resting(id, [o] + rest) == (if o.id == id then o.remaining else 0) + Resting(id, rest)
  {
  }

  lemma {:induction false} TradedConcat(s: Side, id: nat, a: seq<Trade>, b: seq<Trade>)
    ensures Traded(s, id, a + b) == Traded(s, id, a) + Traded(s, id, b)
  {
    if a == [] {
      assert a + b == b;
    } else {
      assert (a + b)[1..] == a[1..] + b;
      TradedConcat(s, id, a[1..], b);
    }
  }

  /** A sweep moves units from the queue to trades, and from the incoming order to trades. */
  lemma {:induction false} SweepConserves(inc: Order, qty: nat, q: seq<Order>, now: nat, id: nat)
    ensures var r := Sweep(inc, qty, q, now);
      && Resting(id, q) == Resting(id, r.rest) + Traded(Opposite(inc.side), id, r.trades)
      && r.left <= qty
      && Traded(inc.side, id, r.trades) == if id == inc.id then qty - r.left else 0
  {
    var s := Opposite(inc.side);
    if qty == 0 || q == [] || !Crosses(inc, q[0].price) {
    } else if q[0].remaining <= qty {
      var n := q[0].remaining;
      SweepConserves(inc, qty - n, q[1..], now + 1, id);
      var t, rest := MakeTrade(inc, q[0], n, now), Sweep(inc, qty - n, q[1..], now + 1).trades;
      TradedCons(s, id, t, rest);
      TradedCons(inc.side, id, t, rest);
    } else {
      var t := MakeTrade(inc, q[0], qty, now);
      assert [t] == [t] + [];
      TradedCons(s, id, t, []);
      TradedCons(inc.side, id, t, []);
      RestingCons(id, q[0].(remaining := q[0].remaining - qty), q[1..]);
    }
  }

  /** Units taken out of `q` by cancelling `id` at price `p`. */
  function Withdrawn(q: seq<Order>, id: nat, p: real): nat {
    if q == [] then 0
    else if q[0].id == id && q[0].price == p then q[0].remaining
    else Withdrawn(q[1..], id, p)
  }

  lemma {:induction false} WithoutConserves(q: seq<Order>, id: nat, p: real, x: nat)
    ensures Resting(x, q) == Resting(x, Without(q, id, p)) + if x == id then Withdrawn(q, id, p) else 0
  {
    if q == [] || (q[0].id == id && q[0].price == p) {
    } else {
      WithoutConserves(q[1..], id, p, x);
      assert Without(q, id, p)[1..] == Without(q[1..], id, p);
    }
  }

  lemma InsertConserves(s: Side, q: seq<Order>, o: Order, id: nat)
    ensures Resting(id, Insert(s, q, o)) == Resting(id, q) + if id == o.id then o.remaining else 0
  {
  }

  /** Units of order `id` of side `s` that one operation brings in. */
  function Offered(op: Op, s: Side, id: nat): nat {
    if op.SubmitOp? && op.order.side == s && op.order.id == id then op.order.quantity else 0
  }

  /** Units that one operation lets go: a rejected order, a MARKET remainder, a cancelled remainder. */
  function Dropped(e: Engine, op: Op, s: Side, id: nat): nat {
    match op
    case SubmitOp(o) =>
      if o.side != s || o.id != id then 0
      else if !Accepts(e, o) then o.quantity
      else if o.kind == MARKET then SweepOf(e, o).left
      else 0
    case CancelOp(c) =>
      if c == id && c in e.book.index && e.book.index[c].side == s
      then Withdrawn(e.book.Resting(s), c, e.book.index[c].price)
      else 0
  }

  lemma SubmitConserves(e: Engine, o: Order, s: Side, id: nat)
    ensures var (e', trades) := Step(e, SubmitOp(o));
      Resting(id, e.book.Resting(s)) + Offered(SubmitOp(o), s, id)
        == Resting(id, e'.book.Resting(s)) + Traded(s, id, trades) + Dropped(e, SubmitOp(o), s, id)
  {
    if Accepts(e, o) {
      var r := SweepOf(e, o);
      var inc := Stamped(o, e.nextTs);
      SweepConserves(inc, o.quantity, e.book.Resting(Opposite(o.side)), e.nextTs + 1, id);
      InsertConserves(o.side, e.book.Resting(o.side), inc.(remaining := r.left), id);
    }
  }

  lemma StepConserves(e: Engine, op: Op, s: Side, id: nat)
    ensures var (e', trades) := Step(e, op);
      Resting(id, e.book.Resting(s)) + Offered(op, s, id)
        == Resting(id, e'.book.Resting(s)) + Traded(s, id, trades) + Dropped(e, op, s, id)
  {
    match op {
      case SubmitOp(o) => SubmitConserves(e, o, s, id);
      case CancelOp(c) =>
        if c in e.book.index {
          var info := e.book.index[c];
          WithoutConserves(e.book.Resting(info.side), c, info.price, id);
        }
    }
  }

  function TotalOffered(ops: seq<Op>, s: Side, id: nat): nat {
    if ops == [] then 0 else TotalOffered(ops[..|ops| - 1], s, id) + Offered(ops[|ops| - 1], s, id)
  }

  function TotalDropped(e: Engine, ops: seq<Op>, s: Side, id: nat): nat {
    if ops == [] then 0 else
      var init := ops[..|ops| - 1];
      TotalDropped(e, init, s, id) + Dropped(Run(e, init).0, ops[|ops| - 1], s, id)
  }

  /**
   Over every run, ids reused or not: what was submitted under a side and an id is what its trades
   say, plus what still rests, plus what was rejected, discarded or cancelled.
   */
  lemma {:induction false} RunConserves(band: real, ops: seq<Op>, s: Side, id: nat)
    ensures var (e, trades) := Run(Fresh(band), ops);
      TotalOffered(ops, s, id)
        == Traded(s, id, trades) + Resting(id, e.book.Resting(s)) + TotalDropped(Fresh(band), ops, s, id)
  {
    if ops != [] {
      var init := ops[..|ops| - 1];
      RunConserves(band, init, s, id);
      var (mid, before) := Run(Fresh(band), init);
      StepConserves(mid, ops[|ops| - 1], s, id);
      TradedConcat(s, id, before, Step(mid, ops[|ops| - 1]).1);
    }
  }

  lemma {:induction false} OfferedOnce(ops: seq<Op>, s: Side, id: nat, i: nat)
    requires i < |ops| && ops[i].SubmitOp?
    requires forall j :: 0 <= j < |ops| && j != i && ops[j].SubmitOp? ==> ops[j].order.id != ops[i].order.id
    requires s == ops[i].order.side && id == ops[i].order.id
    ensures TotalOffered(ops, s, id) == ops[i].order.quantity
  {
    var init := ops[..|ops| - 1];
    if i == |ops| - 1 {
      NeverOffered(init, s, id);
    } else {
      OfferedOnce(init, s, id, i);
    }
  }

  lemma {:induction false} NeverOffered(ops: seq<Op>, s: Side, id: nat)
    requires forall j :: 0 <= j < |ops| && ops[j].SubmitOp? ==> ops[j].order.id != id
    ensures TotalOffered(ops, s, id) == 0
  {
    if ops != [] {
      NeverOffered(ops[..|ops| - 1], s, id);
    }
  }

  /** An order whose id is submitted once is accounted for in full, and never overfilled. */
  lemma NeverOverfilled(band: real, ops: seq<Op>, i: nat)
    requires i < |ops| && ops[i].SubmitOp?
    requires forall j :: 0 <= j < |ops| && j != i && ops[j].SubmitOp? ==> ops[j].order.id != ops[i].order.id
    ensures var (e, trades) := Run(Fresh(band), ops);
      var o := ops[i].order;
      && o.quantity == Traded(o.side, o.id, trades) + Resting(o.id, e.book.Resting(o.side))
                       + TotalDropped(Fresh(band), ops, o.side, o.id)
      && Traded(o.side, o.id, trades) <= o.quantity
  {
    var o := ops[i].order;
    OfferedOnce(ops, o.side, o.id, i);
    RunConserves(band, ops, o.side, o.id);
  }

  /** In a good state every trade is of positive quantity and each resting order trades at most once. */
  lemma TradesArePositive(e: Engine, o: Order, i: nat)
    requires Good(e) && Accepts(e, o) && i < |Submit(e, o).1.trades|
    ensures var q := e.book.Resting(Opposite(o.side));
      var t := Submit(e, o).1.trades[i];
      && |Submit(e, o).1.trades| <= |q|
      && Party(o.side, t) == o.id && Party(Opposite(o.side), t) == q[i].id && t.price == q[i].price
      && 0 < t.quantity <= q[i].remaining && t.timestamp == e.nextTs + 1 + i
  {
    var inc := Stamped(o, e.nextTs);
    var q := e.book.Resting(Opposite(o.side));
    SweepRest(inc, o.quantity, q, e.nextTs + 1);
    SweepTrade(inc, o.quantity, q, e.nextTs + 1, i);
  }
}
