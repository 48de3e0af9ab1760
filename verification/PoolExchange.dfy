/**
 A whole exchange that knows nothing of queues and price levels: its two sides are unordered pools of
 resting orders, matched by `PriceTime.Reference`. The engine is this exchange, over every run.
 */
module PoolExchange {
  import opened Sequences
  import opened Orders
  import opened PriceLevels
  import opened PriceCollar
  import opened Exchange
  import opened BookInvariants
  import opened PriceTime

  datatype Market = Market(
    bids: set<Order>, asks: set<Order>, index: map<nat, CancelInfo>, last: Option<real>, nextTs: nat, band: real)
  {
    function Pool(s: Side): set<Order> {
      if s == BUY then bids else asks
    }

    function WithPool(s: Side, pool: set<Order>): Market {
      if s == BUY then this.(bids := pool) else this.(asks := pool)
    }
  }

  /** An engine without the arrangement of its sides. */
  ghost function Forget(e: Engine): Market {
    Market(Elements(e.book.bids), Elements(e.book.asks), e.book.index, e.last, e.nextTs, e.band)
  }

  /** A new market, with its collar. */
  function Opened(band: real): Market {
    Market({}, {}, map[], None, 1, band)
  }

  /** The order as submitted, with nothing traded yet and its arrival time. */
  function Arrived(o: Order, now: nat): Order {
    Order(o.id, o.client, o.side, o.kind, o.symbol, o.price, o.quantity, o.quantity, now)
  }

  /** Why the order is turned away, if it is: a limit further from the last price than the band allows. */
  function Refusal(m: Market, o: Order): Option<RejectReason> {
    if o.kind == MARKET || m.last.None? then None
    else if o.price > m.last.value * (1.0 + m.band) then Some(PRICE_TOO_HIGH)
    else if o.price < m.last.value * (1.0 - m.band) then Some(PRICE_TOO_LOW)
    else None
  }

  /** The price of the last of the trades, if there were any. */
  function Latest(last: Option<real>, trades: seq<Trade>): Option<real> {
    if |trades| == 0 then last else Some(trades[|trades| - 1].price)
  }

  function Rest(m: Market, o: Order): Market {
    m.WithPool(o.side, m.Pool(o.side) + {o}).(index := m.index[o.id := CancelInfo(o.side, o.price)])
  }

  function Swept(m: Market, s: Side, r: Matched): Market {
    m.WithPool(s, r.rest)
     .(index := m.index - r.gone, last := Latest(m.last, r.trades), nextTs := m.nextTs + 1 + |r.trades|)
  }

  ghost function SubmitIn(m: Market, o: Order): (Market, Result) {
    var inc := Arrived(o, m.nextTs);
    if Refusal(m, o).Some? then (m.(nextTs := m.nextTs + 1), Rejected(o.id, Refusal(m, o).value)) else
      var s := if o.side == BUY then SELL else BUY;
      var r := Reference(inc, o.quantity, m.Pool(s), m.nextTs + 1);
      var swept := Swept(m, s, r);
      (if r.left > 0 && o.kind == LIMIT then Rest(swept, inc.(remaining := r.left)) else swept, Filled(r.trades))
  }

  /** The order that a cancel at this price takes out: the first to arrive of those with the id. */
  ghost predicate Earliest(pool: set<Order>, id: nat, price: real, b: Order) {
    && b in pool && b.id == id && b.price == price
    && forall d :: d in pool && d.id == id && d.price == price && d != b ==> b.timestamp < d.timestamp
  }

  ghost function Removed(pool: set<Order>, id: nat, price: real): set<Order> {
    if exists b :: Earliest(pool, id, price, b) then
      var b :| Earliest(pool, id, price, b);
      pool - {b}
    else pool
  }

  ghost function CancelIn(m: Market, id: nat): (Market, bool) {
    if id !in m.index then (m, false) else
      var info := m.index[id];
      (m.WithPool(info.side, Removed(m.Pool(info.side), id, info.price)).(index := m.index - {id}), true)
  }

  ghost function StepIn(m: Market, op: Op): (Market, seq<Trade>) {
    match op
    case SubmitOp(o) =>
      var (m', r) := SubmitIn(m, o);
      (m', if r.Filled? then r.trades else [])
    case CancelOp(id) => (CancelIn(m, id).0, [])
  }

  ghost function RunIn(m: Market, ops: seq<Op>): (Market, seq<Trade>) {
    if ops == [] then (m, []) else
      var (mid, before) := RunIn(m, ops[..|ops| - 1]);
      var (end, trades) := StepIn(mid, ops[|ops| - 1]);
      (end, before + trades)
  }

  lemma RestForgets(e: Engine, o: Order)
    ensures Rest(Forget(e), o) == Forget(e.(book := AddResting(e.book, o)))
  {
    InsertElements(o.side, e.book.Resting(o.side), o);
  }

  /** The engine after the matching loop, before any remainder rests. */
  function SweptEngine(e: Engine, o: Order): Engine {
    var r := SweepOf(e, o);
    Engine(SweptBook(e.book, Opposite(o.side), r), LastPrice(e.last, r.trades), e.nextTs + 1 + |r.trades|, e.band)
  }

  lemma SweptForgets(e: Engine, o: Order)
    requires Good(e)
    ensures Swept(Forget(e), Opposite(o.side), ReferenceFor(e, o)) == Forget(SweptEngine(e, o))
  {
    SweepIsReferenceFor(e, o);
  }

  /** An accepted order, on either side of the comparison. */
  lemma SubmitAccepted(e: Engine, o: Order, rem: Order)
    requires Accepts(e, o) && rem == Stamped(o, e.nextTs).(remaining := SweepOf(e, o).left)
    ensures var swept := SweptEngine(e, o);
      && Submit(e, o).0 == (if rem.remaining > 0 && o.kind == LIMIT then swept.(book := AddResting(swept.book, rem)) else swept)
      && Submit(e, o).1 == Filled(SweepOf(e, o).trades)
  {
  }

  lemma SubmitInAccepted(e: Engine, o: Order, rem: Order)
    requires Accepts(e, o) && rem == Stamped(o, e.nextTs).(remaining := ReferenceFor(e, o).left)
    ensures var swept := Swept(Forget(e), Opposite(o.side), ReferenceFor(e, o));
      SubmitIn(Forget(e), o)
        == (if rem.remaining > 0 && o.kind == LIMIT then Rest(swept, rem) else swept, Filled(ReferenceFor(e, o).trades))
  {
    RefusedAlike(e, o);
  }

  /** The collar refuses the same orders for the same reasons. */
  lemma RefusedAlike(e: Engine, o: Order)
    ensures Refusal(Forget(e), o) == if Accepts(e, o) then None else Some(Check(e.band, o.price, e.last).reason)
  {
    if e.last.Some? {
      AcceptedPrices(e.band, o.price, e.last.value);
    }
  }

  lemma SubmitForgets(e: Engine, o: Order)
    requires Good(e)
    ensures SubmitIn(Forget(e), o) == (Forget(Submit(e, o).0), Submit(e, o).1)
  {
    RefusedAlike(e, o);
    if Accepts(e, o) {
      var rem := Stamped(o, e.nextTs).(remaining := SweepOf(e, o).left);
      SweepIsReferenceFor(e, o);
      SweptForgets(e, o);
      RestForgets(SweptEngine(e, o), rem);
      SubmitAccepted(e, o, rem);
      SubmitInAccepted(e, o, rem);
    }
  }

  lemma RemovedIsWithout(s: Side, q: seq<Order>, id: nat, price: real)
    requires InPriority(s, q)
    ensures Removed(Elements(q), id, price) == Elements(Without(q, id, price))
  {
    var k := WithoutSplits(q, id, price);
    if k < |q| {
      assert Earliest(Elements(q), id, price, q[k]);
    }
  }

  lemma CancelForgets(e: Engine, id: nat)
    requires Good(e)
    ensures CancelIn(Forget(e), id) == (Forget(Cancel(e, id).0), Cancel(e, id).1)
  {
    if id in e.book.index {
      var info := e.book.index[id];
      RemovedIsWithout(info.side, e.book.Resting(info.side), id, info.price);
    }
  }

  /** Every run of the engine is the same run of the pools: the same trades, and sides of the same orders. */
  lemma {:induction false} RunForgets(e: Engine, ops: seq<Op>)
    requires Good(e)
    ensures RunIn(Forget(e), ops) == (Forget(Run(e, ops).0), Run(e, ops).1)
  {
    if ops != [] {
      var init, op := ops[..|ops| - 1], ops[|ops| - 1];
      RunForgets(e, init);
      RunGood(e, init);
      var mid := Run(e, init).0;
      match op {
        case SubmitOp(o) => SubmitForgets(mid, o);
        case CancelOp(id) => CancelForgets(mid, id);
      }
    }
  }

  /** From a new engine on, the engine and that exchange never differ. */
  lemma RunsAlike(band: real, ops: seq<Op>)
    ensures RunIn(Opened(band), ops) == (Forget(Run(Fresh(band), ops).0), Run(Fresh(band), ops).1)
  {
    RunForgets(Fresh(band), ops);
    assert Forget(Fresh(band)) == Opened(band);
  }

  /** Nothing is forgotten: the pools determine the engine. */
  lemma ForgetInjective(e: Engine, d: Engine)
    requires Good(e) && Good(d) && Forget(e) == Forget(d)
    ensures e == d
  {
    OneArrangement(BUY, e.book.bids, d.book.bids);
    OneArrangement(SELL, e.book.asks, d.book.asks);
  }
}
