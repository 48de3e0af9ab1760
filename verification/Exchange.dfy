/**
 The matching engine as a value: the two sides of its book as queues in priority order, the cancel
 index, the last trade price and the timestamp counter. The class `MatchingEngine` is proved to step
 exactly like `Submit` and `Cancel`; what the engine promises over whole runs is proved about `Run`.
 */
module Exchange {
  import opened Sequences
  import opened Orders
  import opened PriceLevels
  import opened PriceCollar
  import opened Matching

  datatype CancelInfo = CancelInfo(side: Side, price: real)

  datatype Book = Book(bids: seq<Order>, asks: seq<Order>, index: map<nat, CancelInfo>)
  {
    function Resting(s: Side): seq<Order> {
      if s == BUY then bids else asks
    }

    function WithResting(s: Side, q: seq<Order>): Book {
      if s == BUY then this.(bids := q) else this.(asks := q)
    }
  }

  /** `band` is the collar's fraction. */
  datatype Engine = Engine(book: Book, last: Option<real>, nextTs: nat, band: real)

  datatype Result = Filled(trades: seq<Trade>) | Rejected(id: nat, reason: RejectReason)

  function Fresh(band: real): Engine {
    Engine(Book([], [], map[]), None, 1, band)
  }

  function AddResting(b: Book, o: Order): Book {
    b.WithResting(o.side, Insert(o.side, b.Resting(o.side), o)).(index := b.index[o.id := CancelInfo(o.side, o.price)])
  }

  function LastPrice(last: Option<real>, trades: seq<Trade>): Option<real> {
    if trades == [] then last else Some(trades[|trades| - 1].price)
  }

  /** The order as the engine stamps it on arrival. */
  function Stamped(o: Order, ts: nat): Order {
    o.(timestamp := ts, remaining := o.quantity)
  }

  predicate Accepts(e: Engine, o: Order) {
    o.kind == MARKET || Check(e.band, o.price, e.last).accepted
  }

  function SweepOf(e: Engine, o: Order): Outcome {
    Sweep(Stamped(o, e.nextTs), o.quantity, e.book.Resting(Opposite(o.side)), e.nextTs + 1)
  }

  /** The book right after the matching loop, before any remainder rests. */
  function SweptBook(b: Book, s: Side, r: Outcome): Book {
    b.WithResting(s, r.rest).(index := b.index - Elements(r.gone))
  }

  lemma AlsoGone(index: map<nat, CancelInfo>, gone: seq<nat>, more: seq<nat>)
    ensures index - Elements(gone) - Elements(more) == index - Elements(gone + more)
  {
  }

  function Submit(e: Engine, o: Order): (Engine, Result) {
    if !Accepts(e, o) then
      (e.(nextTs := e.nextTs + 1), Rejected(o.id, Check(e.band, o.price, e.last).reason))
    else
      var r := SweepOf(e, o);
      var swept := SweptBook(e.book, Opposite(o.side), r);
      var book := if r.left > 0 && o.kind == LIMIT
                  then AddResting(swept, Stamped(o, e.nextTs).(remaining := r.left))
                  else swept;
      (Engine(book, LastPrice(e.last, r.trades), e.nextTs + 1 + |r.trades|, e.band), Filled(r.trades))
  }

  function CancelBook(b: Book, id: nat): (Book, bool) {
    if id !in b.index then (b, false) else
      var info := b.index[id];
      (b.WithResting(info.side, Without(b.Resting(info.side), id, info.price)).(index := b.index - {id}), true)
  }

  function Cancel(e: Engine, id: nat): (Engine, bool) {
    var (book, found) := CancelBook(e.book, id);
    (e.(book := book), found)
  }

  /** What callers may ask of an engine. */
  datatype Op = SubmitOp(order: Order) | CancelOp(id: nat)

  function Step(e: Engine, op: Op): (Engine, seq<Trade>) {
    match op
    case SubmitOp(o) =>
      var (e', r) := Submit(e, o);
      (e', if r.Filled? then r.trades else [])
    case CancelOp(id) => (Cancel(e, id).0, [])
  }

  /** The state and all trades after `ops`, from `e`. */
  function Run(e: Engine, ops: seq<Op>): (Engine, seq<Trade>) {
    if ops == [] then (e, []) else
      var (mid, before) := Run(e, ops[..|ops| - 1]);
      var (end, trades) := Step(mid, ops[|ops| - 1]);
      (end, before + trades)
  }

  /** The state and all trades after submitting `orders` in turn, from `e`. */
  function SubmitAll(e: Engine, orders: seq<Order>): (Engine, seq<Trade>) {
    if orders == [] then (e, []) else
      var (mid, before) := SubmitAll(e, orders[..|orders| - 1]);
      var (end, trades) := Step(mid, SubmitOp(orders[|orders| - 1]));
      (end, before + trades)
  }

  lemma SubmitAllSnoc(e: Engine, orders: seq<Order>, o: Order)
    ensures var (mid, before) := SubmitAll(e, orders);
      var (end, trades) := Step(mid, SubmitOp(o));
      SubmitAll(e, orders + [o]) == (end, before + trades)
  {
  }

  /** The clock ticks once for every submission and once for every trade. */
  lemma {:induction false} ClockCounts(e: Engine, orders: seq<Order>)
    ensures var (end, trades) := SubmitAll(e, orders);
      end.nextTs == e.nextTs + |orders| + |trades|
  {
    if orders != [] {
      ClockCounts(e, orders[..|orders| - 1]);
    }
  }

  function Submits(orders: seq<Order>): seq<Op> {
    seq(|orders|, i requires 0 <= i < |orders| => SubmitOp(orders[i]))
  }

  /** Submitting in turn is a run, so what holds of runs holds of it. */
  lemma {:induction false} SubmitAllIsRun(e: Engine, orders: seq<Order>)
    ensures SubmitAll(e, orders) == Run(e, Submits(orders))
  {
    if orders != [] {
      var init := orders[..|orders| - 1];
      SubmitAllIsRun(e, init);
      assert Submits(orders)[..|orders| - 1] == Submits(init);
    }
  }
}
