/**
 Timestamps are written and never read: engines that differ only in their clock and in the timestamps of
 their orders stay so, and make the same trades but for the time, whatever they are given.
 */
module TimeBlind {
  import opened Sequences
  import opened Orders
  import opened PriceLevels
  import opened Matching
  import opened Exchange

  predicate SameOrder(a: Order, b: Order) {
    a.(timestamp := b.timestamp) == b
  }

  predicate SameQueue(q: seq<Order>, p: seq<Order>) {
    |q| == |p| && forall i :: 0 <= i < |q| ==> SameOrder(q[i], p[i])
  }

  predicate SameTrades(s: seq<Trade>, t: seq<Trade>) {
    |s| == |t| && forall i :: 0 <= i < |s| ==> s[i].(timestamp := t[i].timestamp) == t[i]
  }

  predicate SameBook(b: Book, c: Book) {
    SameQueue(b.bids, c.bids) && SameQueue(b.asks, c.asks) && b.index == c.index
  }

  /** The same book, last price and band; only the times may differ. */
  predicate SameEngine(e: Engine, f: Engine) {
    SameBook(e.book, f.book) && e.last == f.last && e.band == f.band
  }

  predicate SameOutcome(r: Outcome, t: Outcome) {
    SameTrades(r.trades, t.trades) && SameQueue(r.rest, t.rest) && r.left == t.left && r.gone == t.gone
  }

  lemma FilledBlind(inc: Order, inc': Order, front: Order, front': Order, now: nat, now': nat, r: Outcome, t: Outcome)
    requires SameOrder(inc, inc') && SameOrder(front, front') && SameOutcome(r, t)
    ensures SameOutcome(
      Outcome([MakeTrade(inc, front, front.remaining, now)] + r.trades, r.rest, r.left, [front.id] + r.gone),
      Outcome([MakeTrade(inc', front', front'.remaining, now')] + t.trades, t.rest, t.left, [front'.id] + t.gone))
  {
  }

  lemma PartBlind(inc: Order, inc': Order, qty: nat, q: seq<Order>, p: seq<Order>, now: nat, now': nat)
    requires SameOrder(inc, inc') && SameQueue(q, p) && q != [] && 0 < qty < q[0].remaining && Crosses(inc, q[0].price)
    ensures SameOutcome(Sweep(inc, qty, q, now), Sweep(inc', qty, p, now'))
  {
    assert SameOrder(q[0], p[0]);
  }

  lemma FrontBlind(inc: Order, inc': Order, qty: nat, q: seq<Order>, p: seq<Order>, now: nat, now': nat)
    requires SameOrder(inc, inc') && SameQueue(q, p) && q != [] && Crosses(inc, q[0].price) && 0 < qty && q[0].remaining <= qty
    requires SameOutcome(Sweep(inc, qty - q[0].remaining, q[1..], now + 1), Sweep(inc', qty - q[0].remaining, p[1..], now' + 1))
    ensures SameOutcome(Sweep(inc, qty, q, now), Sweep(inc', qty, p, now'))
  {
    var left := qty - q[0].remaining;
    assert SameOrder(q[0], p[0]);
    FilledBlind(inc, inc', q[0], p[0], now, now', Sweep(inc, left, q[1..], now + 1), Sweep(inc', left, p[1..], now' + 1));
  }

  lemma Fronts(q: seq<Order>, p: seq<Order>)
    requires SameQueue(q, p) && q != []
    ensures SameOrder(q[0], p[0]) && SameQueue(q[1..], p[1..])
  {
  }

  lemma {:induction false} SweepBlind(inc: Order, inc': Order, qty: nat, q: seq<Order>, p: seq<Order>, now: nat, now': nat)
    requires SameOrder(inc, inc') && SameQueue(q, p)
    ensures SameOutcome(Sweep(inc, qty, q, now), Sweep(inc', qty, p, now'))
  {
    if qty == 0 || q == [] {
    } else {
      Fronts(q, p);
      if !Crosses(inc, q[0].price) {
      } else if q[0].remaining <= qty {
        SweepBlind(inc, inc', qty - q[0].remaining, q[1..], p[1..], now + 1, now' + 1);
        FrontBlind(inc, inc', qty, q, p, now, now');
      } else {
        PartBlind(inc, inc', qty, q, p, now, now');
      }
    }
  }

  lemma {:induction false} InsertBlind(s: Side, q: seq<Order>, p: seq<Order>, o: Order, o': Order)
    requires SameQueue(q, p) && SameOrder(o, o')
    ensures SameQueue(Insert(s, q, o), Insert(s, p, o'))
  {
    if q != [] {
      assert SameOrder(q[0], p[0]);
      if !Ahead(s, o.price, q[0].price) {
        InsertBlind(s, q[1..], p[1..], o, o');
      }
    }
  }

  lemma {:induction false} WithoutBlind(q: seq<Order>, p: seq<Order>, id: nat, price: real)
    requires SameQueue(q, p)
    ensures SameQueue(Without(q, id, price), Without(p, id, price))
  {
    if q != [] {
      assert SameOrder(q[0], p[0]);
      WithoutBlind(q[1..], p[1..], id, price);
    }
  }

  lemma AddBlind(b: Book, c: Book, o: Order, o': Order)
    requires SameBook(b, c) && SameOrder(o, o')
    ensures SameBook(AddResting(b, o), AddResting(c, o'))
  {
    InsertBlind(o.side, b.Resting(o.side), c.Resting(o.side), o, o');
  }

  lemma LastPriceBlind(last: Option<real>, s: seq<Trade>, t: seq<Trade>)
    requires SameTrades(s, t)
    ensures LastPrice(last, s) == LastPrice(last, t)
  {
  }

  lemma SubmitBlind(e: Engine, f: Engine, o: Order)
    requires SameEngine(e, f)
    ensures SameEngine(Step(e, SubmitOp(o)).0, Step(f, SubmitOp(o)).0)
    ensures SameTrades(Step(e, SubmitOp(o)).1, Step(f, SubmitOp(o)).1)
  {
    if Accepts(e, o) {
      var s := Opposite(o.side);
      var r, t := SweepOf(e, o), SweepOf(f, o);
      var b, c := SweptBook(e.book, s, r), SweptBook(f.book, s, t);
      SweepBlind(Stamped(o, e.nextTs), Stamped(o, f.nextTs), o.quantity, e.book.Resting(s), f.book.Resting(s),
                 e.nextTs + 1, f.nextTs + 1);
      LastPriceBlind(e.last, r.trades, t.trades);
      assert SameBook(b, c);
      if r.left > 0 && o.kind == LIMIT {
        AddBlind(b, c, Stamped(o, e.nextTs).(remaining := r.left), Stamped(o, f.nextTs).(remaining := t.left));
      }
    }
  }

  lemma StepBlind(e: Engine, f: Engine, op: Op)
    requires SameEngine(e, f)
    ensures SameEngine(Step(e, op).0, Step(f, op).0) && SameTrades(Step(e, op).1, Step(f, op).1)
  {
    match op {
      case SubmitOp(o) => SubmitBlind(e, f, o);
      case CancelOp(id) =>
        if id in e.book.index {
          var info := e.book.index[id];
          WithoutBlind(e.book.Resting(info.side), f.book.Resting(info.side), id, info.price);
        }
    }
  }

  lemma SameTradesConcat(a: seq<Trade>, b: seq<Trade>, c: seq<Trade>, d: seq<Trade>)
    requires SameTrades(a, b) && SameTrades(c, d)
    ensures SameTrades(a + c, b + d)
  {
  }

  /** Over every run of submissions and cancellations, the clock has no influence on anything but times. */
  lemma {:induction false} RunBlind(e: Engine, f: Engine, ops: seq<Op>)
    requires SameEngine(e, f)
    ensures SameEngine(Run(e, ops).0, Run(f, ops).0) && SameTrades(Run(e, ops).1, Run(f, ops).1)
  {
    if ops != [] {
      var init, op := ops[..|ops| - 1], ops[|ops| - 1];
      RunBlind(e, f, init);
      StepBlind(Run(e, init).0, Run(f, init).0, op);
      SameTradesConcat(Run(e, init).1, Run(f, init).1, Step(Run(e, init).0, op).1, Step(Run(f, init).0, op).1);
    }
  }

  /** Nothing rests and nothing was traded. */
  predicate Blank(e: Engine) {
    e.book == Book([], [], map[]) && e.last == None
  }

  lemma {:induction false} SubmitAllBand(e: Engine, orders: seq<Order>)
    ensures SubmitAll(e, orders).0.band == e.band
  {
    if orders != [] {
      SubmitAllBand(e, orders[..|orders| - 1]);
    }
  }

  lemma {:induction false} SubmitAllConcat(e: Engine, a: seq<Order>, b: seq<Order>)
    ensures SubmitAll(e, a + b) == (SubmitAll(SubmitAll(e, a).0, b).0, SubmitAll(e, a).1 + SubmitAll(SubmitAll(e, a).0, b).1)
  {
    if b == [] {
      NoMore(a);
      NoMore(SubmitAll(e, a).1);
    } else {
      var init, o := b[..|b| - 1], b[|b| - 1];
      TakeLast(a, b);
      SubmitAllConcat(e, a, init);
      OneMore(e, SubmitAll(e, a).0, SubmitAll(e, a).1, a + init, init, o);
    }
  }

  lemma NoMore<T>(s: seq<T>)
    ensures s + [] == s
  {
  }

  lemma TakeLast<T>(a: seq<T>, b: seq<T>)
    requires b != []
    ensures a + b == a + b[..|b| - 1] + [b[|b| - 1]] && b == b[..|b| - 1] + [b[|b| - 1]]
  {
  }

  lemma OneMore(e: Engine, mid: Engine, first: seq<Trade>, all: seq<Order>, init: seq<Order>, o: Order)
    requires SubmitAll(e, all) == (SubmitAll(mid, init).0, first + SubmitAll(mid, init).1)
    ensures SubmitAll(e, all + [o]) == (SubmitAll(mid, init + [o]).0, first + SubmitAll(mid, init + [o]).1)
  {
    SubmitAllSnoc(e, all, o);
    SubmitAllSnoc(mid, init, o);
    Assoc(first, SubmitAll(mid, init).1, Step(SubmitAll(mid, init).0, SubmitOp(o)).1);
  }

  /**
   An engine that was given `a` and then `b` is, but for times, one that was only given `b`, at the start
   of `b` if and only if `a` left it blank; and then also after `b`, with the same trades from `b`.
   */
  lemma ForgettingIsHarmless(band: real, a: seq<Order>, b: seq<Order>)
    ensures var (mid, before) := SubmitAll(Fresh(band), a);
      && (SameEngine(Fresh(band), mid) <==> Blank(mid))
      && (Blank(mid) ==>
            var (end, all) := SubmitAll(Fresh(band), a + b);
            && SameEngine(SubmitAll(Fresh(band), b).0, end)
            && before <= all && SameTrades(SubmitAll(Fresh(band), b).1, all[|before|..]))
  {
    var (mid, before) := SubmitAll(Fresh(band), a);
    SubmitAllBand(Fresh(band), a);
    if Blank(mid) {
      SubmitAllConcat(Fresh(band), a, b);
      SubmitAllIsRun(Fresh(band), b);
      SubmitAllIsRun(mid, b);
      RunBlind(Fresh(band), mid, Submits(b));
      assert (before + SubmitAll(mid, b).1)[|before|..] == SubmitAll(mid, b).1;
    }
  }
}
