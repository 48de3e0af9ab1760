/** When the price collar stops all trading in LIMIT orders, and how an engine gets there. */
module CollarHalts {
  import opened Orders
  import opened PriceCollar
  import opened Matching
  import opened Exchange

  /** The last price and the band have opposite signs. */
  predicate Halted(e: Engine) {
    e.last.Some? && e.last.value * e.band < 0.0
  }

  /** Every LIMIT order is rejected, whatever its price, if and only if the engine is halted. */
  lemma HaltedRejectsAll(e: Engine)
    ensures Halted(e) <==> forall o: Order :: o.kind == LIMIT ==> Submit(e, o).1.Rejected?
  {
    if Halted(e) {
      forall o: Order | o.kind == LIMIT ensures Submit(e, o).1.Rejected? {
        AcceptedPrices(e.band, o.price, e.last.value);
      }
    } else {
      var price := if e.last.Some? then e.last.value else 0.0;
      var o := Order(0, 0, BUY, LIMIT, [], price, 0, 0, 0);
      assert Submit(e, o).1.Filled?;
    }
  }

  predicate NoMarket(ops: seq<Op>) {
    forall i :: 0 <= i < |ops| && ops[i].SubmitOp? ==> ops[i].order.kind == LIMIT
  }

  /** A halted engine stays halted, and makes no trade, until a MARKET order arrives. */
  lemma {:induction false} HaltedUntilMarket(e: Engine, ops: seq<Op>)
    requires Halted(e) && NoMarket(ops)
    ensures Halted(Run(e, ops).0) && Run(e, ops).1 == []
  {
    if ops != [] {
      HaltedUntilMarket(e, ops[..|ops| - 1]);
      HaltedRejectsAll(Run(e, ops[..|ops| - 1]).0);
    }
  }

  /** One trade at a negative price is enough, under any positive band. */
  lemma NegativePriceHalts(band: real, sell: Order, buy: Order)
    requires band > 0.0 && sell.price == buy.price < 0.0 && sell.quantity == buy.quantity == 1
    requires sell.side == SELL && buy.side == BUY && sell.kind == buy.kind == LIMIT
    ensures var e := Run(Fresh(band), [SubmitOp(sell), SubmitOp(buy)]).0;
      && e.last == Some(buy.price) && Halted(e)
      && forall o: Order :: o.kind == LIMIT ==> Submit(e, o).1.Rejected?
  {
    var ops := [SubmitOp(sell), SubmitOp(buy)];
    assert ops[..1] == [SubmitOp(sell)] && ops[..1][..0] == [];
    var e1 := Step(Fresh(band), ops[0]).0;
    assert Run(Fresh(band), ops[..1]).0 == e1;
    assert e1.book.asks == [Stamped(sell, 1)];
    assert Run(Fresh(band), ops).0 == Step(e1, ops[1]).0;
    SweepOne(Stamped(buy, 2), 1, Stamped(sell, 1), 3);
    NegativeProduct(buy.price, band);
    HaltedRejectsAll(Run(Fresh(band), ops).0);
  }

  lemma NegativeProduct(x: real, y: real)
    requires x < 0.0 < y
    ensures x * y < 0.0
  {
  }
}
