/** A trade that failover loses: the overtaking standby of `StandbyAhead`, with the matching engines of a shard. */
module LostTrades {
  import opened Orders
  import opened PriceCollar
  import opened Matching
  import opened Exchange
  import opened Shard
  import opened ShardFailover
  import Failover
  import StandbyAhead
  import SoloRun

  predicate OnlyOf(log: seq<Order>, sym: Symbol) {
    forall i :: 0 <= i < |log| ==> SymbolOf(log[i]) == sym
  }

  /** A log of one symbol is served by one engine. */
  lemma {:induction false} OneSymbol(log: seq<Order>, sym: Symbol)
    requires OnlyOf(log, sym)
    ensures Stream(log) == SubmitAll(Fresh(DEFAULT_BAND), log).1
    ensures Engines(log) == if log == [] then map[] else map[sym := SubmitAll(Fresh(DEFAULT_BAND), log).0]
  {
    if log != [] {
      OneSymbol(log[..|log| - 1], sym);
    }
  }

  predicate Crossing(sell: Order, buy: Order, next: Order) {
    && SymbolOf(sell) == SymbolOf(buy) == SymbolOf(next)
    && sell.side == SELL && buy.side == next.side == BUY && sell.kind == buy.kind == next.kind == LIMIT
    && sell.price == buy.price == next.price >= 0.0
    && sell.quantity == 2 && buy.quantity == next.quantity == 1
  }

  /** One unit bought from the only resting order. */
  lemma BuysOne(e: Engine, front: Order, buy: Order)
    requires e.book.asks == [front] && front.remaining > 0 && Accepts(e, buy)
    requires buy.side == BUY && buy.kind == LIMIT && buy.quantity == 1 && buy.price >= front.price
    ensures var (e', trades) := Step(e, SubmitOp(buy));
      && trades == [Trade(buy.id, front.id, front.price, 1, e.nextTs + 1)]
      && e'.last == Some(front.price) && e'.band == e.band && e'.nextTs == e.nextTs + 2 && e'.book.bids == e.book.bids
      && (front.remaining > 1 ==> e'.book.asks == [front.(remaining := front.remaining - 1)])
  {
    SweepOne(Stamped(buy, e.nextTs), 1, front, e.nextTs + 1);
  }

  lemma Rests(sell: Order)
    requires sell.side == SELL && sell.kind == LIMIT && sell.quantity > 0
    ensures var (e, trades) := SubmitAll(Fresh(DEFAULT_BAND), [sell]);
      trades == [] && e.book.asks == [Stamped(sell, 1)] && e.book.bids == [] && e.last == None && e.band == DEFAULT_BAND && e.nextTs == 2
  {
    assert [sell][..0] == [];
  }

  lemma FirstTrade(sell: Order, buy: Order, next: Order)
    requires Crossing(sell, buy, next)
    ensures var (e, trades) := SubmitAll(Fresh(DEFAULT_BAND), [sell, buy]);
      && trades == [Trade(buy.id, sell.id, sell.price, 1, 3)]
      && e.book.asks == [Stamped(sell, 1).(remaining := 1)] && e.book.bids == [] && e.nextTs == 4 && Accepts(e, next)
  {
    var e0 := Fresh(DEFAULT_BAND);
    Rests(sell);
    BuysOne(SubmitAll(e0, [sell]).0, Stamped(sell, 1), buy);
    SubmitAllSnoc(e0, [sell], buy);
    assert [sell] + [buy] == [sell, buy];
    AcceptedPrices(DEFAULT_BAND, next.price, sell.price);
  }

  /** One trade before the handover and one after it, both against the same resting order. */
  lemma SecondTrade(log: seq<Order>, sell: Order, buy: Order, next: Order)
    requires Crossing(sell, buy, next) && log == [sell, buy]
    ensures SubmitAll(Fresh(DEFAULT_BAND), log + [next]).1
      == [Trade(buy.id, sell.id, sell.price, 1, 3), Trade(next.id, sell.id, sell.price, 1, 5)]
  {
    FirstTrade(sell, buy, next);
    BuysOne(SubmitAll(Fresh(DEFAULT_BAND), log).0, Stamped(sell, 1).(remaining := 1), next);
    SubmitAllSnoc(Fresh(DEFAULT_BAND), log, next);
  }

  lemma StreamBySubmitting(log: seq<Order>, sym: Symbol, trades: seq<Trade>)
    requires OnlyOf(log, sym) && SubmitAll(Fresh(DEFAULT_BAND), log).1 == trades
    ensures Failover.Stream(Trading(), log, 0, |log|) == Stream(log) == trades
  {
    OneSymbol(log, sym);
    ReplicaComputesShard(log, |log|);
    assert log[..|log|] == log;
  }

  lemma CrossingOnly(log: seq<Order>, sell: Order, buy: Order, next: Order)
    requires Crossing(sell, buy, next) && log == [sell, buy]
    ensures OnlyOf(log, SymbolOf(sell)) && OnlyOf(log + [next], SymbolOf(sell))
  {
  }

  lemma StreamBefore(log: seq<Order>, sell: Order, buy: Order, next: Order)
    requires Crossing(sell, buy, next) && log == [sell, buy]
    ensures Failover.Stream(Trading(), log, 0, |log|) == [Trade(buy.id, sell.id, sell.price, 1, 3)]
  {
    FirstTrade(sell, buy, next);
    CrossingOnly(log, sell, buy, next);
    StreamBySubmitting(log, SymbolOf(sell), [Trade(buy.id, sell.id, sell.price, 1, 3)]);
  }

  lemma StreamAfter(log: seq<Order>, sell: Order, buy: Order, next: Order)
    requires Crossing(sell, buy, next) && log == [sell, buy]
    ensures Failover.Stream(Trading(), log + [next], 0, |log| + 1) == Stream(log + [next])
      == [Trade(buy.id, sell.id, sell.price, 1, 3), Trade(next.id, sell.id, sell.price, 1, 5)]
  {
    SecondTrade(log, sell, buy, next);
    CrossingOnly(log, sell, buy, next);
    StreamBySubmitting(log + [next], SymbolOf(sell), SubmitAll(Fresh(DEFAULT_BAND), log + [next]).1);
  }

  /** The leader's trade is lost: subscribers see the trade made after the handover and never the one before. */
  lemma LostTrade(log: seq<Order>, sell: Order, buy: Order, next: Order)
    requires Crossing(sell, buy, next) && log == [sell, buy]
    ensures var s := Failover.Exec(Trading(), Failover.Initial(), StandbyAhead.LosingRun(log, next));
      && s.log == log + [next]
      && |Stream(s.log)| == 2 && s.topic == [Stream(s.log)[1]] && Stream(s.log)[0] !in s.topic
  {
    StreamBefore(log, sell, buy, next);
    StreamAfter(log, sell, buy, next);
    StandbyAhead.FirstIsLost(Trading(), log, next, Stream(log + [next])[0], Stream(log + [next])[1]);
  }

  /**
   A restart loses a trade as well. A replica launched behind the first of two crossing orders and left
   alone publishes no trade; the second order rests in its book. One launched at the start of the log
   publishes the trade and holds what is left of the first.
   */
  lemma RestartMissesTrade(log: seq<Order>, sell: Order, buy: Order, next: Order)
    requires Crossing(sell, buy, next) && log == [sell, buy]
    ensures var sym, resumed, steady := SymbolOf(sell), ServedRun(log, 1, 2), ServedRun(log, 0, 2);
      && resumed.log == steady.log == log && 0 in resumed.replicas && 0 in steady.replicas
      && resumed.topic == [] && steady.topic == [Trade(buy.id, sell.id, sell.price, 1, 3)]
      && var b, c := EngineFor(resumed.replicas[0].engines, sym).book, EngineFor(steady.replicas[0].engines, sym).book;
         && b.bids == [Stamped(buy, 1)] && b.asks == []
         && c.bids == [] && c.asks == [Stamped(sell, 1).(remaining := 1)]
  {
    SoloRun.AloneState(Trading(), log, 1, 2);
    SoloRun.AloneState(Trading(), log, 0, 2);
    StartedInFront(log, sell, buy, next);
    ResumedBehind(log, sell, buy);
  }

  lemma StartedInFront(log: seq<Order>, sell: Order, buy: Order, next: Order)
    requires Crossing(sell, buy, next) && log == [sell, buy]
    ensures Failover.Stream(Trading(), log, 0, 2) == [Trade(buy.id, sell.id, sell.price, 1, 3)]
    ensures var b := EngineFor(Failover.Fold(Trading(), log, 0, 2), SymbolOf(sell)).book;
      b.bids == [] && b.asks == [Stamped(sell, 1).(remaining := 1)]
  {
    StreamBefore(log, sell, buy, next);
    FirstTrade(sell, buy, next);
    CrossingOnly(log, sell, buy, next);
    OneSymbol(log, SymbolOf(sell));
    ReplicaComputesShard(log, 2);
    assert log[..2] == log;
  }

  lemma ResumedBehind(log: seq<Order>, sell: Order, buy: Order)
    requires log == [sell, buy] && buy.side == BUY && buy.kind == LIMIT && buy.quantity > 0
    ensures Failover.Stream(Trading(), log, 1, 2) == []
    ensures var b := EngineFor(Failover.Fold(Trading(), log, 1, 2), SymbolOf(buy)).book;
      b.bids == [Stamped(buy, 1)] && b.asks == []
  {
    RestartedComputesShard(log, 1, 2);
    assert log[1..2] == [buy];
    OneSymbol([buy], SymbolOf(buy));
    BuyRests(buy);
  }

  lemma BuyRests(buy: Order)
    requires buy.side == BUY && buy.kind == LIMIT && buy.quantity > 0
    ensures var (e, trades) := SubmitAll(Fresh(DEFAULT_BAND), [buy]);
      trades == [] && e.book.bids == [Stamped(buy, 1)] && e.book.asks == []
  {
    assert [buy][..0] == [];
  }
}
