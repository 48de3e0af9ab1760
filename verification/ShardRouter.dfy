/**
 Gateways routing orders into shard logs (shard_router_queue.hpp). Appends are atomic, so whatever
 several gateways do concurrently is one sequence of pushes.
 */
module ShardRouter {
  import opened Orders
  import opened Exchange
  import opened Sharding
  import opened Shard
  import LogCursor

  class ShardRouterQueue {
    const numShards: ShardCount
    var shards: seq<LogCursor.LogFile<Order>>

    ghost predicate Valid()
      reads this
    {
      numShards == |shards| && forall i, j :: 0 <= i < j < |shards| ==> shards[i] != shards[j]
    }

    ghost function Contents(): seq<seq<Order>>
      reads this, shards
    {
      seq(|shards|, i requires 0 <= i < |shards| reads this, shards => shards[i].records)
    }

    /** Opens the log files at the shard paths; opening leaves their records as they are. */
    constructor (files: seq<LogCursor.LogFile<Order>>, numShards: ShardCount)
      requires numShards <= |files| && forall i, j :: 0 <= i < j < |files| ==> files[i] != files[j]
      ensures Valid() && this.numShards == numShards && shards == files[..numShards]
    {
      this.numShards := numShards;
      var logs: seq<LogCursor.LogFile<Order>> := [];
      for i := 0 to numShards
        invariant logs == files[..i]
      {
        logs := logs + [files[i]];
      }
      shards := logs;
    }

    method Push(o: Order)
      requires Valid()
      modifies shards
      ensures Valid() && shards == old(shards)
      ensures var i := ShardFor(SymbolOf(o), numShards);
              Contents() == old(Contents())[i := old(Contents())[i] + [o]]
    {
      var shard := ShardFor(SymbolOf(o), numShards);
      shards[shard].Push(o);
    }

    /** What a feed handler does with a gateway's orders. */
    method PushAll(orders: seq<Order>)
      requires Valid()
      modifies shards
      ensures Valid() && shards == old(shards)
      ensures Routed(old(Contents()), Contents(), numShards, orders)
    {
      for n := 0 to |orders|
        invariant Valid() && shards == old(shards)
        invariant Routed(old(Contents()), Contents(), numShards, orders[..n])
      {
        RoutedSnoc(old(Contents()), Contents(), numShards, orders[..n], orders[n]);
        assert orders[..n + 1] == orders[..n] + [orders[n]];
        Push(orders[n]);
      }
      assert orders[..|orders|] == orders;
    }
  }

  /** Each log has grown by the orders routed to it, in order. */
  ghost predicate Routed(before: seq<seq<Order>>, after: seq<seq<Order>>, shards: ShardCount, orders: seq<Order>) {
    && |before| == |after| == shards
    && forall i :: 0 <= i < shards ==> after[i] == before[i] + Payload(ToShard(Pushes(0, shards, orders), i))
  }

  lemma RoutedSnoc(before: seq<seq<Order>>, after: seq<seq<Order>>, shards: ShardCount, orders: seq<Order>, o: Order)
    requires Routed(before, after, shards, orders)
    ensures var i := ShardFor(SymbolOf(o), shards);
            Routed(before, after[i := after[i] + [o]], shards, orders + [o])
  {
    forall i | 0 <= i < shards { PushedSnoc(orders, o, shards, i); }
  }

  /** One push: by which gateway, how many shards that gateway was started with, and the order. */
  datatype Push = Push(gateway: nat, shards: ShardCount, order: Order)

  function Target(p: Push): nat {
    ShardFor(SymbolOf(p.order), p.shards)
  }

  function Pushes(gateway: nat, shards: ShardCount, orders: seq<Order>): seq<Push> {
    seq(|orders|, i requires 0 <= i < |orders| => Push(gateway, shards, orders[i]))
  }

  function Payload(pushes: seq<Push>): seq<Order> {
    seq(|pushes|, i requires 0 <= i < |pushes| => pushes[i].order)
  }

  /** The pushes that end up in the log of shard `i`, in log order. */
  function ToShard(pushes: seq<Push>, i: nat): seq<Push> {
    if pushes == [] then [] else
      var init, p := pushes[..|pushes| - 1], pushes[|pushes| - 1];
      if Target(p) == i then ToShard(init, i) + [p] else ToShard(init, i)
  }

  /** The pushes of one symbol. */
  function WithSymbol(pushes: seq<Push>, sym: Symbol): seq<Push> {
    if pushes == [] then [] else
      var init, p := pushes[..|pushes| - 1], pushes[|pushes| - 1];
      if SymbolOf(p.order) == sym then WithSymbol(init, sym) + [p] else WithSymbol(init, sym)
  }

  /** The pushes of one gateway. */
  function FromGateway(pushes: seq<Push>, g: nat): seq<Push> {
    if pushes == [] then [] else
      var init, p := pushes[..|pushes| - 1], pushes[|pushes| - 1];
      if p.gateway == g then FromGateway(init, g) + [p] else FromGateway(init, g)
  }

  lemma PushedSnoc(orders: seq<Order>, o: Order, shards: ShardCount, i: nat)
    ensures Payload(ToShard(Pushes(0, shards, orders + [o]), i))
              == var was := Payload(ToShard(Pushes(0, shards, orders), i));
                 if ShardFor(SymbolOf(o), shards) == i then was + [o] else was
  {
    var all := Pushes(0, shards, orders + [o]);
    assert all[..|all| - 1] == Pushes(0, shards, orders);
  }

  lemma WithSymbolSnoc(pushes: seq<Push>, p: Push, sym: Symbol)
    ensures WithSymbol(pushes + [p], sym) == if SymbolOf(p.order) == sym then WithSymbol(pushes, sym) + [p] else WithSymbol(pushes, sym)
  {
  }

  lemma FromGatewaySnoc(pushes: seq<Push>, p: Push, g: nat)
    ensures FromGateway(pushes + [p], g) == if p.gateway == g then FromGateway(pushes, g) + [p] else FromGateway(pushes, g)
  {
  }

  lemma {:induction false} PayloadOfSymbol(pushes: seq<Push>, sym: Symbol)
    ensures OfSymbol(Payload(pushes), sym) == Payload(WithSymbol(pushes, sym))
  {
    if pushes != [] {
      var init := pushes[..|pushes| - 1];
      PayloadOfSymbol(init, sym);
      assert Payload(pushes)[..|pushes| - 1] == Payload(init);
    }
  }

  /** All gateways agree on where `sym` belongs. */
  predicate AgreeOn(pushes: seq<Push>, sym: Symbol, i: nat) {
    forall n :: 0 <= n < |pushes| && SymbolOf(pushes[n].order) == sym ==> Target(pushes[n]) == i
  }

  lemma {:induction false} ShardHasAll(pushes: seq<Push>, sym: Symbol, i: nat)
    requires AgreeOn(pushes, sym, i)
    ensures WithSymbol(ToShard(pushes, i), sym) == WithSymbol(pushes, sym)
  {
    if pushes != [] {
      var init, p := pushes[..|pushes| - 1], pushes[|pushes| - 1];
      ShardHasAll(init, sym, i);
      WithSymbolSnoc(ToShard(init, i), p, sym);
    }
  }

  lemma {:induction false} ShardHas(pushes: seq<Push>, n: nat)
    requires n < |pushes|
    ensures WithSymbol(ToShard(pushes, Target(pushes[n])), SymbolOf(pushes[n].order)) != []
  {
    var init, p := pushes[..|pushes| - 1], pushes[|pushes| - 1];
    var sym, i := SymbolOf(pushes[n].order), Target(pushes[n]);
    if n < |init| {
      ShardHas(init, n);
    }
    if Target(p) == i {
      WithSymbolSnoc(ToShard(init, i), p, sym);
    }
  }

  lemma {:induction false} ShardHasOnly(pushes: seq<Push>, sym: Symbol, i: nat)
    requires WithSymbol(ToShard(pushes, i), sym) != []
    ensures exists n :: 0 <= n < |pushes| && SymbolOf(pushes[n].order) == sym && Target(pushes[n]) == i
  {
    var init, p := pushes[..|pushes| - 1], pushes[|pushes| - 1];
    if SymbolOf(p.order) == sym && Target(p) == i {
      assert pushes[|pushes| - 1] == p;
    } else {
      if Target(p) == i {
        WithSymbolSnoc(ToShard(init, i), p, sym);
      }
      ShardHasOnly(init, sym, i);
      var n :| 0 <= n < |init| && SymbolOf(init[n].order) == sym && Target(init[n]) == i;
      assert pushes[n] == init[n];
    }
  }

  /**
   Sharding preserves meaning. When all gateways agree on the shard of a symbol, in particular when
   they share one shard count, the engine process of that shard gives the symbol the book and the
   trades of a single engine fed that symbol's orders in the order of their pushes.
   */
  lemma ShardingPreservesMeaning(pushes: seq<Push>, sym: Symbol, i: nat)
    requires AgreeOn(pushes, sym, i)
    ensures var log := Payload(ToShard(pushes, i));
      (EngineFor(Engines(log), sym), SymbolStream(log, sym))
        == SubmitAll(Fresh(DEFAULT_BAND), OfSymbol(Payload(pushes), sym))
  {
    ShardHasAll(pushes, sym, i);
    PayloadOfSymbol(ToShard(pushes, i), sym);
    PayloadOfSymbol(pushes, sym);
    SymbolsAreIndependent(Payload(ToShard(pushes, i)), sym);
  }

  /** So the outcome for a symbol does not depend on how many shards there are. */
  lemma ShardCountDoesNotMatter(orders: seq<Order>, sym: Symbol, m: ShardCount, n: ShardCount)
    ensures var log := Payload(ToShard(Pushes(0, m, orders), ShardFor(sym, m)));
      var log' := Payload(ToShard(Pushes(0, n, orders), ShardFor(sym, n)));
      && EngineFor(Engines(log), sym) == EngineFor(Engines(log'), sym)
      && SymbolStream(log, sym) == SymbolStream(log', sym)
  {
    assert Payload(Pushes(0, m, orders)) == orders && Payload(Pushes(0, n, orders)) == orders;
    ShardingPreservesMeaning(Pushes(0, m, orders), sym, ShardFor(sym, m));
    ShardingPreservesMeaning(Pushes(0, n, orders), sym, ShardFor(sym, n));
  }

  /** The gateway order of each symbol's orders survives the log. */
  lemma {:induction false} GatewayOrderKept(pushes: seq<Push>, sym: Symbol, i: nat, g: nat)
    requires AgreeOn(pushes, sym, i)
    ensures FromGateway(WithSymbol(ToShard(pushes, i), sym), g) == WithSymbol(FromGateway(pushes, g), sym)
  {
    if pushes != [] {
      var init, p := pushes[..|pushes| - 1], pushes[|pushes| - 1];
      GatewayOrderKept(init, sym, i, g);
      WithSymbolSnoc(ToShard(init, i), p, sym);
      FromGatewaySnoc(WithSymbol(ToShard(init, i), sym), p, g);
      WithSymbolSnoc(FromGateway(init, g), p, sym);
    }
  }

  /** Some engine process other than that of shard `i` also keeps a book for `sym`. */
  ghost predicate SplitAcross(pushes: seq<Push>, sym: Symbol, i: nat) {
    exists j: nat :: j != i && sym in Engines(Payload(ToShard(pushes, j)))
  }

  /**
   A symbol has its one book exactly when the gateways agree on its shard; a shard-count mismatch that
   moves the symbol always makes a second, disjoint book on another shard.
   */
  lemma OneBookIffAgreement(pushes: seq<Push>, sym: Symbol, i: nat)
    ensures AgreeOn(pushes, sym, i) <==> !SplitAcross(pushes, sym, i)
  {
    if AgreeOn(pushes, sym, i) {
      forall j: nat | j != i ensures sym !in Engines(Payload(ToShard(pushes, j))) {
        SymbolsAreIndependent(Payload(ToShard(pushes, j)), sym);
        PayloadOfSymbol(ToShard(pushes, j), sym);
        if WithSymbol(ToShard(pushes, j), sym) != [] {
          ShardHasOnly(pushes, sym, j);
        }
      }
    } else {
      var n :| 0 <= n < |pushes| && SymbolOf(pushes[n].order) == sym && Target(pushes[n]) != i;
      var j := Target(pushes[n]);
      ShardHas(pushes, n);
      PayloadOfSymbol(ToShard(pushes, j), sym);
      SymbolsAreIndependent(Payload(ToShard(pushes, j)), sym);
    }
  }
}
