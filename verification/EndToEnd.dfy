/** From a client's socket to the trades of a symbol, through one gateway and any number of shards. */
module EndToEnd {
  import opened Sequences
  import opened Orders
  import opened Exchange
  import opened Wire
  import opened FeedHandler
  import opened Sharding
  import opened Shard
  import opened ShardRouter

  /**
   However the client's byte stream was cut into reads, and however many shards there are, the shard
   that owns a symbol gives it the book and the trades of one engine fed the orders of that symbol in
   the order in which the client sent them.
   */
  lemma ClientToTrades(sent: seq<Order>, toBits: real -> nat, toPrice: nat -> real, padding: seq<Byte>,
                       fd: int, wakeups: seq<seq<seq<Byte>>>, shards: ShardCount, sym: Symbol)
    requires |padding| == 6 && AllSendable(sent, toBits, toPrice)
    requires Bytes(wakeups) == EncodeAll(sent, toBits, padding)
    ensures var pushed := AfterAll(Connection(None, []), Session(fd, wakeups), fd, toPrice).pushed;
      var log := Payload(ToShard(Pushes(0, shards, pushed), ShardFor(sym, shards)));
      (EngineFor(Engines(log), sym), SymbolStream(log, sym)) == SubmitAll(Fresh(DEFAULT_BAND), OfSymbol(sent, sym))
  {
    OrdersArriveAsSent(sent, toBits, toPrice, padding, fd, wakeups);
    assert Payload(Pushes(0, shards, sent)) == sent;
    ShardingPreservesMeaning(Pushes(0, shards, sent), sym, ShardFor(sym, shards));
  }

  /**
   The same for any number of clients at once, on any descriptors, new or used before: the shard that owns
   a symbol runs one engine on the queue, and in the queue the orders from each descriptor are those its
   clients sent, one client after the other, each up to where it was cut off.
   */
  lemma ClientsToTrades(events: seq<Event>, now: map<int, seq<Byte>>, arrivals: seq<Arrival>, fd: int,
                        sent: seq<seq<Order>>, toBits: real -> nat, toPrice: nat -> real, padding: seq<Byte>,
                        shards: ShardCount, sym: Symbol)
    requires Tracks(map[], now, arrivals, events, toPrice)
    requires Clients(ReadsOf(events, fd).streams, sent, toBits, toPrice, padding)
    ensures var queue := OrdersOf(arrivals);
      var log := Payload(ToShard(Pushes(0, shards, queue), ShardFor(sym, shards)));
      var streams := ReadsOf(events, fd).streams;
      && (EngineFor(Engines(log), sym), SymbolStream(log, sym)) == SubmitAll(Fresh(DEFAULT_BAND), OfSymbol(queue, sym))
      && (forall i :: 0 <= i < |sent| ==> |streams[i]| / MSG_SIZE <= |sent[i]|)
      && From(arrivals, fd) == Complete(streams, sent)
      && (From(arrivals, fd) == Joined(sent) <==>
            forall i :: 0 <= i < |sent| ==> streams[i] == EncodeAll(sent[i], toBits, padding))
  {
    var queue := OrdersOf(arrivals);
    assert Payload(Pushes(0, shards, queue)) == queue;
    ShardingPreservesMeaning(Pushes(0, shards, queue), sym, ShardFor(sym, shards));
    ArriveUpToClose(events, fd, sent, toBits, toPrice, padding);
    assert BufferOf(map[], fd) == None;
  }
}
