/** Whose trades a shard makes, and which trades subscribers can see: over every log and every run. */
module ShardTrades {
  import opened Orders
  import opened Exchange
  import opened BookInvariants
  import opened TimeBlind
  import opened TradeLaws
  import opened Provenance
  import opened Shard
  import opened ShardFailover
  import Failover

  /** The trade is of records `j` and `k` of the log, whose symbol fields agree; the earlier one rested. */
  ghost predicate OfRecords(t: Trade, log: seq<Order>, j: nat, k: nat) {
    j < k < |log| && Between(t, log[j], log[k]) && SameField(log[j].symbol, log[k].symbol)
  }

  ghost predicate FromLog(t: Trade, log: seq<Order>) {
    exists j: nat, k: nat :: OfRecords(t, log, j, k)
  }

  /** `part` is what the log holds from `base` on, or the beginning of that. */
  predicate PartOf(part: seq<Order>, log: seq<Order>, base: nat) {
    base + |part| <= |log| && forall i :: 0 <= i < |part| ==> part[i] == log[base + i]
  }

  lemma StillFromLog(t: Trade, part: seq<Order>, log: seq<Order>, base: nat)
    requires FromLog(t, part) && PartOf(part, log, base)
    ensures FromLog(t, log)
  {
    var j: nat, k: nat :| OfRecords(t, part, j, k);
    assert OfRecords(t, log, base + j, base + k);
  }

  /** A record of one symbol's part of the log is a record of the log, of that symbol. */
  lemma {:induction false} RecordOfSymbol(log: seq<Order>, sym: Symbol, i: nat) returns (j: nat)
    requires i < |OfSymbol(log, sym)|
    ensures j < |log| && log[j] == OfSymbol(log, sym)[i] && SymbolOf(log[j]) == sym
  {
    var init := log[..|log| - 1];
    if i < |OfSymbol(init, sym)| {
      j := RecordOfSymbol(init, sym, i);
    } else {
      j := |log| - 1;
    }
  }

  /** The trades that one more record makes. */
  lemma ServedTrade(log: seq<Order>, o: Order, t: Trade)
    requires t in Serve(Engines(log), o).1
    ensures FromLog(t, log + [o])
  {
    var sym := SymbolOf(o);
    var i: nat :| i < |Serve(Engines(log), o).1| && Serve(Engines(log), o).1[i] == t;
    var mine := OfSymbol(log, sym);
    var e := SubmitAll(Fresh(DEFAULT_BAND), mine).0;
    SymbolsAreIndependent(log, sym);
    SubmitAllIsRun(Fresh(DEFAULT_BAND), mine);
    RunGood(Fresh(DEFAULT_BAND), Submits(mine));
    RestingWasSubmitted(DEFAULT_BAND, Submits(mine), Opposite(o.side));
    MakersWereSubmitted(e, Submits(mine), o, i);
    var n: nat :| n < |mine| && Between(t, Submits(mine)[n].order, o);
    var j := RecordOfSymbol(log, sym, n);
    SameSymbol(log[j], o);
    assert OfRecords(t, log + [o], j, |log|);
  }

  lemma SnocPart(init: seq<Order>, log: seq<Order>)
    requires log != [] && init == log[..|log| - 1]
    ensures PartOf(init, log, 0) && init + [log[|log| - 1]] == log
  {
  }

  /**
   Every trade of a shard is of two of its records with the same symbol bytes: the later record took from
   the earlier, at the earlier one's price and within both limits.
   */
  lemma {:induction false} TradesAreOfRecords(log: seq<Order>, t: Trade)
    requires t in Stream(log)
    ensures FromLog(t, log)
  {
    var init, o := log[..|log| - 1], log[|log| - 1];
    SnocPart(init, log);
    if t in Stream(init) {
      TradesAreOfRecords(init, t);
      StillFromLog(t, init, log, 0);
    } else {
      ServedTrade(init, o, t);
    }
  }

  /** What a tenure published is part of the stream of its replica. */
  lemma SegmentInStream<M, O, T>(f: Failover.Service<M, O, T>, log: seq<O>, t: Failover.Tenure, p: nat)
    requires Failover.TenureOk(f, log, t) && p < |Failover.Segment(f, log, t)|
    ensures Failover.Segment(f, log, t)[p] in Failover.Stream(f, log, t.base, |log|)
  {
    var first := |Failover.Stream(f, log, t.base, t.first)|;
    Failover.StreamPrefix(f, log, t.base, t.first, t.next);
    Failover.StreamPrefix(f, log, t.base, t.next, |log|);
    if t.part > 0 {
      Failover.StreamPrefix(f, log, t.base, t.next + 1, |log|);
    }
    assert Failover.Segment(f, log, t)[p] == Failover.Stream(f, log, t.base, |log|)[first + p];
  }

  lemma {:induction false} PublishedBySome<M, O, T>(f: Failover.Service<M, O, T>, log: seq<O>, tenures: seq<Failover.Tenure>, p: nat)
    returns (i: nat)
    requires Failover.TenuresOk(f, log, tenures) && p < |Failover.Published(f, log, tenures)|
    ensures i < |tenures| && Failover.Published(f, log, tenures)[p] in Failover.Stream(f, log, tenures[i].base, |log|)
  {
    var init, t := tenures[..|tenures| - 1], tenures[|tenures| - 1];
    var before := |Failover.Published(f, log, init)|;
    if p < before {
      i := PublishedBySome(f, log, init, p);
    } else {
      i := |tenures| - 1;
      SegmentInStream(f, log, t, p - before);
    }
  }

  /**
   Whatever crashes, takes over or restarts from whichever offset: each trade on the topic is of two
   written records with the same symbol bytes, the later taking from the earlier. A run may lose or repeat
   trades, but makes none up.
   */
  lemma TopicTradesAreOfRecords(actions: seq<Failover.Action<Order>>, p: nat)
    requires p < |Failover.Exec(Trading(), Failover.Initial(), actions).topic|
    ensures FromLog(Failover.Exec(Trading(), Failover.Initial(), actions).topic[p], Failover.Appended(actions))
  {
    var s := Failover.Exec(Trading(), Failover.Initial(), actions);
    Failover.OneLeaderPublishes(Trading(), actions);
    Failover.LogAndReplicas(Trading(), actions, 0);
    var i := PublishedBySome(Trading(), s.log, s.tenures, p);
    InStream(s.log, s.tenures[i].base, s.topic[p]);
  }

  lemma InStream(log: seq<Order>, base: nat, t: Trade)
    requires base <= |log| && t in Failover.Stream(Trading(), log, base, |log|)
    ensures FromLog(t, log)
  {
    RestartedComputesShard(log, base, |log|);
    TradesAreOfRecords(log[base..|log|], t);
    StillFromLog(t, log[base..|log|], log, base);
  }

  /**
   The engines of a process are made with the default collar: after any log, a LIMIT order of a symbol
   that has traded last at `p` is turned away exactly when its price is below 0.9 p or above 1.1 p.
   */
  lemma TenPercentCollar(log: seq<Order>, o: Order, p: real)
    requires o.kind == LIMIT && EngineFor(Engines(log), SymbolOf(o)).last == Some(p)
    ensures Submit(EngineFor(Engines(log), SymbolOf(o)), o).1.Rejected? <==> o.price < 0.9 * p || o.price > 1.1 * p
  {
    SymbolsAreIndependent(log, SymbolOf(o));
    SubmitAllBand(Fresh(DEFAULT_BAND), OfSymbol(log, SymbolOf(o)));
    LimitAndCollar(EngineFor(Engines(log), SymbolOf(o)), o);
  }
}
