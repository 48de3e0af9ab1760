/** Failover of a shard: the replicated service is its matching engines, its results are trades. */
module ShardFailover {
  import opened Orders
  import opened Exchange
  import opened Shard
  import opened TimeBlind
  import Failover
  import Handovers
  import SoloRun

  function Trading(): Failover.Service<EngineMap, Order, Trade> {
    Failover.Service(map[], Serve)
  }

  /** A replica that started with an empty checkpoint computes the engines and the trade stream of the log. */
  lemma {:induction false} ReplicaComputesShard(log: seq<Order>, i: nat)
    requires i <= |log|
    ensures Failover.Fold(Trading(), log, 0, i) == Engines(log[..i])
    ensures Failover.Stream(Trading(), log, 0, i) == Stream(log[..i])
  {
    if i > 0 {
      ReplicaComputesShard(log, i - 1);
      assert log[..i][..i - 1] == log[..i - 1];
    }
  }

  /** The same of a log `since`, of which the replica has got through `done`. */
  lemma FreshComputes(since: seq<Order>, done: seq<Order>, i: nat)
    requires i <= |since| && done == since[..i]
    ensures Failover.Fold(Trading(), since, 0, i) == Engines(done)
    ensures Failover.Stream(Trading(), since, 0, i) == Stream(done)
  {
    ReplicaComputesShard(since, i);
  }

  lemma SliceOfSlice<T>(s: seq<T>, base: nat, i: nat)
    requires base <= i <= |s|
    ensures i - base <= |s[base..]| && s[base..][..i - base] == s[base..i]
  {
  }

  /** From any saved offset, a replica computes the engines and the trade stream of the records since. */
  lemma RestartedComputesShard(log: seq<Order>, base: nat, i: nat)
    requires base <= i <= |log|
    ensures Failover.Fold(Trading(), log, base, i) == Engines(log[base..i])
    ensures Failover.Stream(Trading(), log, base, i) == Stream(log[base..i])
  {
    SliceOfSlice(log, base, i);
    FreshComputes(log[base..], log[base..i], i - base);
    Failover.RebasedTo(Trading(), log, base, i, Engines(log[base..i]), Stream(log[base..i]));
  }

  /** For a symbol, that is the book of one engine given the orders of that symbol since. */
  lemma BookSince(log: seq<Order>, base: nat, i: nat, sym: Symbol)
    requires base <= i <= |log|
    ensures EngineFor(Failover.Fold(Trading(), log, base, i), sym)
      == SubmitAll(Fresh(DEFAULT_BAND), OfSymbol(log[base..i], sym)).0
  {
    RestartedComputesShard(log, base, i);
    SymbolsAreIndependent(log[base..i], sym);
  }

  /** The replica of a run, in terms of where the run launched it and what the run wrote. */
  lemma ReplicaOfRun(actions: seq<Failover.Action<Order>>, id: nat)
    requires Failover.StartedAt(actions, id).Some?
    ensures var s, base := Failover.Exec(Trading(), Failover.Initial(), actions), Failover.StartedAt(actions, id).value;
      && s.log == Failover.Appended(actions) && id in s.replicas
      && base <= Failover.Applied(s.replicas[id]) <= |s.log|
      && s.replicas[id].engines == Failover.Fold(Trading(), s.log, base, Failover.Applied(s.replicas[id]))
  {
    Failover.LogAndReplicas(Trading(), actions, id);
    Failover.AlwaysInv(Trading(), actions);
    Failover.MemberOk(Trading(), Failover.Exec(Trading(), Failover.Initial(), actions), id);
  }

  /**
   In every run the replicas alive are those launched and not dead since. Each, active or standby, holds
   for every symbol the book of an engine that was given that symbol's orders, of the records written,
   from the offset the replica was launched at up to the one it has got to.
   */
  lemma WarmReplicas(actions: seq<Failover.Action<Order>>, id: nat, sym: Symbol)
    ensures var s, log := Failover.Exec(Trading(), Failover.Initial(), actions), Failover.Appended(actions);
      match Failover.StartedAt(actions, id)
      case None => id !in s.replicas
      case Some(base) =>
        && id in s.replicas
        && var r := s.replicas[id];
           && base <= Failover.Applied(r) <= |log|
           && EngineFor(r.engines, sym) == SubmitAll(Fresh(DEFAULT_BAND), OfSymbol(log[base..Failover.Applied(r)], sym)).0
  {
    var s := Failover.Exec(Trading(), Failover.Initial(), actions);
    match Failover.StartedAt(actions, id) {
      case None => Failover.LogAndReplicas(Trading(), actions, id);
      case Some(base) =>
        ReplicaOfRun(actions, id);
        BookSince(s.log, base, Failover.Applied(s.replicas[id]), sym);
    }
  }

  lemma {:induction false} OfSymbolConcat(a: seq<Order>, b: seq<Order>, sym: Symbol)
    ensures OfSymbol(a + b, sym) == OfSymbol(a, sym) + OfSymbol(b, sym)
  {
    if b == [] {
      assert a + b == a;
    } else {
      var n := |b| - 1;
      assert (a + b)[..|a| + n] == a + b[..n];
      OfSymbolConcat(a, b[..n], sym);
    }
  }

  lemma OfSymbolSplit(log: seq<Order>, base: nat, i: nat, sym: Symbol)
    requires base <= i <= |log|
    ensures OfSymbol(log[0..i], sym) == OfSymbol(log[..base], sym) + OfSymbol(log[base..i], sym)
  {
    assert log[0..i] == log[..base] + log[base..i];
    OfSymbolConcat(log[..base], log[base..i], sym);
  }

  lemma NothingBefore(log: seq<Order>, base: nat, i: nat, sym: Symbol)
    requires base <= i <= |log| && OfSymbol(log[..base], sym) == []
    ensures OfSymbol(log[0..i], sym) == OfSymbol(log[base..i], sym)
  {
    OfSymbolSplit(log, base, i, sym);
    assert [] + OfSymbol(log[base..i], sym) == OfSymbol(log[base..i], sym);
  }

  /** The run in which one replica is launched at `base` and serves the records of the log up to `i`. */
  function ServedRun(log: seq<Order>, base: nat, i: nat): Failover.State<EngineMap, Order, Trade>
    requires base <= i <= |log|
  {
    Failover.Exec(Trading(), Failover.Initial(), SoloRun.Alone(Trading(), log, base, i))
  }

  /** The engine of `sym` at that replica then. */
  function EngineAt(log: seq<Order>, base: nat, i: nat, sym: Symbol): Engine
    requires base <= i <= |log|
  {
    SoloRun.AloneState(Trading(), log, base, i);
    EngineFor(ServedRun(log, base, i).replicas[0].engines, sym)
  }

  /** It is that of an engine given the orders of `sym` from `base` on. */
  lemma EngineSince(log: seq<Order>, base: nat, i: nat, sym: Symbol)
    requires base <= i <= |log|
    ensures EngineAt(log, base, i, sym) == SubmitAll(Fresh(DEFAULT_BAND), OfSymbol(log[base..i], sym)).0
  {
    SoloRun.AloneState(Trading(), log, base, i);
    BookSince(log, base, i, sym);
  }

  /** A replica that resumed at a saved offset agrees with a fresh one on every symbol that did not occur before that offset. */
  lemma RestartKeepsNewSymbols(log: seq<Order>, base: nat, i: nat, sym: Symbol)
    requires base <= i <= |log| && OfSymbol(log[..base], sym) == []
    ensures EngineAt(log, base, i, sym) == EngineAt(log, 0, i, sym)
  {
    NothingBefore(log, base, i, sym);
    EngineSince(log, base, i, sym);
    EngineSince(log, 0, i, sym);
  }

  /**
   As long as the symbol has not come up again, the replica that resumed has the engine of a new symbol,
   and the fresh one still has that of the saved offset. But for times these are the same if and only if
   by then nothing rested and nothing had been traded.
   */
  lemma RestartForgets(log: seq<Order>, base: nat, i: nat, sym: Symbol)
    requires base <= i <= |log| && OfSymbol(log[base..i], sym) == []
    ensures EngineAt(log, base, i, sym) == Fresh(DEFAULT_BAND) && EngineAt(log, 0, i, sym) == EngineAt(log, 0, base, sym)
    ensures SameEngine(EngineAt(log, base, i, sym), EngineAt(log, 0, i, sym)) <==> Blank(EngineAt(log, 0, base, sym))
  {
    var before := OfSymbol(log[0..base], sym);
    EngineSince(log, base, i, sym);
    EngineSince(log, 0, i, sym);
    EngineSince(log, 0, base, sym);
    OfSymbolSplit(log, base, i, sym);
    assert log[0..base] == log[..base] && before + [] == before;
    ForgettingIsHarmless(DEFAULT_BAND, before, []);
  }

  /** A symbol that was blank at the saved offset: from then on book, last price and trades are the same, but for times. */
  lemma RestartKeepsBlank(log: seq<Order>, base: nat, i: nat, sym: Symbol)
    requires base <= i <= |log| && Blank(EngineAt(log, 0, base, sym))
    ensures SameEngine(EngineAt(log, base, i, sym), EngineAt(log, 0, i, sym))
    ensures var before, all := SymbolStream(log[..base], sym), SymbolStream(log[..i], sym);
      before <= all && SameTrades(SymbolStream(log[base..i], sym), all[|before|..])
  {
    EngineSince(log, base, i, sym);
    EngineSince(log, 0, i, sym);
    EngineSince(log, 0, base, sym);
    OfSymbolSplit(log, base, i, sym);
    assert log[0..base] == log[..base] && log[0..i] == log[..i];
    ForgettingIsHarmless(DEFAULT_BAND, OfSymbol(log[..base], sym), OfSymbol(log[base..i], sym));
    SymbolsAreIndependent(log[..base], sym);
    SymbolsAreIndependent(log[..i], sym);
    SymbolsAreIndependent(log[base..i], sym);
  }

  /**
   Exactly when a restart does no harm to a symbol: but for times, its book and last price are those of a
   fresh replica all along if and only if at the saved offset nothing rested and nothing had been traded.
   */
  lemma RestartRightIff(log: seq<Order>, base: nat, sym: Symbol)
    requires base <= |log|
    ensures (forall i :: base <= i <= |log| ==> SameEngine(EngineAt(log, base, i, sym), EngineAt(log, 0, i, sym)))
      <==> Blank(EngineAt(log, 0, base, sym))
  {
    if Blank(EngineAt(log, 0, base, sym)) {
      forall i | base <= i <= |log| ensures SameEngine(EngineAt(log, base, i, sym), EngineAt(log, 0, i, sym)) {
        RestartKeepsBlank(log, base, i, sym);
      }
    } else {
      assert log[base..base] == [];
      RestartForgets(log, base, base, sym);
    }
  }

  /**
   Two replicas in any run, one launched at `base` and one at the start of the log, that have got equally
   far: for a symbol that was blank at `base` they agree but for times, and as long as the symbol has not
   come up again they agree only if it was.
   */
  lemma RestartInRuns(actions: seq<Failover.Action<Order>>, resumed: nat, steady: nat, base: nat, sym: Symbol)
    requires Failover.StartedAt(actions, resumed) == Some(base) && Failover.StartedAt(actions, steady) == Some(0)
    ensures var s := Failover.Exec(Trading(), Failover.Initial(), actions);
      && s.log == Failover.Appended(actions) && resumed in s.replicas && steady in s.replicas
      && var i := Failover.Applied(s.replicas[resumed]);
         && base <= i <= |s.log|
         && (Failover.Applied(s.replicas[steady]) == i ==>
               var same := SameEngine(EngineFor(s.replicas[resumed].engines, sym), EngineFor(s.replicas[steady].engines, sym));
               var blank := Blank(SubmitAll(Fresh(DEFAULT_BAND), OfSymbol(s.log[..base], sym)).0);
               (blank ==> same) && (OfSymbol(s.log[base..i], sym) == [] && same ==> blank))
  {
    var s := Failover.Exec(Trading(), Failover.Initial(), actions);
    ReplicaOfRun(actions, resumed);
    ReplicaOfRun(actions, steady);
    var i := Failover.Applied(s.replicas[resumed]);
    if Failover.Applied(s.replicas[steady]) == i {
      BookSince(s.log, base, i, sym);
      BookSince(s.log, 0, i, sym);
      EngineSince(s.log, base, i, sym);
      EngineSince(s.log, 0, i, sym);
      EngineSince(s.log, 0, base, sym);
      assert s.log[0..base] == s.log[..base];
      if Blank(EngineAt(s.log, 0, base, sym)) {
        RestartKeepsBlank(s.log, base, i, sym);
      } else if OfSymbol(s.log[base..i], sym) == [] {
        RestartForgets(s.log, base, i, sym);
      }
    }
  }

  /**
   The trades topic in every run with fresh checkpoints and clean handovers: exactly the trades of the
   records that the last leader has finished, and of the record it is at those it has published.
   */
  lemma CleanFailoverPublishesTrades(actions: seq<Failover.Action<Order>>)
    requires var s := Failover.Exec(Trading(), Failover.Initial(), actions);
             Handovers.FreshStarts(s.tenures) && Handovers.CleanHandovers(s.tenures)
    ensures var s := Failover.Exec(Trading(), Failover.Initial(), actions);
      && (s.tenures == [] ==> s.topic == [])
      && (s.tenures != [] ==>
            var t := Failover.LastTenure(s.tenures);
            && t.next <= |s.log|
            && (t.part == 0 ==> s.topic == Stream(s.log[..t.next]))
            && (t.part > 0 ==>
                  && t.next < |s.log| && t.part <= |TradesAt(s.log, t.next)|
                  && s.topic == Stream(s.log[..t.next]) + TradesAt(s.log, t.next)[..t.part]))
  {
    var s := Failover.Exec(Trading(), Failover.Initial(), actions);
    Handovers.CleanTopic(Trading(), actions);
    if s.tenures != [] {
      ReplicaComputesShard(s.log, Failover.LastTenure(s.tenures).next);
    }
  }

  /** The trades of record `i`. */
  function TradesAt(log: seq<Order>, i: nat): seq<Trade>
    requires i < |log|
  {
    Serve(Engines(log[..i]), log[i]).1
  }
}
