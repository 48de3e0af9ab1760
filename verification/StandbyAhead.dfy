/** The run in which a standby overtakes its leader, and what is then never published. */
module StandbyAhead {
  import opened Orders
  import opened Spans
  import opened Failover
  import opened Handovers

  lemma {:induction false} ExecConcat<M, O, T>(f: Service<M, O, T>, s: State<M, O, T>, a: seq<Action<O>>, b: seq<Action<O>>)
    ensures Exec(f, s, a + b) == Exec(f, Exec(f, s, a), b)
  {
    if b == [] {
      assert a + b == a;
    } else {
      var n := |b| - 1;
      assert (a + b)[..|a| + n] == a + b[..n];
      ExecConcat(f, s, a, b[..n]);
    }
  }

  lemma ExecTwo<M, O, T>(f: Service<M, O, T>, s: State<M, O, T>, a: Action<O>, b: Action<O>)
    ensures Exec(f, s, [a, b]) == Next(f, Next(f, s, a), b)
  {
    assert [a, b][..1] == [a] && [a][..0] == [];
    assert Exec(f, s, [a]) == Next(f, s, a);
  }

  lemma ExecFour<M, O, T>(f: Service<M, O, T>, s: State<M, O, T>, a: Action<O>, b: Action<O>, c: Action<O>, d: Action<O>)
    ensures Exec(f, s, [a, b, c, d]) == Next(f, Next(f, Next(f, Next(f, s, a), b), c), d)
  {
    ExecConcat(f, s, [a, b], [c, d]);
    ExecTwo(f, s, a, b);
    ExecTwo(f, Exec(f, s, [a, b]), c, d);
    assert [a, b] + [c, d] == [a, b, c, d];
  }

  /** The first `n` records are written, before any replica is launched. */
  function Writing<O>(log: seq<O>, n: nat): seq<Action<O>>
    requires n <= |log|
  {
    if n == 0 then [] else Writing(log, n - 1) + [Append(log[n - 1])]
  }

  lemma {:induction false} Written<M, O, T>(f: Service<M, O, T>, log: seq<O>, n: nat)
    requires n <= |log|
    ensures Exec(f, Initial(), Writing(log, n)) == State(log[..n], [], None, map[], [])
    decreases n
  {
    if n > 0 {
      Written(f, log, n - 1);
      assert Writing(log, n)[..|Writing(log, n)| - 1] == Writing(log, n - 1);
      assert log[..n - 1] + [log[n - 1]] == log[..n];
    }
  }

  /** A replica is launched at `base` and tries the lock. */
  function Starting<O>(id: nat, base: nat): seq<Action<O>> {
    [Launch(id, base), Boot(id)]
  }

  /** While another one leads, it does not. */
  lemma JoinsAsStandby<M, O, T>(f: Service<M, O, T>, s: State<M, O, T>, id: nat, base: nat)
    requires id !in s.replicas && base <= |s.log| && s.lock.Some?
    ensures Exec(f, s, Starting(id, base)) == Put(s, id, Replica(base, base, f.init, false, Ready))
  {
    ExecTwo(f, s, Launch(id, base), Boot(id));
    PutPut(s, id, Replica(base, base, f.init, false, Booting), Replica(base, base, f.init, false, Ready));
  }

  /** While none leads, it becomes leader, from `base` on. */
  lemma StartsAsLeader<M, O, T>(f: Service<M, O, T>, s: State<M, O, T>, id: nat, base: nat)
    requires id !in s.replicas && base <= |s.log| && s.lock == None
    ensures Exec(f, s, Starting(id, base))
      == Put(s, id, Replica(base, base, f.init, true, Ready)).(lock := Some(id), tenures := s.tenures + [Tenure(id, base, base, base, 0)])
  {
    ExecTwo(f, s, Launch(id, base), Boot(id));
    PutPut(s, id, Replica(base, base, f.init, false, Booting), Replica(base, base, f.init, true, Ready));
  }

  /** A first replica on a written log. */
  lemma Starts<M, O, T>(f: Service<M, O, T>, log: seq<O>, base: nat)
    requires base <= |log|
    ensures Exec(f, Initial(), Writing(log, |log|) + Starting(0, base))
      == State(log, [], Some(0), map[0 := Replica(base, base, f.init, true, Ready)], [Tenure(0, base, base, base, 0)])
  {
    ExecConcat(f, Initial(), Writing(log, |log|), Starting(0, base));
    Written(f, log, |log|);
    assert log[..|log|] == log;
    StartsAsLeader(f, State(log, [], None, map[], []), 0, base);
  }

  /** A standby pops, finds the lock taken and submits. */
  function Following<O>(id: nat): seq<Action<O>> {
    [Pop(id), Promote(id), Submit(id)]
  }

  /** It does so `n` times. */
  function Replaying<O>(id: nat, n: nat): seq<Action<O>> {
    if n == 0 then [] else Replaying(id, n - 1) + Following(id)
  }

  lemma FollowsOne<M, O, T>(f: Service<M, O, T>, s: State<M, O, T>, id: nat, base: nat, i: nat)
    requires id in s.replicas && s.lock.Some? && base <= i < |s.log|
    requires s.replicas[id] == Replica(base, i, Fold(f, s.log, base, i), false, Ready)
    ensures Next(f, Next(f, Next(f, s, Pop(id)), Promote(id)), Submit(id))
      == Put(s, id, Replica(base, i + 1, Fold(f, s.log, base, i + 1), false, Ready))
  {
  }

  lemma ExecThree<M, O, T>(f: Service<M, O, T>, s: State<M, O, T>, a: Action<O>, b: Action<O>, c: Action<O>)
    ensures Exec(f, s, [a, b, c]) == Next(f, Next(f, Next(f, s, a), b), c)
  {
    ExecTwo(f, s, a, b);
    assert [a, b, c][..2] == [a, b];
  }

  lemma ReplaysOneMore<M, O, T>(f: Service<M, O, T>, s: State<M, O, T>, before: seq<Action<O>>, actions: seq<Action<O>>,
                                id: nat, base: nat, i: nat)
    requires s.lock.Some? && base <= i < |s.log| && actions == before + Following(id)
    requires Exec(f, s, before) == Put(s, id, Replica(base, i, Fold(f, s.log, base, i), false, Ready))
    ensures Exec(f, s, actions) == Put(s, id, Replica(base, i + 1, Fold(f, s.log, base, i + 1), false, Ready))
  {
    var r := Replica(base, i, Fold(f, s.log, base, i), false, Ready);
    ExecConcat(f, s, before, Following(id));
    ExecThree(f, Put(s, id, r), Pop(id), Promote(id), Submit(id));
    FollowsOne(f, Put(s, id, r), id, base, i);
    PutPut(s, id, r, Replica(base, i + 1, Fold(f, s.log, base, i + 1), false, Ready));
  }

  /** While another one leads, it gets through `n` records from the offset it was launched at and publishes nothing. */
  lemma {:induction false} Replayed<M, O, T>(f: Service<M, O, T>, s: State<M, O, T>, id: nat, base: nat, n: nat)
    requires id in s.replicas && s.replicas[id] == Replica(base, base, f.init, false, Ready) && s.lock.Some?
    requires base + n <= |s.log|
    ensures Exec(f, s, Replaying(id, n)) == Put(s, id, Replica(base, base + n, Fold(f, s.log, base, base + n), false, Ready))
    decreases n
  {
    if n == 0 {
      PutSame(s, id);
    } else {
      Replayed(f, s, id, base, n - 1);
      ReplaysOneMore(f, s, Replaying(id, n - 1), Replaying(id, n), id, base, base + n - 1);
    }
  }

  /**
   A replica launched at `base` beside a leader, in any state: after `n` records it has served those from
   `base` on, starting from nothing, and nothing else has changed.
   */
  lemma StandbyFrom<M, O, T>(f: Service<M, O, T>, s: State<M, O, T>, id: nat, base: nat, n: nat)
    requires id !in s.replicas && s.lock.Some? && base + n <= |s.log|
    ensures Exec(f, s, Starting(id, base) + Replaying(id, n))
      == Put(s, id, Replica(base, base + n, Fold(f, s.log, base, base + n), false, Ready))
  {
    var r := Replica(base, base, f.init, false, Ready);
    ExecConcat(f, s, Starting(id, base), Replaying(id, n));
    JoinsAsStandby(f, s, id, base);
    Replayed(f, Put(s, id, r), id, base, n);
    PutPut(s, id, r, Replica(base, base + n, Fold(f, s.log, base, base + n), false, Ready));
  }

  /** Its first record is the one at `base`. */
  lemma StandbyServesFirst<M, O, T>(f: Service<M, O, T>, s: State<M, O, T>, id: nat, base: nat)
    requires id !in s.replicas && s.lock.Some? && base < |s.log|
    ensures Exec(f, s, Starting(id, base) + Replaying(id, 1))
      == Put(s, id, Replica(base, base + 1, f.serve(f.init, s.log[base]).0, false, Ready))
  {
    StandbyFrom(f, s, id, base, 1);
  }

  lemma PutSame<M, O, T>(s: State<M, O, T>, id: nat)
    requires id in s.replicas
    ensures Put(s, id, s.replicas[id]) == s
  {
    assert s.replicas[id := s.replicas[id]] == s.replicas;
  }

  lemma PutPut<M, O, T>(s: State<M, O, T>, id: nat, a: Replica<M, O, T>, b: Replica<M, O, T>)
    ensures Put(Put(s, id, a), id, b) == Put(s, id, b)
  {
  }

  /** The leader dies; the next record promotes the standby, which submits it and publishes one result. */
  function TakingOver<O>(o: O): seq<Action<O>> {
    [Die(0), Append(o)] + [Pop(1), Promote(1), Submit(1), Publish(1)]
  }

  lemma LeaderDies<M, O, T>(f: Service<M, O, T>, s: State<M, O, T>, o: O)
    requires s.lock == Some(0) && s.replicas.Keys == {0, 1}
    ensures Next(f, Next(f, s, Die(0)), Append(o))
      == State(s.log + [o], s.topic, None, map[1 := s.replicas[1]], s.tenures)
  {
    assert s.replicas - {0} == map[1 := s.replicas[1]];
  }

  lemma StandbyLeads<M, O, T>(f: Service<M, O, T>, s: State<M, O, T>, r: Replica<M, O, T>, o: O)
    requires s.replicas == map[1 := r] && s.lock == None && s.log != [] && o == s.log[|s.log| - 1]
    requires r.offset == |s.log| - 1 && r.phase == Ready && !r.active && f.serve(r.engines, o).1 != []
    ensures var s' := Next(f, Next(f, Next(f, Next(f, s, Pop(1)), Promote(1)), Submit(1)), Publish(1));
      && s'.log == s.log
      && s'.topic == s.topic + [f.serve(r.engines, o).1[0]]
      && s'.tenures == s.tenures + [Tenure(1, r.base, r.offset, r.offset, 1)]
  {
    var s2 := Next(f, Next(f, s, Pop(1)), Promote(1));
    var t := Tenure(1, r.base, r.offset, r.offset, 0);
    assert s2 == State(s.log, s.topic, Some(1), map[1 := Replica(r.base, |s.log|, r.engines, true, Decided(o))], s.tenures + [t]);
    assert (s.tenures + [t])[..|s.tenures|] == s.tenures;
  }

  lemma TakenOver<M, O, T>(f: Service<M, O, T>, s: State<M, O, T>, r: Replica<M, O, T>, o: O)
    requires s.lock == Some(0) && s.replicas.Keys == {0, 1} && s.replicas[1] == r
    requires r.offset == |s.log| && r.phase == Ready && !r.active && f.serve(r.engines, o).1 != []
    ensures var s' := Exec(f, s, TakingOver(o));
      && s'.log == s.log + [o]
      && s'.topic == s.topic + [f.serve(r.engines, o).1[0]]
      && s'.tenures == s.tenures + [Tenure(1, r.base, r.offset, r.offset, 1)]
  {
    ExecConcat(f, s, [Die(0), Append(o)], [Pop(1), Promote(1), Submit(1), Publish(1)]);
    ExecTwo(f, s, Die(0), Append(o));
    LeaderDies(f, s, o);
    var s1 := Exec(f, s, [Die(0), Append(o)]);
    ExecFour(f, s1, Pop(1), Promote(1), Submit(1), Publish(1));
    StandbyLeads(f, s1, r, o);
  }

  /**
   A log is written, a leader and a standby start on it, the standby replays all of it while the leader
   does nothing, and the leader dies.
   */
  function LosingRun<O>(log: seq<O>, o: O): seq<Action<O>> {
    Writing(log, |log|) + Starting(0, 0) + (Starting(1, 0) + Replaying(1, |log|)) + TakingOver(o)
  }

  /** The state when the leader is about to die: the standby has replayed everything, the leader nothing. */
  function Overtaken<M, O, T>(f: Service<M, O, T>, log: seq<O>): State<M, O, T> {
    State(log, [], Some(0),
          map[0 := Replica(0, 0, f.init, true, Ready), 1 := Replica(0, |log|, Fold(f, log, 0, |log|), false, Ready)],
          [Tenure(0, 0, 0, 0, 0)])
  }

  lemma Overtakes<M, O, T>(f: Service<M, O, T>, log: seq<O>)
    ensures Exec(f, Initial(), Writing(log, |log|) + Starting(0, 0) + (Starting(1, 0) + Replaying(1, |log|))) == Overtaken(f, log)
  {
    var setup := Writing(log, |log|) + Starting(0, 0);
    ExecConcat(f, Initial(), setup, Starting(1, 0) + Replaying(1, |log|));
    Starts(f, log, 0);
    StandbyFrom(f, Exec(f, Initial(), setup), 1, 0, |log|);
  }

  lemma LosingRunState<M, O, T>(f: Service<M, O, T>, log: seq<O>, o: O)
    requires Results(f, log + [o], 0, |log|) != []
    ensures var s := Exec(f, Initial(), LosingRun(log, o));
      && s.log == log + [o]
      && s.topic == [Results(f, log + [o], 0, |log|)[0]]
      && s.tenures == [Tenure(0, 0, 0, 0, 0), Tenure(1, 0, |log|, |log|, 1)]
  {
    ExecConcat(f, Initial(), Writing(log, |log|) + Starting(0, 0) + (Starting(1, 0) + Replaying(1, |log|)), TakingOver(o));
    Overtakes(f, log);
    PastIsFixed(f, log, [o], 0, |log|);
    TakenOver(f, Overtaken(f, log), Overtaken(f, log).replicas[1], o);
  }

  /**
   Failover alone is not exactly-once, whatever the log: when the standby has run ahead of a leader that
   dies, the topic goes on with the next record's results and has none of the results of the log.
   */
  lemma StandbyAheadLosesResults<M, O, T>(f: Service<M, O, T>, log: seq<O>, o: O)
    requires Stream(f, log, 0, |log|) != [] && Results(f, log + [o], 0, |log|) != []
    ensures var s := Exec(f, Initial(), LosingRun(log, o));
      && s.log == log + [o] && s.topic == [Results(f, s.log, 0, |log|)[0]]
      && FreshStarts(s.tenures) && TenuresOk(f, s.log, s.tenures)
      && var spans := SpansOf(f, s.log, s.tenures);
         && !Contiguous(spans)
         && forall p :: 0 <= p < |Stream(f, log, 0, |log|)| ==> Covering(spans, p) == 0
  {
    LosingRunState(f, log, o);
    PastIsFixed(f, log, [o], 0, |log|);
    var s := Exec(f, Initial(), LosingRun(log, o));
    var m := |Stream(f, log, 0, |log|)|;
    var spans := [Span(0, 0), Span(m, m + 1)];
    assert SpansOf(f, s.log, s.tenures) == spans;
    SplitLast([Span(0, 0)], Span(m, m + 1));
    assert [Span(0, 0)] + [Span(m, m + 1)] == spans;
    forall p: nat | p < m ensures Covering(spans, p) == 0 {
      CoveringTwo(Span(0, 0), Span(m, m + 1), p);
    }
  }

  /** In particular, a log with one result, and a record after it with another. */
  lemma FirstIsLost<M, O, T>(f: Service<M, O, T>, log: seq<O>, o: O, first: T, second: T)
    requires Stream(f, log, 0, |log|) == [first] && Stream(f, log + [o], 0, |log| + 1) == [first, second]
    ensures var s := Exec(f, Initial(), LosingRun(log, o));
      s.log == log + [o] && s.topic == [second]
  {
    PastIsFixed(f, log, [o], 0, |log|);
    var results := Results(f, log + [o], 0, |log|);
    assert [first] + results == [first, second];
    assert results == ([first] + results)[1..] == [second];
    StandbyAheadLosesResults(f, log, o);
  }
}
