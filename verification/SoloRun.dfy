/** The undisturbed life of a replica: a log is written, one replica is launched on it, leads and serves it. */
module SoloRun {
  import opened Orders
  import opened Failover
  import opened StandbyAhead

  /** The leader publishes `k` results. */
  function Publishes<O>(id: nat, k: nat): seq<Action<O>> {
    if k == 0 then [] else Publishes(id, k - 1) + [Publish(id)]
  }

  /** What the leader does with one record that has `k` results. */
  function Serving<O>(id: nat, k: nat): seq<Action<O>> {
    [Pop(id), Promote(id), Submit(id)] + Publishes(id, k) + [Finish(id)]
  }

  /** What it does with all records from `base` up to `i`. */
  function ServingUpTo<M, O, T>(f: Service<M, O, T>, log: seq<O>, base: nat, i: nat): seq<Action<O>>
    requires i <= |log|
  {
    if i <= base then [] else ServingUpTo(f, log, base, i - 1) + Serving(0, |Results(f, log, base, i - 1)|)
  }

  /** The whole run: the log is written, replica 0 is launched at `base` and serves up to `i`. */
  function Alone<M, O, T>(f: Service<M, O, T>, log: seq<O>, base: nat, i: nat): seq<Action<O>>
    requires i <= |log|
  {
    Writing(log, |log|) + Starting(0, base) + ServingUpTo(f, log, base, i)
  }

  /** The state in which the replica has these results to publish, and has published `part` of them. */
  function Amid<M, O, T>(log: seq<O>, topic: seq<T>, base: nat, i: nat, engines: M, results: seq<T>, part: nat): State<M, O, T>
    requires part <= |results|
  {
    State(log, topic + results[..part], Some(0),
          map[0 := Replica(base, i + 1, engines, true, Publishing(results[part..]))], [Tenure(0, base, base, i, part)])
  }

  /** The state in which it is done with all records before `i`. */
  function Idle<M, O, T>(log: seq<O>, topic: seq<T>, base: nat, i: nat, engines: M): State<M, O, T> {
    State(log, topic, Some(0), map[0 := Replica(base, i, engines, true, Ready)], [Tenure(0, base, base, i, 0)])
  }

  lemma Submits<M, O, T>(f: Service<M, O, T>, log: seq<O>, topic: seq<T>, base: nat, i: nat, engines: M)
    requires i < |log|
    ensures var (engines', results) := f.serve(engines, log[i]);
      Next(f, Next(f, Next(f, Idle(log, topic, base, i, engines), Pop(0)), Promote(0)), Submit(0))
        == Amid(log, topic, base, i, engines', results, 0)
  {
    var results := f.serve(engines, log[i]).1;
    assert topic + results[..0] == topic && results[0..] == results;
  }

  lemma PublishesOne<M, O, T>(f: Service<M, O, T>, log: seq<O>, topic: seq<T>, base: nat, i: nat, engines: M, results: seq<T>, part: nat)
    requires part < |results|
    ensures Next(f, Amid(log, topic, base, i, engines, results, part), Publish(0))
      == Amid(log, topic, base, i, engines, results, part + 1)
  {
    assert topic + results[..part] + [results[part]] == topic + results[..part + 1];
    assert results[part..][1..] == results[part + 1..];
  }

  /** Publishing `k` times over, when it is known what each time leads to. */
  lemma {:induction false} Repeats<M, O, T>(f: Service<M, O, T>, id: nat, k: nat, at: nat -> State<M, O, T>)
    requires forall n :: 0 <= n < k ==> Next(f, at(n), Publish(id)) == at(n + 1)
    ensures Exec(f, at(0), Publishes(id, k)) == at(k)
    decreases k
  {
    if k > 0 {
      Repeats(f, id, k - 1, at);
      OneMore(f, at(0), Publishes(id, k - 1), Publish(id), at(k - 1));
    }
  }

  lemma OneMore<M, O, T>(f: Service<M, O, T>, s: State<M, O, T>, actions: seq<Action<O>>, a: Action<O>, mid: State<M, O, T>)
    requires Exec(f, s, actions) == mid
    ensures Exec(f, s, actions + [a]) == Next(f, mid, a)
  {
    assert (actions + [a])[..|actions|] == actions;
  }

  lemma PublishesAll<M, O, T>(f: Service<M, O, T>, log: seq<O>, topic: seq<T>, base: nat, i: nat, engines: M, results: seq<T>)
    ensures Exec(f, Amid(log, topic, base, i, engines, results, 0), Publishes(0, |results|))
      == Amid(log, topic, base, i, engines, results, |results|)
  {
    var at := (n: nat) => Amid(log, topic, base, i, engines, results, Min(n, |results|));
    forall n: nat | n < |results| ensures Next(f, at(n), Publish(0)) == at(n + 1) {
      PublishesOne(f, log, topic, base, i, engines, results, n);
    }
    Repeats(f, 0, |results|, at);
  }

  lemma Finishes<M, O, T>(f: Service<M, O, T>, log: seq<O>, topic: seq<T>, base: nat, i: nat, engines: M, results: seq<T>)
    ensures Next(f, Amid(log, topic, base, i, engines, results, |results|), Finish(0))
      == Idle(log, topic + results, base, i + 1, engines)
  {
    assert results[..|results|] == results && results[|results|..] == [];
  }

  /** One record: popped, submitted, its results published one by one, finished. */
  lemma ServesOne<M, O, T>(f: Service<M, O, T>, log: seq<O>, topic: seq<T>, base: nat, i: nat, engines: M)
    requires i < |log|
    ensures var (engines', results) := f.serve(engines, log[i]);
      Exec(f, Idle(log, topic, base, i, engines), Serving(0, |results|)) == Idle(log, topic + results, base, i + 1, engines')
  {
    var (engines', results) := f.serve(engines, log[i]);
    var s, k := Idle(log, topic, base, i, engines), |results|;
    var taken: seq<Action<O>> := [Pop(0), Promote(0), Submit(0)];
    ExecConcat(f, s, taken + Publishes(0, k), [Finish(0)]);
    ExecConcat(f, s, taken, Publishes(0, k));
    ExecThree(f, s, Pop(0), Promote(0), Submit(0));
    Submits(f, log, topic, base, i, engines);
    PublishesAll(f, log, topic, base, i, engines', results);
    ExecOne(f, Amid(log, topic, base, i, engines', results, k), Finish(0));
    Finishes(f, log, topic, base, i, engines', results);
  }

  lemma ExecOne<M, O, T>(f: Service<M, O, T>, s: State<M, O, T>, a: Action<O>)
    ensures Exec(f, s, [a]) == Next(f, s, a)
  {
    assert [a][..0] == [];
  }

  lemma ServesOneMore<M, O, T>(f: Service<M, O, T>, s: State<M, O, T>, before: seq<Action<O>>, actions: seq<Action<O>>,
                               log: seq<O>, base: nat, i: nat)
    requires base <= i < |log| && actions == before + Serving(0, |Results(f, log, base, i)|)
    requires Exec(f, s, before) == Idle(log, Stream(f, log, base, i), base, i, Fold(f, log, base, i))
    ensures Exec(f, s, actions) == Idle(log, Stream(f, log, base, i + 1), base, i + 1, Fold(f, log, base, i + 1))
  {
    ExecConcat(f, s, before, Serving(0, |Results(f, log, base, i)|));
    ServesOne(f, log, Stream(f, log, base, i), base, i, Fold(f, log, base, i));
  }

  lemma {:induction false} ServesUpTo<M, O, T>(f: Service<M, O, T>, s: State<M, O, T>, log: seq<O>, base: nat, i: nat)
    requires base <= i <= |log| && s == Idle(log, [], base, base, f.init)
    ensures Exec(f, s, ServingUpTo(f, log, base, i)) == Idle(log, Stream(f, log, base, i), base, i, Fold(f, log, base, i))
    decreases i
  {
    if base < i {
      ServesUpTo(f, s, log, base, i - 1);
      ServesOneMore(f, s, ServingUpTo(f, log, base, i - 1), ServingUpTo(f, log, base, i), log, base, i - 1);
    }
  }

  /**
   A replica that is launched at `base` and left alone: it starts from nothing, serves the records from
   `base` on, and the topic holds their results, all of them and each once.
   */
  lemma AloneState<M, O, T>(f: Service<M, O, T>, log: seq<O>, base: nat, i: nat)
    requires base <= i <= |log|
    ensures Exec(f, Initial(), Alone(f, log, base, i))
      == State(log, Stream(f, log, base, i), Some(0), map[0 := Replica(base, i, Fold(f, log, base, i), true, Ready)],
               [Tenure(0, base, base, i, 0)])
  {
    ExecConcat(f, Initial(), Writing(log, |log|) + Starting(0, base), ServingUpTo(f, log, base, i));
    Starts(f, log, base);
    ServesUpTo(f, Idle(log, [], base, base, f.init), log, base, i);
  }
}
