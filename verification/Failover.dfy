/**
 The replicas of one shard (engine_main.cpp, shard_leader_lock.hpp, trade_log.hpp): every replica
 replays the same log, the holder of the leader lock publishes results to the topic, and any replica
 may die between any two steps. A replica starts at whatever offset its checkpoint gave it (`base`),
 with no engines; the lock is released when its holder dies. What a replica computes from a record is
 any deterministic service; module `ShardFailover` plugs in the matching engines of a shard.
 */
module Failover {
  import opened Sequences
  import opened Orders
  import opened Spans

  /** The state a replica starts with, and what one record does to it and makes it publish. */
  datatype Service<!M, !O, !T> = Service(init: M, serve: (M, O) -> (M, seq<T>))

  /** The state of a replica that started at record `base` and has served all records before `i`. */
  function Fold<M, O, T>(f: Service<M, O, T>, log: seq<O>, base: nat, i: nat): M
    requires i <= |log|
  {
    if i <= base then f.init else f.serve(Fold(f, log, base, i - 1), log[i - 1]).0
  }

  /** The results of record `i` for such a replica. */
  function Results<M, O, T>(f: Service<M, O, T>, log: seq<O>, base: nat, i: nat): seq<T>
    requires base <= i < |log|
  {
    f.serve(Fold(f, log, base, i), log[i]).1
  }

  /** The results of all records from `base` up to `i`, in order. */
  function Stream<M, O, T>(f: Service<M, O, T>, log: seq<O>, base: nat, i: nat): seq<T>
    requires i <= |log|
  {
    if i <= base then [] else Stream(f, log, base, i - 1) + Results(f, log, base, i - 1)
  }

  datatype Phase<O, T> =
    | Booting                      // about to try the lock for the first time
    | Ready                        // about to pop
    | Popped(order: O)             // about to try the lock if not active
    | Decided(order: O)            // about to submit
    | Publishing(pending: seq<T>)  // active only: results of this record still to publish

  /** `offset` counts popped records, from the start of the log. */
  datatype Replica<M, O, T> = Replica(base: nat, offset: nat, engines: M, active: bool, phase: Phase<O, T>)

  /**
   One stretch of leadership: of which replica, from which record on, which record is next to be
   finished, and how many results of that record are already published.
   */
  datatype Tenure = Tenure(id: nat, base: nat, first: nat, next: nat, part: nat)

  datatype State<M, O, T> = State(
    log: seq<O>, topic: seq<T>, lock: Option<nat>, replicas: map<nat, Replica<M, O, T>>, tenures: seq<Tenure>)

  datatype Action<O> =
    | Append(order: O)
    | Launch(id: nat, base: nat)
    | Boot(id: nat)
    | Pop(id: nat)
    | Promote(id: nat)
    | Submit(id: nat)
    | Publish(id: nat)
    | Finish(id: nat)
    | Die(id: nat)

  function Put<M, O, T>(s: State<M, O, T>, id: nat, r: Replica<M, O, T>): State<M, O, T> {
    s.(replicas := s.replicas[id := r])
  }

  /** `try_acquire` by `id`, whose first record as leader would be `first`; then it is in `phase`. */
  function TryAcquire<M, O, T>(s: State<M, O, T>, id: nat, r: Replica<M, O, T>, first: nat, phase: Phase<O, T>): State<M, O, T> {
    if r.active || s.lock.Some? then Put(s, id, r.(phase := phase))
    else Put(s, id, r.(active := true, phase := phase))
         .(lock := Some(id), tenures := s.tenures + [Tenure(id, r.base, first, first, 0)])
  }

  function LastTenure(tenures: seq<Tenure>): Tenure
    requires tenures != []
  {
    tenures[|tenures| - 1]
  }

  function WithLast(tenures: seq<Tenure>, t: Tenure): seq<Tenure>
    requires tenures != []
  {
    tenures[..|tenures| - 1] + [t]
  }

  /** The leader `id`, in state `r`, has published one more result. */
  function PublishedOne<M, O, T>(s: State<M, O, T>, id: nat, r: Replica<M, O, T>): State<M, O, T>
    requires r.phase.Publishing? && r.phase.pending != [] && s.tenures != []
  {
    var t := LastTenure(s.tenures);
    Put(s, id, r.(phase := Publishing(r.phase.pending[1..])))
    .(topic := s.topic + [r.phase.pending[0]], tenures := WithLast(s.tenures, t.(part := t.part + 1)))
  }

  /** It has finished its record. */
  function Finished<M, O, T>(s: State<M, O, T>, id: nat, r: Replica<M, O, T>): State<M, O, T>
    requires s.tenures != []
  {
    var t := LastTenure(s.tenures);
    Put(s, id, r.(phase := Ready)).(tenures := WithLast(s.tenures, t.(next := t.next + 1, part := 0)))
  }

  /** Replica `id`, in state `r`, takes the step `a`. */
  function Step<M, O, T>(f: Service<M, O, T>, s: State<M, O, T>, id: nat, r: Replica<M, O, T>, a: Action<O>): State<M, O, T> {
    match a
    case Boot(_) =>
      if r.phase.Booting? then TryAcquire(s, id, r, r.offset, Ready) else s
    case Pop(_) =>
      if r.phase.Ready? && r.offset < |s.log|
      then Put(s, id, r.(offset := r.offset + 1, phase := Popped(s.log[r.offset]))) else s
    case Promote(_) =>
      if r.phase.Popped? && r.offset > 0 then TryAcquire(s, id, r, r.offset - 1, Decided(r.phase.order)) else s
    case Submit(_) =>
      if r.phase.Decided? then
        var (engines, results) := f.serve(r.engines, r.phase.order);
        Put(s, id, r.(engines := engines, phase := if r.active then Publishing(results) else Ready))
      else s
    case Publish(_) =>
      if r.phase.Publishing? && r.phase.pending != [] && s.tenures != [] then PublishedOne(s, id, r) else s
    case Finish(_) =>
      if r.phase == Publishing([]) && s.tenures != [] then Finished(s, id, r) else s
    case Die(_) =>
      s.(replicas := s.replicas - {id}, lock := if s.lock == Some(id) then None else s.lock)
    case _ => s
  }

  function Next<M, O, T>(f: Service<M, O, T>, s: State<M, O, T>, a: Action<O>): State<M, O, T> {
    match a
    case Append(o) => s.(log := s.log + [o])
    case Launch(id, base) =>
      if id !in s.replicas && base <= |s.log| then Put(s, id, Replica(base, base, f.init, false, Booting)) else s
    case _ => if a.id in s.replicas then Step(f, s, a.id, s.replicas[a.id], a) else s
  }

  function Exec<M, O, T>(f: Service<M, O, T>, s: State<M, O, T>, actions: seq<Action<O>>): State<M, O, T> {
    if actions == [] then s else Next(f, Exec(f, s, actions[..|actions| - 1]), actions[|actions| - 1])
  }

  function Initial<M, O, T>(): State<M, O, T> {
    State([], [], None, map[], [])
  }

  /** The records that a run writes, in order. */
  function Appended<O>(actions: seq<Action<O>>): seq<O> {
    if actions == [] then [] else
      var init, a := actions[..|actions| - 1], actions[|actions| - 1];
      if a.Append? then Appended(init) + [a.order] else Appended(init)
  }

  /**
   Where a run started the replica `id` that is now alive, if one is: it can be launched when it is not
   alive, at any offset the log has reached, and lives until it dies.
   */
  function StartedAt<O>(actions: seq<Action<O>>, id: nat): Option<nat> {
    if actions == [] then None else
      var init, a := actions[..|actions| - 1], actions[|actions| - 1];
      var was := StartedAt(init, id);
      if a.Launch? && a.id == id && was == None && a.base <= |Appended(init)| then Some(a.base)
      else if a == Die(id) then None
      else was
  }

  /** A step leaves the launch offset of a replica as it is, unless it launches it or ends it. */
  lemma BaseStays<M, O, T>(f: Service<M, O, T>, s: State<M, O, T>, a: Action<O>, id: nat)
    ensures var s' := Next(f, s, a);
      && s'.log == (if a.Append? then s.log + [a.order] else s.log)
      && (id in s'.replicas <==>
            (id in s.replicas && a != Die(id)) || (id !in s.replicas && a.Launch? && a.id == id && a.base <= |s.log|))
      && (id in s'.replicas ==> s'.replicas[id].base == if id in s.replicas then s.replicas[id].base else a.base)
  {
  }

  /**
   In every run the log holds exactly the records written, and the replicas alive are those launched and
   not dead since, each with the offset it was launched at.
   */
  lemma {:induction false} LogAndReplicas<M, O, T>(f: Service<M, O, T>, actions: seq<Action<O>>, id: nat)
    ensures var s := Exec(f, Initial(), actions);
      && s.log == Appended(actions)
      && (id in s.replicas <==> StartedAt(actions, id).Some?)
      && (id in s.replicas ==> s.replicas[id].base == StartedAt(actions, id).value)
  {
    if actions != [] {
      var init, a := actions[..|actions| - 1], actions[|actions| - 1];
      LogAndReplicas(f, init, id);
      BaseStays(f, Exec(f, Initial(), init), a, id);
    }
  }

  lemma {:induction false} StreamPrefix<M, O, T>(f: Service<M, O, T>, log: seq<O>, base: nat, i: nat, j: nat)
    requires base <= i <= j <= |log|
    ensures Stream(f, log, base, i) <= Stream(f, log, base, j)
  {
    if i < j {
      StreamPrefix(f, log, base, i, j - 1);
    }
  }

  /** The results of the records from `first` up to `i`, for a replica that started at `base`. */
  function Late<M, O, T>(f: Service<M, O, T>, log: seq<O>, base: nat, first: nat, i: nat): seq<T>
    requires base <= first && i <= |log|
  {
    if i <= first then [] else Late(f, log, base, first, i - 1) + Results(f, log, base, i - 1)
  }

  /** A replica that started at `base` is a fresh replica of the log from there on. */
  lemma {:induction false} Rebased<M, O, T>(f: Service<M, O, T>, log: seq<O>, base: nat, i: nat)
    requires base <= i <= |log|
    ensures Fold(f, log, base, i) == Fold(f, log[base..], 0, i - base)
    ensures Stream(f, log, base, i) == Stream(f, log[base..], 0, i - base)
  {
    if base < i {
      Rebased(f, log, base, i - 1);
      assert log[base..][i - 1 - base] == log[i - 1];
    }
  }

  lemma RebasedTo<M, O, T>(f: Service<M, O, T>, log: seq<O>, base: nat, i: nat, state: M, results: seq<T>)
    requires base <= i <= |log|
    requires Fold(f, log[base..], 0, i - base) == state && Stream(f, log[base..], 0, i - base) == results
    ensures Fold(f, log, base, i) == state && Stream(f, log, base, i) == results
  {
    Rebased(f, log, base, i);
  }

  /** Services that do the same with every record compute and publish the same. */
  lemma {:induction false} SameService<M(!new), O(!new), T>(f: Service<M, O, T>, g: Service<M, O, T>, log: seq<O>,
                                                            base: nat, first: nat, i: nat)
    requires f.init == g.init && forall m, o :: f.serve(m, o) == g.serve(m, o)
    requires base <= first && i <= |log|
    ensures Fold(f, log, base, i) == Fold(g, log, base, i)
    ensures Late(f, log, base, first, i) == Late(g, log, base, first, i)
  {
    if i > 0 {
      SameService(f, g, log, base, first, i - 1);
    }
  }

  /** They are what the stream has beyond `first`. */
  lemma {:induction false} LateIsSuffix<M, O, T>(f: Service<M, O, T>, log: seq<O>, base: nat, first: nat, i: nat)
    requires base <= first <= i <= |log|
    ensures Stream(f, log, base, i) == Stream(f, log, base, first) + Late(f, log, base, first, i)
  {
    if i > first {
      LateIsSuffix(f, log, base, first, i - 1);
      Assoc(Stream(f, log, base, first), Late(f, log, base, first, i - 1), Results(f, log, base, i - 1));
    } else {
      assert Stream(f, log, base, i) + [] == Stream(f, log, base, i);
    }
  }

  /** A leader that finished all records up to `i` has published them from its first record on. */
  lemma LateIsSegment<M, O, T>(f: Service<M, O, T>, log: seq<O>, id: nat, base: nat, first: nat, i: nat)
    requires base <= first <= i <= |log|
    ensures Segment(f, log, Tenure(id, base, first, i, 0)) == Late(f, log, base, first, i)
  {
    LateIsSuffix(f, log, base, first, i);
  }

  /** Records appended later do not change what came before them. */
  lemma {:induction false} PastIsFixed<M, O, T>(f: Service<M, O, T>, log: seq<O>, more: seq<O>, base: nat, i: nat)
    requires i <= |log|
    ensures Fold(f, log + more, base, i) == Fold(f, log, base, i)
    ensures Stream(f, log + more, base, i) == Stream(f, log, base, i)
  {
    if i > base {
      PastIsFixed(f, log, more, base, i - 1);
    }
  }

  lemma {:induction false} LateIsFixed<M, O, T>(f: Service<M, O, T>, log: seq<O>, more: seq<O>, base: nat, first: nat, i: nat)
    requires base <= first && i <= |log|
    ensures Late(f, log + more, base, first, i) == Late(f, log, base, first, i)
  {
    if i > first {
      LateIsFixed(f, log, more, base, first, i - 1);
      PastIsFixed(f, log, more, base, i - 1);
    }
  }

  predicate TenureOk<M, O, T>(f: Service<M, O, T>, log: seq<O>, t: Tenure) {
    && t.base <= t.first <= t.next <= |log|
    && (t.part > 0 ==> t.next < |log| && t.part <= |Results(f, log, t.base, t.next)|)
  }

  /** The positions in its replica's stream that a tenure published. */
  function SpanOf<M, O, T>(f: Service<M, O, T>, log: seq<O>, t: Tenure): Span
    requires TenureOk(f, log, t)
  {
    Span(|Stream(f, log, t.base, t.first)|, |Stream(f, log, t.base, t.next)| + t.part)
  }

  /** What a tenure published: a contiguous piece of its replica's stream, from a record boundary on. */
  function Segment<M, O, T>(f: Service<M, O, T>, log: seq<O>, t: Tenure): seq<T>
    requires TenureOk(f, log, t)
  {
    StreamPrefix(f, log, t.base, t.first, t.next);
    Stream(f, log, t.base, t.next)[|Stream(f, log, t.base, t.first)|..]
      + if t.part == 0 then [] else Results(f, log, t.base, t.next)[..t.part]
  }

  predicate TenuresOk<M, O, T>(f: Service<M, O, T>, log: seq<O>, tenures: seq<Tenure>) {
    forall i :: 0 <= i < |tenures| ==> TenureOk(f, log, tenures[i])
  }

  /** The segments of all tenures, one after the other. */
  function Published<M, O, T>(f: Service<M, O, T>, log: seq<O>, tenures: seq<Tenure>): seq<T>
    requires TenuresOk(f, log, tenures)
  {
    if tenures == [] then [] else
      Published(f, log, tenures[..|tenures| - 1]) + Segment(f, log, tenures[|tenures| - 1])
  }

  /** How many records of the log the replica has got through. */
  function Applied<M, O, T>(r: Replica<M, O, T>): int {
    if r.phase.Popped? || r.phase.Decided? then r.offset - 1 else r.offset
  }

  ghost predicate ReplicaOk<M, O, T>(f: Service<M, O, T>, log: seq<O>, r: Replica<M, O, T>) {
    && r.base <= Applied(r) <= r.offset <= |log|
    && r.engines == Fold(f, log, r.base, Applied(r))
    && (r.phase.Popped? || r.phase.Decided? ==> r.phase.order == log[r.offset - 1])
    && (r.phase.Publishing? ==> r.active && r.base < r.offset)
    && (r.phase.Booting? ==> !r.active)
  }

  ghost predicate LeaderOk<M, O, T>(f: Service<M, O, T>, log: seq<O>, id: nat, r: Replica<M, O, T>, t: Tenure) {
    && t.id == id && t.base == r.base && TenureOk(f, log, t)
    && match r.phase
       case Booting => false
       case Ready => t.next == r.offset && t.part == 0
       case Popped(_) => t.next == r.offset - 1 && t.part == 0
       case Decided(_) => t.next == r.offset - 1 && t.part == 0
       case Publishing(p) =>
         && t.next == r.offset - 1 && t.next < |log|
         && t.part <= |Results(f, log, t.base, t.next)| && p == Results(f, log, t.base, t.next)[t.part..]
  }

  ghost predicate ReplicasOk<M, O, T>(f: Service<M, O, T>, log: seq<O>, replicas: map<nat, Replica<M, O, T>>, lock: Option<nat>) {
    forall id :: id in replicas ==> ReplicaOk(f, log, replicas[id]) && (replicas[id].active <==> lock == Some(id))
  }

  ghost predicate TopicOk<M, O, T>(f: Service<M, O, T>, log: seq<O>, topic: seq<T>, tenures: seq<Tenure>) {
    TenuresOk(f, log, tenures) && topic == Published(f, log, tenures)
  }

  ghost predicate LockOk<M, O, T>(f: Service<M, O, T>, s: State<M, O, T>) {
    s.lock.Some? ==>
      && s.lock.value in s.replicas && s.tenures != []
      && LeaderOk(f, s.log, s.lock.value, s.replicas[s.lock.value], LastTenure(s.tenures))
  }

  ghost predicate Inv<M, O, T>(f: Service<M, O, T>, s: State<M, O, T>) {
    ReplicasOk(f, s.log, s.replicas, s.lock) && TopicOk(f, s.log, s.topic, s.tenures) && LockOk(f, s)
  }

  lemma SegmentSame<M, O, T>(f: Service<M, O, T>, log: seq<O>, o: O, t: Tenure)
    requires TenureOk(f, log, t)
    ensures TenureOk(f, log + [o], t) && Segment(f, log + [o], t) == Segment(f, log, t)
  {
    PastIsFixed(f, log, [o], t.base, t.first);
    PastIsFixed(f, log, [o], t.base, t.next);
  }

  lemma {:induction false} PublishedSame<M, O, T>(f: Service<M, O, T>, log: seq<O>, o: O, tenures: seq<Tenure>)
    requires TenuresOk(f, log, tenures)
    ensures TenuresOk(f, log + [o], tenures) && Published(f, log + [o], tenures) == Published(f, log, tenures)
  {
    forall i | 0 <= i < |tenures| ensures TenureOk(f, log + [o], tenures[i]) {
      SegmentSame(f, log, o, tenures[i]);
    }
    if tenures != [] {
      PublishedSame(f, log, o, tenures[..|tenures| - 1]);
      SegmentSame(f, log, o, tenures[|tenures| - 1]);
    }
  }

  lemma AppendInv<M, O, T>(f: Service<M, O, T>, s: State<M, O, T>, o: O)
    requires Inv(f, s)
    ensures Inv(f, Next(f, s, Append(o)))
  {
    var log' := s.log + [o];
    PublishedSame(f, s.log, o, s.tenures);
    forall id | id in s.replicas ensures ReplicaOk(f, log', s.replicas[id]) {
      var r := s.replicas[id];
      PastIsFixed(f, s.log, [o], r.base, Applied(r));
    }
    if s.lock.Some? {
      LeaderSame(f, s.log, o, s.lock.value, s.replicas[s.lock.value], LastTenure(s.tenures));
    }
  }

  lemma LeaderSame<M, O, T>(f: Service<M, O, T>, log: seq<O>, o: O, id: nat, r: Replica<M, O, T>, t: Tenure)
    requires LeaderOk(f, log, id, r, t)
    ensures LeaderOk(f, log + [o], id, r, t)
  {
    SegmentSame(f, log, o, t);
    PastIsFixed(f, log, [o], t.base, t.next);
  }

  lemma LaunchInv<M, O, T>(f: Service<M, O, T>, s: State<M, O, T>, id: nat, base: nat)
    requires Inv(f, s)
    ensures Inv(f, Next(f, s, Launch(id, base)))
  {
  }

  /** A step that changes one replica only, and no tenure. */
  lemma PutInv<M, O, T>(f: Service<M, O, T>, s: State<M, O, T>, id: nat, r: Replica<M, O, T>)
    requires Inv(f, s) && ReplicaOk(f, s.log, r) && (r.active <==> s.lock == Some(id))
    requires s.lock == Some(id) ==> s.tenures != [] && LeaderOk(f, s.log, id, r, LastTenure(s.tenures))
    ensures Inv(f, Put(s, id, r))
  {
  }

  lemma AcquireInv<M, O, T>(f: Service<M, O, T>, s: State<M, O, T>, id: nat, r: Replica<M, O, T>, first: nat, phase: Phase<O, T>)
    requires Inv(f, s) && id in s.replicas && r == s.replicas[id]
    requires ReplicaOk(f, s.log, r.(phase := phase)) && !phase.Booting? && !phase.Publishing?
    requires first == Applied(r.(phase := phase))
    requires s.lock == Some(id) ==> LeaderOk(f, s.log, id, r.(phase := phase), LastTenure(s.tenures))
    ensures Inv(f, TryAcquire(s, id, r, first, phase))
  {
    if r.active || s.lock.Some? {
      PutInv(f, s, id, r.(phase := phase));
    } else {
      OpenTenure(f, s.log, s.topic, s.tenures, Tenure(id, r.base, first, first, 0));
      NewHolder(f, s.log, s.replicas, id, r.(active := true, phase := phase));
    }
  }

  lemma OpenTenure<M, O, T>(f: Service<M, O, T>, log: seq<O>, topic: seq<T>, tenures: seq<Tenure>, t: Tenure)
    requires TopicOk(f, log, topic, tenures) && t.base <= t.first == t.next <= |log| && t.part == 0
    ensures TopicOk(f, log, topic, tenures + [t])
  {
  }

  lemma NewHolder<M, O, T>(f: Service<M, O, T>, log: seq<O>, replicas: map<nat, Replica<M, O, T>>, id: nat, r: Replica<M, O, T>)
    requires ReplicasOk(f, log, replicas, None) && ReplicaOk(f, log, r) && r.active
    ensures ReplicasOk(f, log, replicas[id := r], Some(id))
  {
  }

  lemma MemberOk<M, O, T>(f: Service<M, O, T>, s: State<M, O, T>, id: nat)
    requires Inv(f, s) && id in s.replicas
    ensures ReplicaOk(f, s.log, s.replicas[id]) && (s.replicas[id].active <==> s.lock == Some(id))
    ensures s.lock == Some(id) ==> s.tenures != [] && LeaderOk(f, s.log, id, s.replicas[id], LastTenure(s.tenures))
  {
  }

  lemma BootInv<M, O, T>(f: Service<M, O, T>, s: State<M, O, T>, id: nat)
    requires Inv(f, s) && id in s.replicas
    ensures Inv(f, Next(f, s, Boot(id)))
  {
    var r := s.replicas[id];
    if r.phase.Booting? {
      MemberOk(f, s, id);
      AcquireInv(f, s, id, r, r.offset, Ready);
      assert Next(f, s, Boot(id)) == TryAcquire(s, id, r, r.offset, Ready);
    }
  }

  /** Leading on is as good after the decision as before. */
  lemma DecidedOk<M, O, T>(f: Service<M, O, T>, log: seq<O>, r: Replica<M, O, T>, id: nat, t: Tenure)
    requires ReplicaOk(f, log, r) && r.phase.Popped?
    ensures ReplicaOk(f, log, r.(phase := Decided(r.phase.order)))
    ensures LeaderOk(f, log, id, r, t) ==> LeaderOk(f, log, id, r.(phase := Decided(r.phase.order)), t)
  {
  }

  lemma PromotedInv<M, O, T>(f: Service<M, O, T>, s: State<M, O, T>, id: nat)
    requires Inv(f, s) && id in s.replicas && s.replicas[id].phase.Popped?
    ensures var r := s.replicas[id];
      r.offset > 0 && Inv(f, TryAcquire(s, id, r, r.offset - 1, Decided(r.phase.order)))
  {
    var r := s.replicas[id];
    MemberOk(f, s, id);
    DecidedOk(f, s.log, r, id, if s.tenures == [] then Tenure(id, 0, 0, 0, 0) else LastTenure(s.tenures));
    AcquireInv(f, s, id, r, r.offset - 1, Decided(r.phase.order));
  }

  lemma PromoteInv<M, O, T>(f: Service<M, O, T>, s: State<M, O, T>, id: nat)
    requires Inv(f, s) && id in s.replicas
    ensures Inv(f, Next(f, s, Promote(id)))
  {
    if s.replicas[id].phase.Popped? {
      PromotedInv(f, s, id);
      PromoteStep(f, s, id);
    }
  }

  lemma PromoteStep<M, O, T>(f: Service<M, O, T>, s: State<M, O, T>, id: nat)
    requires id in s.replicas && s.replicas[id].phase.Popped? && s.replicas[id].offset > 0
    ensures var r := s.replicas[id];
      Next(f, s, Promote(id)) == TryAcquire(s, id, r, r.offset - 1, Decided(r.phase.order))
  {
  }

  lemma PopInv<M, O, T>(f: Service<M, O, T>, s: State<M, O, T>, id: nat)
    requires Inv(f, s) && id in s.replicas
    ensures Inv(f, Next(f, s, Pop(id)))
  {
    var r := s.replicas[id];
    if r.phase.Ready? && r.offset < |s.log| {
      MemberOk(f, s, id);
      var r' := r.(offset := r.offset + 1, phase := Popped(s.log[r.offset]));
      PutInv(f, s, id, r');
      assert Next(f, s, Pop(id)) == Put(s, id, r');
    }
  }

  /** The replica after submitting the record it popped. */
  function Submitted<M, O, T>(f: Service<M, O, T>, r: Replica<M, O, T>): Replica<M, O, T>
    requires r.phase.Decided?
  {
    var (engines, results) := f.serve(r.engines, r.phase.order);
    r.(engines := engines, phase := if r.active then Publishing(results) else Ready)
  }

  lemma SubmittedOk<M, O, T>(f: Service<M, O, T>, log: seq<O>, r: Replica<M, O, T>)
    requires ReplicaOk(f, log, r) && r.phase.Decided?
    ensures ReplicaOk(f, log, Submitted(f, r))
    ensures r.active ==> Submitted(f, r).phase == Publishing(Results(f, log, r.base, r.offset - 1))
  {
  }

  lemma SubmitInv<M, O, T>(f: Service<M, O, T>, s: State<M, O, T>, id: nat)
    requires Inv(f, s) && id in s.replicas
    ensures Inv(f, Next(f, s, Submit(id)))
  {
    var r := s.replicas[id];
    if r.phase.Decided? {
      MemberOk(f, s, id);
      SubmittedOk(f, s.log, r);
      if r.active {
        var all := Results(f, s.log, r.base, r.offset - 1);
        assert all[0..] == all;
        assert LeaderOk(f, s.log, id, Submitted(f, r), LastTenure(s.tenures));
      }
      PutInv(f, s, id, Submitted(f, r));
      assert Next(f, s, Submit(id)) == Put(s, id, Submitted(f, r));
    }
  }

  lemma DieInv<M, O, T>(f: Service<M, O, T>, s: State<M, O, T>, id: nat)
    requires Inv(f, s) && id in s.replicas
    ensures Inv(f, Next(f, s, Die(id)))
  {
  }

  /** Only the last tenure changes. */
  lemma ReplaceLast<M, O, T>(f: Service<M, O, T>, log: seq<O>, topic: seq<T>, tenures: seq<Tenure>, t: Tenure, more: seq<T>)
    requires TopicOk(f, log, topic, tenures) && tenures != [] && TenureOk(f, log, t)
    requires Segment(f, log, t) == Segment(f, log, LastTenure(tenures)) + more
    ensures TopicOk(f, log, topic + more, WithLast(tenures, t))
  {
  }

  lemma MoveLast<M, O, T>(f: Service<M, O, T>, log: seq<O>, topic: seq<T>, tenures: seq<Tenure>, t: Tenure)
    requires TopicOk(f, log, topic, tenures) && tenures != [] && TenureOk(f, log, t)
    requires Segment(f, log, t) == Segment(f, log, LastTenure(tenures))
    ensures TopicOk(f, log, topic, WithLast(tenures, t))
  {
  }

  lemma FinishRecord<M, O, T>(f: Service<M, O, T>, log: seq<O>, t: Tenure)
    requires TenureOk(f, log, t) && t.next < |log| && t.part == |Results(f, log, t.base, t.next)|
    ensures var t' := t.(next := t.next + 1, part := 0);
      TenureOk(f, log, t') && Segment(f, log, t') == Segment(f, log, t)
  {
    StreamPrefix(f, log, t.base, t.first, t.next);
    var all := Results(f, log, t.base, t.next);
    assert all[..t.part] == all;
    assert t.part == 0 ==> all == [];
  }

  /** A step of the leader that also publishes or moves its tenure on. */
  lemma LeadInv<M, O, T>(f: Service<M, O, T>, s: State<M, O, T>, id: nat, r: Replica<M, O, T>, topic: seq<T>, tenures: seq<Tenure>)
    requires Inv(f, s) && s.lock == Some(id) && ReplicaOk(f, s.log, r) && r.active
    requires TopicOk(f, s.log, topic, tenures) && tenures != [] && LeaderOk(f, s.log, id, r, LastTenure(tenures))
    ensures Inv(f, Put(s, id, r).(topic := topic, tenures := tenures))
  {
  }

  lemma AfterPublish<M, O, T>(f: Service<M, O, T>, log: seq<O>, id: nat, r: Replica<M, O, T>, t: Tenure)
    requires ReplicaOk(f, log, r) && LeaderOk(f, log, id, r, t) && r.phase.Publishing? && r.phase.pending != []
    ensures var r', t' := r.(phase := Publishing(r.phase.pending[1..])), t.(part := t.part + 1);
      && ReplicaOk(f, log, r') && LeaderOk(f, log, id, r', t')
      && Segment(f, log, t') == Segment(f, log, t) + [r.phase.pending[0]]
  {
  }

  lemma PublishedOneInv<M, O, T>(f: Service<M, O, T>, s: State<M, O, T>, id: nat)
    requires Inv(f, s) && id in s.replicas && s.tenures != []
    requires s.replicas[id].phase.Publishing? && s.replicas[id].phase.pending != []
    ensures Inv(f, PublishedOne(s, id, s.replicas[id]))
  {
    var r, t := s.replicas[id], LastTenure(s.tenures);
    var p := r.phase.pending;
    var r', t' := r.(phase := Publishing(p[1..])), t.(part := t.part + 1);
    var topic, tenures := s.topic + [p[0]], WithLast(s.tenures, t');
    assert PublishedOne(s, id, r) == Put(s, id, r').(topic := topic, tenures := tenures);
    MemberOk(f, s, id);
    AfterPublish(f, s.log, id, r, t);
    ReplaceLast(f, s.log, s.topic, s.tenures, t', [p[0]]);
    LeadInv(f, s, id, r', topic, tenures);
  }

  lemma PublishInv<M, O, T>(f: Service<M, O, T>, s: State<M, O, T>, id: nat)
    requires Inv(f, s) && id in s.replicas
    ensures Inv(f, Next(f, s, Publish(id)))
  {
    var r := s.replicas[id];
    if r.phase.Publishing? && r.phase.pending != [] && s.tenures != [] {
      PublishedOneInv(f, s, id);
      PublishStep(f, s, id);
    }
  }

  lemma PublishStep<M, O, T>(f: Service<M, O, T>, s: State<M, O, T>, id: nat)
    requires id in s.replicas && s.replicas[id].phase.Publishing? && s.replicas[id].phase.pending != [] && s.tenures != []
    ensures Next(f, s, Publish(id)) == PublishedOne(s, id, s.replicas[id])
  {
  }

  lemma AfterFinish<M, O, T>(f: Service<M, O, T>, log: seq<O>, id: nat, r: Replica<M, O, T>, t: Tenure)
    requires ReplicaOk(f, log, r) && LeaderOk(f, log, id, r, t) && r.phase.Publishing? && r.phase.pending == []
    ensures var r', t' := r.(phase := Ready), t.(next := t.next + 1, part := 0);
      && ReplicaOk(f, log, r') && LeaderOk(f, log, id, r', t')
      && Segment(f, log, t') == Segment(f, log, t)
  {
    FinishRecord(f, log, t);
  }

  lemma FinishedInv<M, O, T>(f: Service<M, O, T>, s: State<M, O, T>, id: nat)
    requires Inv(f, s) && id in s.replicas && s.replicas[id].phase == Publishing([]) && s.tenures != []
    ensures Inv(f, Finished(s, id, s.replicas[id]))
  {
    var r, t := s.replicas[id], LastTenure(s.tenures);
    var t' := t.(next := t.next + 1, part := 0);
    assert Finished(s, id, r) == Put(s, id, r.(phase := Ready)).(topic := s.topic, tenures := WithLast(s.tenures, t'));
    MemberOk(f, s, id);
    AfterFinish(f, s.log, id, r, t);
    MoveLast(f, s.log, s.topic, s.tenures, t');
    LeadInv(f, s, id, r.(phase := Ready), s.topic, WithLast(s.tenures, t'));
  }

  lemma FinishInv<M, O, T>(f: Service<M, O, T>, s: State<M, O, T>, id: nat)
    requires Inv(f, s) && id in s.replicas
    ensures Inv(f, Next(f, s, Finish(id)))
  {
    if s.replicas[id].phase == Publishing([]) && s.tenures != [] {
      FinishedInv(f, s, id);
      FinishStep(f, s, id);
    }
  }

  lemma FinishStep<M, O, T>(f: Service<M, O, T>, s: State<M, O, T>, id: nat)
    requires id in s.replicas && s.replicas[id].phase == Publishing([]) && s.tenures != []
    ensures Next(f, s, Finish(id)) == Finished(s, id, s.replicas[id])
  {
  }

  lemma NextInv<M, O, T>(f: Service<M, O, T>, s: State<M, O, T>, a: Action<O>)
    requires Inv(f, s)
    ensures Inv(f, Next(f, s, a))
  {
    match a {
      case Append(o) => AppendInv(f, s, o);
      case Launch(id, base) => LaunchInv(f, s, id, base);
      case Boot(id) => if id in s.replicas { BootInv(f, s, id); }
      case Pop(id) => if id in s.replicas { PopInv(f, s, id); }
      case Promote(id) => if id in s.replicas { PromoteInv(f, s, id); }
      case Submit(id) => if id in s.replicas { SubmitInv(f, s, id); }
      case Publish(id) => if id in s.replicas { PublishInv(f, s, id); }
      case Finish(id) => if id in s.replicas { FinishInv(f, s, id); }
      case Die(id) => if id in s.replicas { DieInv(f, s, id); }
    }
  }

  lemma {:induction false} ExecInv<M, O, T>(f: Service<M, O, T>, s: State<M, O, T>, actions: seq<Action<O>>)
    requires Inv(f, s)
    ensures Inv(f, Exec(f, s, actions))
  {
    if actions != [] {
      ExecInv(f, s, actions[..|actions| - 1]);
      NextInv(f, Exec(f, s, actions[..|actions| - 1]), actions[|actions| - 1]);
    }
  }

  lemma AlwaysInv<M, O, T>(f: Service<M, O, T>, actions: seq<Action<O>>)
    ensures Inv(f, Exec(f, Initial(), actions))
  {
    ExecInv(f, Initial(), actions);
  }

  /**
   In every run at most one replica is active, and the topic is the tenures' segments one after the
   other, each a contiguous piece of its replica's stream that starts at a record boundary.
   */
  lemma OneLeaderPublishes<M, O, T>(f: Service<M, O, T>, actions: seq<Action<O>>)
    ensures var s := Exec(f, Initial(), actions);
      && (forall i, j :: i in s.replicas && j in s.replicas && s.replicas[i].active && s.replicas[j].active ==> i == j)
      && TenuresOk(f, s.log, s.tenures) && s.topic == Published(f, s.log, s.tenures)
  {
    AlwaysInv(f, actions);
  }

  /** Replicas that started at the same offset and got equally far are in the same state. */
  lemma ReplicasAgree<M, O, T>(f: Service<M, O, T>, actions: seq<Action<O>>, i: nat, j: nat)
    ensures var s := Exec(f, Initial(), actions);
      (&& i in s.replicas && j in s.replicas && s.replicas[i].base == s.replicas[j].base
       && Applied(s.replicas[i]) == Applied(s.replicas[j])) ==> s.replicas[i].engines == s.replicas[j].engines
  {
    AlwaysInv(f, actions);
  }
}
