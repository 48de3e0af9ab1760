/**
 One engine process (engine_main.cpp): the consumer loop over its shard's log, with the matching engines
 of its symbols, the leader lock of its shard and the topic it publishes to.
 */
module EngineProcesses {
  import opened Sequences
  import opened Orders
  import opened Shard
  import opened LogCursor
  import opened ShardLeaderLocks
  import opened EngineTables
  import ShardFailover
  import opened Failover

  /** The first record from `base` on, before `n`, at which no other process holds the lock; `n` if none. */
  function FirstFree(others: nat -> Option<nat>, base: nat, n: nat): (first: nat)
    requires base <= n
    ensures base <= first <= n && (first < n ==> others(first).None?)
    ensures forall i :: base <= i < first ==> others(i).Some?
  {
    if base == n then n else
      var first := FirstFree(others, base, n - 1);
      if first == n - 1 && others(first).Some? then n else first
  }

  /** A service that does with each record what `try_emplace` and `submit_order` do. */
  ghost predicate Implements(f: Service<EngineMap, Order, Trade>) {
    f.init == map[] && forall m, o {:trigger Serve(m, o)} :: f.serve(m, o) == Serve(m, o)
  }

  type ShardService = f: Service<EngineMap, Order, Trade> | Implements(f) ghost witness ShardFailover.Trading()

  /** Such a service computes and publishes what the matching engines do. */
  lemma ServesTheShard(f: ShardService, log: seq<Order>, base: nat, first: nat, i: nat)
    requires base <= first && i <= |log|
    ensures Fold(f, log, base, i) == Fold(ShardFailover.Trading(), log, base, i)
    ensures Late(f, log, base, first, i) == Late(ShardFailover.Trading(), log, base, first, i)
  {
    forall m, o ensures f.serve(m, o) == ShardFailover.Trading().serve(m, o) {
      assert f.serve(m, o) == Serve(m, o);
    }
    SameService(f, ShardFailover.Trading(), log, base, first, i);
  }

  /** What a process that was leader or not at record `base`, and the topic, have become by record `n`. */
  ghost predicate Consumed<M, O, T>(f: Service<M, O, T>, log: seq<O>, base: nat, n: nat, others: nat -> Option<nat>,
                                    active: bool, topic: seq<T>, active': bool, topic': seq<T>, engines: M)
    requires base <= n <= |log|
  {
    var first := if active then base else FirstFree(others, base, n);
    && engines == Fold(f, log, base, n)
    && topic' == topic + Late(f, log, base, first, n)
    && (active' <==> active || first < n)
  }

  lemma ConsumedNone<M, O, T>(f: Service<M, O, T>, log: seq<O>, base: nat, others: nat -> Option<nat>,
                              active: bool, topic: seq<T>)
    requires base <= |log|
    ensures Consumed(f, log, base, base, others, active, topic, active, topic, f.init)
  {
  }

  /** One record, with the lock free or not. */
  ghost predicate Stepped<M, O, T>(f: Service<M, O, T>, o: O, free: bool, active: bool, topic: seq<T>, engines: M,
                                   active': bool, topic': seq<T>, engines': M)
  {
    && engines' == f.serve(engines, o).0
    && (active' <==> active || free)
    && topic' == if active' then topic + f.serve(engines, o).1 else topic
  }

  lemma ConsumedNext<M, O, T>(f: Service<M, O, T>, log: seq<O>, base: nat, n: nat, others: nat -> Option<nat>,
                              active: bool, topic: seq<T>, active1: bool, topic1: seq<T>, engines1: M,
                              active2: bool, topic2: seq<T>, engines2: M)
    requires base <= n < |log| && Consumed(f, log, base, n, others, active, topic, active1, topic1, engines1)
    requires Stepped(f, log[n], others(n).None?, active1, topic1, engines1, active2, topic2, engines2)
    ensures Consumed(f, log, base, n + 1, others, active, topic, active2, topic2, engines2)
  {
  }

  /** Records appended meanwhile change nothing of that. */
  lemma ConsumedGrows<M, O, T>(f: Service<M, O, T>, log: seq<O>, more: seq<O>, base: nat, n: nat, others: nat -> Option<nat>,
                               active: bool, topic: seq<T>, active1: bool, topic1: seq<T>, engines1: M)
    requires base <= n <= |log| && Consumed(f, log, base, n, others, active, topic, active1, topic1, engines1)
    ensures Consumed(f, log + more, base, n, others, active, topic, active1, topic1, engines1)
  {
    PastIsFixed(f, log, more, base, n);
    LateIsFixed(f, log, more, base, if active then base else FirstFree(others, base, n), n);
  }

  /** What the leader publishes while this process is a standby comes before all that this one publishes. */
  lemma ConsumedAfter<M, O, T>(f: Service<M, O, T>, log: seq<O>, base: nat, n: nat, others: nat -> Option<nat>,
                               active: bool, topic: seq<T>, topic1: seq<T>, engines1: M, theirs: seq<T>)
    requires base <= n <= |log| && Consumed(f, log, base, n, others, active, topic, false, topic1, engines1)
    ensures Consumed(f, log, base, n, others, active, topic + theirs, false, topic1 + theirs, engines1)
  {
    assert topic1 == topic + [] == topic;
    assert topic + theirs == topic + theirs + [];
  }

  lemma ConsumedTurn<M, O, T>(f: Service<M, O, T>, log: seq<O>, more: seq<O>, base: nat, n: nat, n': nat, others: nat -> Option<nat>,
                              active: bool, topic: seq<T>, active1: bool, topic1: seq<T>, engines1: M,
                              active2: bool, topic2: seq<T>, engines2: M)
    requires base <= n <= |log| && Consumed(f, log, base, n, others, active, topic, active1, topic1, engines1)
    requires n >= |log + more| ==> n' == n && active2 == active1 && topic2 == topic1 && engines2 == engines1
    requires n < |log + more| ==>
      n' == n + 1 && Stepped(f, (log + more)[n], others(n).None?, active1, topic1, engines1, active2, topic2, engines2)
    ensures n <= n' <= |log + more| && Consumed(f, log + more, base, n', others, active, topic, active2, topic2, engines2)
  {
    ConsumedGrows(f, log, more, base, n, others, active, topic, active1, topic1, engines1);
    if n < |log + more| {
      ConsumedNext(f, log + more, base, n, others, active, topic, active1, topic1, engines1, active2, topic2, engines2);
    }
  }

  /** What comes in before turn `turn`, of `batches` by turn. */
  function At<T>(batches: seq<seq<T>>, turn: nat): seq<T> {
    if turn < |batches| then batches[turn] else []
  }

  /** What came in before the first `turns` turns. */
  function Before<T>(batches: seq<seq<T>>, turns: nat): seq<T> {
    Joined(if turns < |batches| then batches[..turns] else batches)
  }

  lemma BeforeNext<T>(start: seq<T>, batches: seq<seq<T>>, turns: nat)
    ensures start + Before(batches, turns) + At(batches, turns) == start + Before(batches, turns + 1)
  {
    if turns < |batches| {
      assert batches[..turns + 1][..turns] == batches[..turns];
      assert batches[..|batches|] == batches;
      Assoc(start, Joined(batches[..turns]), batches[turns]);
    }
  }

  lemma NothingYet<T>(start: seq<T>, batches: seq<seq<T>>)
    ensures start + Before(batches, 0) == start
  {
    assert |batches| > 0 ==> batches[..0] == [];
  }

  /** Of `turns` turns a process began exactly the first `standby` as a standby. */
  predicate Stood(before: bool, after: bool, standby: nat, turns: nat) {
    && standby <= turns
    && (before ==> after && standby == 0)
    && (!after ==> standby == turns)
    && (!before && after ==> standby > 0)
  }

  /** How many turns are left in which something may be appended or the signal may come. */
  function Left(turns: nat, appended: nat, stop: nat): nat {
    var last := if appended < stop then stop else appended;
    if turns <= last then last + 1 - turns else 0
  }

  class EngineProcess {
    ghost const service: ShardService
    const leader: ShardLeaderLock
    const topic: LogFile<Trade>
    const table: EngineTable
    var active: bool

    ghost predicate Valid()
      reads this, leader, leader.file, table, table.parts
    {
      leader.Valid() && active == leader.held && table.Valid() && {this, leader, leader.file, topic} !! table.parts
    }

    /** Startup: one try for the lock, no engines. */
    constructor (leader: ShardLeaderLock, topic: LogFile<Trade>)
      requires leader.Valid()
      modifies leader`held, leader.file
      ensures Valid() && this.leader == leader && this.topic == topic && service == ShardFailover.Trading()
      ensures fresh(table) && fresh(table.parts) && table.view == service.init
      ensures active <==> old(leader.file.holder) in {None, Some(leader.fd)}
      ensures leader.file.holder == if active then Some(leader.fd) else old(leader.file.holder)
    {
      this.leader := leader;
      this.topic := topic;
      service := ShardFailover.Trading();
      table := new EngineTable();
      var acquired := leader.TryAcquire();
      active := acquired;
    }

    /** A standby tries the lock before every record. */
    method TryPromote()
      requires leader.Valid() && active == leader.held
      modifies this`active, leader`held, leader.file
      ensures leader.Valid() && active == leader.held
      ensures active <==> old(leader.file.holder) in {None, Some(leader.fd)}
      ensures leader.file.holder == if active then Some(leader.fd) else old(leader.file.holder)
    {
      if !active {
        active := leader.TryAcquire();
      }
    }

    method Publish(trades: seq<Trade>)
      modifies topic
      ensures topic.records == old(topic.records) + trades
    {
      for i := 0 to |trades|
        invariant topic.records == old(topic.records) + trades[..i]
      {
        topic.Push(trades[i]);
      }
    }

    /** Every replica applies every record; the leader publishes what comes of it. */
    method Apply(o: Order)
      requires table.Valid() && topic !in table.parts
      modifies topic, table, table.parts
      ensures table.Valid() && fresh(table.parts - old(table.parts))
      ensures table.view == service.serve(old(table.view), o).0
      ensures topic.records == if active then old(topic.records) + service.serve(old(table.view), o).1 else old(topic.records)
    {
      var trades := table.Serve(o);
      if active {
        Publish(trades);
      }
    }

    /** The loop body after `pop`. */
    method Handle(o: Order)
      requires Valid()
      modifies this, leader`held, leader.file, topic, table, table.parts
      ensures Valid() && fresh(table.parts - old(table.parts))
      ensures active <==> old(leader.file.holder) in {None, Some(leader.fd)}
      ensures leader.file.holder == if active then Some(leader.fd) else old(leader.file.holder)
      ensures table.view == service.serve(old(table.view), o).0
      ensures topic.records == if active then old(topic.records) + service.serve(old(table.view), o).1 else old(topic.records)
    {
      TryPromote();
      Apply(o);
    }

    /** Only the holder of the lock publishes, so others have published only while this process is a standby. */
    ghost function Topic(theirs: seq<Trade>): seq<Trade>
      reads this, topic
    {
      if active then topic.records else topic.records + theirs
    }

    method Meanwhile(reader: LogReader<Order>, more: seq<Order>, theirs: seq<Trade>, others: Option<nat>, stop: bool)
      requires Valid() && others != Some(leader.fd)
      requires reader.log as object != topic && {reader, reader.log} !! table.parts
      modifies leader.file, topic, reader`done, reader.log
      ensures Valid() && reader.log.records == old(reader.log.records) + more && topic.records == old(Topic(theirs))
      ensures reader.done == (old(reader.done) || stop)
      ensures leader.file.holder == if active then Some(leader.fd) else others
    {
      reader.log.Meanwhile(more);
      if !active {
        topic.Meanwhile(theirs);
      }
      leader.file.Meanwhile(leader.fd, others);
      if stop {
        reader.Shutdown();
      }
    }

    /**
     One turn of the consumer loop. Since the last one, the other processes have appended `more` to the log
     and, unless this one leads, `theirs` to the topic; `others` is the one of them, if any, that holds the
     lock by now unless this one does, and `stop` says that the signal to shut down has come. The loop ends
     when `pop` is drained.
     */
    method Turn(reader: LogReader<Order>, more: seq<Order>, theirs: seq<Trade>, others: Option<nat>, stop: bool)
      returns (drained: bool)
      requires Valid() && others != Some(leader.fd)
      requires reader.log as object != topic && {reader, reader.log, reader.checkpoint} !! table.parts
      modifies this, leader`held, leader.file, topic, table, table.parts
      modifies reader`offset, reader`done, reader.checkpoint, reader.log
      ensures Valid() && fresh(table.parts - old(table.parts))
      ensures reader.log.records == old(reader.log.records) + more && reader.done == (old(reader.done) || stop)
      ensures drained <==> old(reader.offset) >= |reader.log.records| && reader.done
      ensures old(reader.offset) >= |reader.log.records| ==>
        unchanged(this, table) && topic.records == old(Topic(theirs)) && reader.offset == old(reader.offset)
      ensures old(reader.offset) < |reader.log.records| ==>
        && reader.offset == old(reader.offset) + 1
        && Stepped(service, reader.log.records[old(reader.offset)], others.None?,
                   old(active), old(Topic(theirs)), old(table.view), active, topic.records, table.view)
    {
      Meanwhile(reader, more, theirs, others, stop);
      var t := reader.Poll();
      if t.Got? {
        Handle(t.record);
      }
      return t.Drained?;
    }

    /** Such a turn of a process that was leader or not at record `base`, when the topic was `published`. */
    method Advance(reader: LogReader<Order>, more: seq<Order>, theirs: seq<Trade>, others: nat -> Option<nat>, stop: bool,
                   ghost base: nat, ghost led: bool, ghost published: seq<Trade>) returns (drained: bool)
      requires Valid() && others(reader.offset) != Some(leader.fd)
      requires reader.log as object != topic && {reader, reader.log, reader.checkpoint} !! table.parts
      requires base <= reader.offset <= |reader.log.records|
      requires Consumed(service, reader.log.records, base, reader.offset, others, led, published, active, topic.records, table.view)
      modifies this, leader`held, leader.file, topic, table, table.parts
      modifies reader`offset, reader`done, reader.checkpoint, reader.log
      ensures Valid() && fresh(table.parts - old(table.parts)) && (old(active) ==> active)
      ensures reader.log.records == old(reader.log.records) + more && reader.done == (old(reader.done) || stop)
      ensures old(reader.offset) <= reader.offset <= |reader.log.records|
      ensures drained ==> reader.done && reader.offset == |reader.log.records|
      ensures !drained && reader.done ==> old(reader.offset) < reader.offset
      ensures base <= reader.offset
      ensures Consumed(service, reader.log.records, base, reader.offset, others, led,
                       if old(active) then published else published + theirs, active, topic.records, table.view)
    {
      ghost var log, n, active1, engines1 := reader.log.records, reader.offset, active, table.view;
      ghost var topic1 := Topic(theirs);
      ghost var published1 := if active then published else published + theirs;
      if !active {
        ConsumedAfter(service, log, base, n, others, led, published, topic.records, engines1, theirs);
      }
      drained := Turn(reader, more, theirs, others(reader.offset), stop);
      ConsumedTurn(service, log, more, base, n, reader.offset, others, led, published1, active1, topic1, engines1,
                   active, topic.records, table.view);
    }

    /** Turn number `turns` of a loop that started at `base`, with the log `start` and the topic `published`. */
    method Round(reader: LogReader<Order>, appended: seq<seq<Order>>, theirs: seq<seq<Trade>>, others: nat -> Option<nat>,
                 stop: nat, turns: nat, standby: nat, ghost base: nat, ghost led: bool,
                 ghost start: seq<Order>, ghost published: seq<Trade>) returns (drained: bool, standby': nat)
      requires Valid() && others(reader.offset) != Some(leader.fd)
      requires reader.log as object != topic && {reader, reader.log, reader.checkpoint} !! table.parts
      requires Stood(led, active, standby, turns) && reader.log.records == start + Before(appended, turns)
      requires reader.done <==> stop < turns
      requires base <= reader.offset <= |reader.log.records|
      requires Consumed(service, reader.log.records, base, reader.offset, others, led,
                        published + Before(theirs, standby), active, topic.records, table.view)
      modifies this, leader`held, leader.file, topic, table, table.parts
      modifies reader`offset, reader`done, reader.checkpoint, reader.log
      ensures Valid() && fresh(table.parts - old(table.parts))
      ensures Stood(led, active, standby', turns + 1) && reader.log.records == start + Before(appended, turns + 1)
      ensures reader.done <==> stop <= turns
      ensures base <= old(reader.offset) <= reader.offset <= |reader.log.records|
      ensures drained ==> reader.done && reader.offset == |reader.log.records|
      ensures !drained && Left(turns, |appended|, stop) == 0 ==>
        |reader.log.records| - reader.offset < |old(reader.log.records)| - old(reader.offset)
      ensures Consumed(service, reader.log.records, base, reader.offset, others, led,
                       published + Before(theirs, standby'), active, topic.records, table.view)
    {
      BeforeNext(start, appended, turns);
      BeforeNext(published, theirs, standby);
      standby' := if active then standby else turns + 1;
      drained := Advance(reader, At(appended, turns), At(theirs, turns), others, turns >= stop,
                         base, led, published + Before(theirs, standby));
    }

    /** All turns until the loop ends; it began the first `standby` of them as a standby. */
    method TurnsUntilDrained(reader: LogReader<Order>, appended: seq<seq<Order>>, theirs: seq<seq<Trade>>,
                             others: nat -> Option<nat>, stop: nat) returns (turns: nat, standby: nat)
      requires Valid() && table.view == service.init && reader.offset <= |reader.log.records|
      requires !reader.done && forall i :: others(i) != Some(leader.fd)
      requires reader.log as object != topic && {reader, reader.log, reader.checkpoint} !! table.parts
      modifies this, leader`held, leader.file, topic, table, table.parts
      modifies reader`offset, reader`done, reader.checkpoint, reader.log
      ensures Valid() && stop < turns && Stood(old(active), active, standby, turns)
      ensures reader.log.records == old(reader.log.records) + Before(appended, turns)
      ensures old(reader.offset) <= reader.offset == |reader.log.records|
      ensures Consumed(service, reader.log.records, old(reader.offset), reader.offset, others, old(active),
                       old(topic.records) + Before(theirs, standby), active, topic.records, table.view)
    {
      ghost var base := reader.offset;
      NothingYet(topic.records, theirs);
      ConsumedNone(service, reader.log.records, base, others, active, topic.records);
      var drained := false;
      turns, standby := 0, 0;
      while !drained
        invariant Valid() && fresh(table.parts - old(table.parts))
        invariant Stood(old(active), active, standby, turns)
        invariant reader.log.records == old(reader.log.records) + Before(appended, turns)
        invariant reader.done <==> stop < turns
        invariant base <= reader.offset <= |reader.log.records|
        invariant Consumed(service, reader.log.records, base, reader.offset, others, old(active),
                           old(topic.records) + Before(theirs, standby), active, topic.records, table.view)
        invariant drained ==> reader.done && reader.offset == |reader.log.records|
        decreases !drained, Left(turns, |appended|, stop), |reader.log.records| - reader.offset
      {
        drained, standby := Round(reader, appended, theirs, others, stop, turns, standby,
                                  base, old(active), old(reader.log.records), old(topic.records));
        turns := turns + 1;
      }
    }

    /**
     The consumer loop, while before turn `k` the gateways append `appended[k]` to the log and the leader, if
     it is another process, `theirs[k]` to the topic, the signal to shut down comes at turn `stop`, and
     `others(i)` is the other process, if any, that holds the lock when record `i` is popped. It ends, after
     some number of turns, with the log read to its end. The process has replayed every record from its
     offset on, so its engines are those of a replica started there; it becomes leader at the first record
     at which the lock is free, if it is not leader yet, and publishes from there on, as one tenure, behind
     all that others published in its time as a standby.
     */
    method Consume(reader: LogReader<Order>, appended: seq<seq<Order>>, theirs: seq<seq<Trade>>,
                   others: nat -> Option<nat>, stop: nat) returns (turns: nat, standby: nat)
      requires Valid() && table.view == service.init && reader.offset <= |reader.log.records|
      requires !reader.done && forall i :: others(i) != Some(leader.fd)
      requires reader.log as object != topic && {reader, reader.log, reader.checkpoint} !! table.parts
      modifies this, leader`held, leader.file, topic, table, table.parts
      modifies reader`offset, reader`done, reader.checkpoint, reader.log
      ensures stop < turns && Stood(old(active), active, standby, turns)
      ensures reader.log.records == old(reader.log.records) + Before(appended, turns)
      ensures var log, base := reader.log.records, old(reader.offset);
        var first := if old(active) then base else FirstFree(others, base, |log|);
        && Valid() && reader.offset == |log|
        && table.view == Fold(service, log, base, |log|)
        && topic.records == old(topic.records) + Before(theirs, standby) + Late(service, log, base, first, |log|)
        && (active <==> old(active) || first < |log|)
    {
      turns, standby := TurnsUntilDrained(reader, appended, theirs, others, stop);
    }
  }
}
