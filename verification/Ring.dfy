/**
 The lock-free ring between one producer and one consumer (lockfree_order_queue.hpp), one step per
 atomic load, atomic store or slot access. The producer pushes the orders of `plan` one after the
 other and then shuts the queue down; the consumer pops and submits to a matching engine until `pop`
 returns false. A schedule says who steps when, so a claim for all schedules is a claim for all
 interleavings. Steps are sequentially consistent and counters do not wrap.
 */
module Ring {
  import opened Orders
  import opened RingCapacity
  import opened Exchange

  /** Where the producer is: inside `push`, between pushes, or past `shutdown`. */
  datatype Producer =
    | PReady
    | PLoaded(head: nat)   // has read head_, about to read tail_
    | PRoom(head: nat)     // has seen a free slot, about to write it
    | PWrote(head: nat)    // about to store head_
    | PFinished

  /** Where the consumer is: inside `pop`, submitting what it got, or past the last `pop`. */
  datatype Consumer =
    | CReady
    | CPolling(tail: nat)  // has read tail_, about to read head_
    | CEmpty(tail: nat)    // saw nothing, about to read done_
    | CRecheck(tail: nat)  // saw done_, about to read head_ again
    | CReading(tail: nat)  // about to read the slot
    | CHolding(tail: nat, order: Order)  // about to store tail_
    | CServing(order: Order)             // `pop` returned true
    | CStopped                           // `pop` returned false

  /** `buffer` has 2^k slots; `sent` counts completed pushes. */
  datatype State = State(
    k: nat, buffer: seq<Order>, head: nat, tail: nat, done: bool,
    producer: Producer, sent: nat,
    consumer: Consumer, received: seq<Order>, engine: Engine, trades: seq<Trade>)

  datatype Actor = TheProducer | TheConsumer

  ghost predicate Initial(s: State, k: nat, band: real) {
    && |s.buffer| == Pow2(k)
    && s == State(k, s.buffer, 0, 0, false, PReady, 0, CReady, [], Fresh(band), [])
  }

  function ProducerStep(plan: seq<Order>, s: State): State {
    match s.producer
    case PReady =>
      if s.sent < |plan| then s.(producer := PLoaded(s.head)) else s.(done := true, producer := PFinished)
    case PLoaded(h) =>
      if h - s.tail < Pow2(s.k) then s.(producer := PRoom(h)) else s
    case PRoom(h) =>
      if s.sent < |plan| && Slot(h, s.k) < |s.buffer|
      then s.(buffer := s.buffer[Slot(h, s.k) := plan[s.sent]], producer := PWrote(h))
      else s
    case PWrote(h) => s.(head := h + 1, sent := s.sent + 1, producer := PReady)
    case PFinished => s
  }

  function ConsumerStep(s: State): State {
    match s.consumer
    case CReady => s.(consumer := CPolling(s.tail))
    case CPolling(t) => s.(consumer := if t < s.head then CReading(t) else CEmpty(t))
    case CEmpty(t) => s.(consumer := if s.done then CRecheck(t) else CPolling(t))
    case CRecheck(t) => s.(consumer := if t < s.head then CReading(t) else CStopped)
    case CReading(t) =>
      if Slot(t, s.k) < |s.buffer| then s.(consumer := CHolding(t, s.buffer[Slot(t, s.k)])) else s
    case CHolding(t, o) => s.(tail := t + 1, received := s.received + [o], consumer := CServing(o))
    case CServing(o) =>
      var (e, trades) := Step(s.engine, SubmitOp(o));
      s.(engine := e, trades := s.trades + trades, consumer := CReady)
    case CStopped => s
  }

  function Next(plan: seq<Order>, s: State, a: Actor): State {
    if a == TheProducer then ProducerStep(plan, s) else ConsumerStep(s)
  }

  function Exec(plan: seq<Order>, s: State, schedule: seq<Actor>): State {
    if schedule == [] then s
    else Next(plan, Exec(plan, s, schedule[..|schedule| - 1]), schedule[|schedule| - 1])
  }

  /** How many received orders the engine has processed. */
  function Served(s: State): int {
    if s.consumer.CServing? then |s.received| - 1 else |s.received|
  }

  predicate ProducerInv(plan: seq<Order>, s: State) {
    && s.sent == s.head <= |plan|
    && (s.done ==> s.head == |plan| && s.producer == PFinished)
    && match s.producer
       case PReady => true
       case PLoaded(h) => h == s.head < |plan|
       case PRoom(h) => h == s.head < |plan| && s.head - s.tail < Pow2(s.k)
       case PWrote(h) => && h == s.head < |plan| && s.head - s.tail < Pow2(s.k)
                         && Slot(h, s.k) < |s.buffer| && s.buffer[Slot(h, s.k)] == plan[h]
       case PFinished => s.done
  }

  predicate ConsumerInv(plan: seq<Order>, s: State) {
    match s.consumer
    case CReady => true
    case CPolling(t) => t == s.tail
    case CEmpty(t) => t == s.tail
    case CRecheck(t) => t == s.tail && s.done
    case CReading(t) => t == s.tail < s.head
    case CHolding(t, o) => t == s.tail < s.head && t < |plan| && o == plan[t]
    case CServing(o) => s.received != [] && o == s.received[|s.received| - 1]
    case CStopped => s.done && s.tail == s.head
  }

  predicate BufferInv(plan: seq<Order>, s: State) {
    && |s.buffer| == Pow2(s.k)
    && s.tail <= s.head <= s.tail + Pow2(s.k)
    && s.head <= |plan|
    && forall i :: s.tail <= i < s.head ==> Slot(i, s.k) < |s.buffer| && s.buffer[Slot(i, s.k)] == plan[i]
  }

  predicate EngineInv(plan: seq<Order>, s: State, band: real) {
    && s.tail <= |plan| && s.received == plan[..s.tail]
    && 0 <= Served(s) && (s.engine, s.trades) == SubmitAll(Fresh(band), plan[..Served(s)])
  }

  predicate Inv(plan: seq<Order>, s: State, band: real) {
    BufferInv(plan, s) && ProducerInv(plan, s) && ConsumerInv(plan, s) && EngineInv(plan, s, band)
  }

  lemma ProducerKeepsBuffer(plan: seq<Order>, s: State)
    requires BufferInv(plan, s) && ProducerInv(plan, s)
    ensures BufferInv(plan, ProducerStep(plan, s)) && ProducerInv(plan, ProducerStep(plan, s))
  {
    match s.producer {
      case PRoom(h) =>
        SlotInRange(h, s.k);
        forall i | s.tail <= i < s.head ensures Slot(i, s.k) != Slot(h, s.k) {
          SlotsDiffer(i, h, s.k);
        }
      case _ =>
    }
  }

  /** The producer moves only the head, the buffer and the flag, and none of them back. */
  lemma ProducerKeepsConsumer(plan: seq<Order>, s: State)
    requires ProducerInv(plan, s) && ConsumerInv(plan, s)
    ensures ConsumerInv(plan, ProducerStep(plan, s))
  {
  }

  /** The engine is where the orders received bring it, whatever else changes. */
  lemma SameEngine(plan: seq<Order>, s: State, s': State, band: real)
    requires EngineInv(plan, s, band)
    requires s'.tail == s.tail && s'.received == s.received && s'.engine == s.engine && s'.trades == s.trades
    requires s'.consumer.CServing? <==> s.consumer.CServing?
    ensures EngineInv(plan, s', band)
  {
  }

  /** A step of the producer leaves alone what the consumer keeps. */
  lemma ProducerFrame(plan: seq<Order>, s: State)
    ensures var s' := ProducerStep(plan, s);
      s' == s.(head := s'.head, buffer := s'.buffer, done := s'.done, producer := s'.producer, sent := s'.sent)
  {
  }

  lemma ProducerKeepsEngine(plan: seq<Order>, s: State, band: real)
    requires EngineInv(plan, s, band)
    ensures EngineInv(plan, ProducerStep(plan, s), band)
  {
    ProducerFrame(plan, s);
    SameEngine(plan, s, ProducerStep(plan, s), band);
  }

  lemma ProducerKeeps(plan: seq<Order>, s: State, band: real)
    requires Inv(plan, s, band)
    ensures Inv(plan, ProducerStep(plan, s), band)
  {
    ProducerKeepsBuffer(plan, s);
    ProducerKeepsConsumer(plan, s);
    ProducerKeepsEngine(plan, s, band);
  }

  lemma ConsumerKeepsQueue(plan: seq<Order>, s: State)
    requires BufferInv(plan, s) && ProducerInv(plan, s) && ConsumerInv(plan, s)
    ensures var s' := ConsumerStep(s); BufferInv(plan, s') && ProducerInv(plan, s') && ConsumerInv(plan, s')
  {
  }

  lemma ServingKeepsEngine(plan: seq<Order>, s: State, band: real)
    requires s.consumer.CServing? && ConsumerInv(plan, s) && EngineInv(plan, s, band)
    ensures EngineInv(plan, ConsumerStep(s), band)
  {
    var n := Served(s);
    var o := s.consumer.order;
    assert o == plan[n] && plan[..n] + [o] == plan[..n + 1];
    SubmitAllSnoc(Fresh(band), plan[..n], o);
  }

  lemma HoldingKeepsEngine(plan: seq<Order>, s: State, band: real)
    requires s.consumer.CHolding? && ConsumerInv(plan, s) && EngineInv(plan, s, band)
    ensures EngineInv(plan, ConsumerStep(s), band)
  {
  }

  /** Every other step changes only where the consumer is. */
  lemma PollingStep(s: State)
    requires !s.consumer.CServing? && !s.consumer.CHolding?
    ensures var s' := ConsumerStep(s); s' == s.(consumer := s'.consumer) && !s'.consumer.CServing?
  {
  }

  lemma ConsumerKeeps(plan: seq<Order>, s: State, band: real)
    requires Inv(plan, s, band)
    ensures Inv(plan, ConsumerStep(s), band)
  {
    ConsumerKeepsQueue(plan, s);
    if s.consumer.CServing? {
      ServingKeepsEngine(plan, s, band);
    } else if s.consumer.CHolding? {
      HoldingKeepsEngine(plan, s, band);
    } else {
      PollingStep(s);
      SameEngine(plan, s, ConsumerStep(s), band);
    }
  }

  lemma NextKeeps(plan: seq<Order>, s: State, band: real, a: Actor)
    requires Inv(plan, s, band)
    ensures Inv(plan, Next(plan, s, a), band)
  {
    if a == TheProducer {
      ProducerKeeps(plan, s, band);
    } else {
      ConsumerKeeps(plan, s, band);
    }
  }

  lemma {:induction false} ExecKeeps(plan: seq<Order>, s: State, band: real, schedule: seq<Actor>)
    requires Inv(plan, s, band)
    ensures Inv(plan, Exec(plan, s, schedule), band)
  {
    if schedule != [] {
      ExecKeeps(plan, s, band, schedule[..|schedule| - 1]);
      NextKeeps(plan, Exec(plan, s, schedule[..|schedule| - 1]), band, schedule[|schedule| - 1]);
    }
  }

  /** Every interleaving keeps the invariant. */
  lemma AlwaysInv(plan: seq<Order>, s: State, k: nat, band: real, schedule: seq<Actor>)
    requires Initial(s, k, band)
    ensures Inv(plan, Exec(plan, s, schedule), band)
  {
    ExecKeeps(plan, s, band, schedule);
  }

  /**
   Ring safety in every interleaving: the counters stay within a capacity of each other, what was
   popped is a prefix of what was pushed, every unread index finds its order in its slot, and the
   producer never writes the slot that the consumer is reading.
   */
  lemma RingSafety(plan: seq<Order>, s0: State, k: nat, band: real, schedule: seq<Actor>)
    requires Initial(s0, k, band)
    ensures var s := Exec(plan, s0, schedule);
      && s.tail <= s.head <= s.tail + |s.buffer|
      && s.head <= |plan| && s.received == plan[..s.tail]
      && (forall i :: s.tail <= i < s.head ==> Slot(i, s.k) < |s.buffer| && s.buffer[Slot(i, s.k)] == plan[i])
      && (s.producer.PRoom? && s.consumer.CReading? ==> Slot(s.producer.head, s.k) != Slot(s.consumer.tail, s.k))
  {
    AlwaysInv(plan, s0, k, band, schedule);
    var s := Exec(plan, s0, schedule);
    if s.producer.PRoom? && s.consumer.CReading? {
      SlotsDiffer(s.tail, s.head, s.k);
    }
  }

  /**
   `pop` returns false only when everything pushed has been popped; by then the consumer has made
   exactly the trades, and reached exactly the book, of submitting the orders one after the other.
   */
  lemma DrainedOnStop(plan: seq<Order>, s0: State, k: nat, band: real, schedule: seq<Actor>)
    requires Initial(s0, k, band)
    ensures var s := Exec(plan, s0, schedule);
      s.consumer == CStopped ==>
        s.received == plan && (s.engine, s.trades) == SubmitAll(Fresh(band), plan)
  {
    AlwaysInv(plan, s0, k, band, schedule);
    assert plan[..|plan|] == plan;
  }

  function ConsumerRank(s: State): nat {
    match s.consumer
    case CServing(_) => 8
    case CReady => 7
    case CPolling(_) => 6
    case CEmpty(_) => if s.done then 4 else 6
    case CRecheck(_) => 3
    case CReading(_) => 2
    case CHolding(_, _) => 1
    case CStopped => 0
  }

  function ProducerRank(s: State): nat {
    match s.producer
    case PReady => 4
    case PLoaded(_) => 3
    case PRoom(_) => 2
    case PWrote(_) => 1
    case PFinished => 0
  }

  /** What is left to do; polling an empty ring neither adds to it nor takes from it. */
  function ToDo(plan: seq<Order>, s: State): int {
    10 * (|plan| - s.tail) + 5 * (|plan| - s.head) + ConsumerRank(s) + ProducerRank(s)
  }

  /** The producer has nothing to do but wait: it is done, or the ring is full. */
  predicate Blocked(s: State) {
    s.producer == PFinished || (s.producer.PLoaded? && s.producer.head - s.tail >= Pow2(s.k))
  }

  /** A producer step makes progress, or the producer is blocked and nothing changes. */
  lemma ProducerProgress(plan: seq<Order>, s: State)
    requires BufferInv(plan, s) && ProducerInv(plan, s)
    ensures ToDo(plan, ProducerStep(plan, s)) <= ToDo(plan, s)
    ensures ToDo(plan, ProducerStep(plan, s)) == ToDo(plan, s) ==> Blocked(s) && ProducerStep(plan, s) == s
  {
    SlotInRange(s.head, s.k);
  }

  /** A consumer step makes progress, or it polls an open queue: it looks and sees nothing, or looks again. */
  lemma ConsumerProgress(plan: seq<Order>, s: State)
    requires BufferInv(plan, s) && ProducerInv(plan, s) && ConsumerInv(plan, s)
    ensures ToDo(plan, ConsumerStep(s)) <= ToDo(plan, s)
    ensures ToDo(plan, ConsumerStep(s)) == ToDo(plan, s) && s.consumer != CStopped ==>
      && !s.done && ConsumerStep(s) == s.(consumer := ConsumerStep(s).consumer)
      && ((s.consumer.CPolling? && s.tail == s.head) || (s.consumer.CEmpty? && ConsumerStep(s).consumer.CPolling?))
  {
    SlotInRange(s.tail, s.k);
  }

  function Turns(schedule: seq<Actor>, a: Actor): nat {
    if schedule == [] then 0
    else Turns(schedule[..|schedule| - 1], a) + if schedule[|schedule| - 1] == a then 1 else 0
  }

  lemma {:induction false} ToDoNeverGrows(plan: seq<Order>, s: State, band: real, w: seq<Actor>)
    requires Inv(plan, s, band)
    ensures ToDo(plan, Exec(plan, s, w)) <= ToDo(plan, s)
    ensures s.consumer == CStopped ==> Exec(plan, s, w).consumer == CStopped
  {
    if w != [] {
      var init := w[..|w| - 1];
      ToDoNeverGrows(plan, s, band, init);
      ExecKeeps(plan, s, band, init);
      var mid := Exec(plan, s, init);
      if w[|w| - 1] == TheProducer {
        ProducerProgress(plan, mid);
      } else {
        ConsumerProgress(plan, mid);
      }
    }
  }

  /** What a stretch without any progress looks like: only the consumer moves, and it polls. */
  ghost predicate Idled(s: State, s': State, w: seq<Actor>) {
    && s' == s.(consumer := s'.consumer)
    && (Turns(w, TheProducer) >= 1 ==> Blocked(s))
    && (Turns(w, TheConsumer) >= 1 ==> !s.done)
    && (s.tail < s.head ==> Turns(w, TheConsumer) <= 1 && (Turns(w, TheConsumer) == 1 ==> s'.consumer.CPolling?))
  }

  lemma {:induction false} NoProgressMeansIdling(plan: seq<Order>, s: State, band: real, w: seq<Actor>)
    requires Inv(plan, s, band) && ToDo(plan, Exec(plan, s, w)) == ToDo(plan, s)
    requires Exec(plan, s, w).consumer != CStopped
    ensures Idled(s, Exec(plan, s, w), w)
  {
    if w != [] {
      var init := w[..|w| - 1];
      var mid := Exec(plan, s, init);
      ToDoNeverGrows(plan, s, band, init);
      ExecKeeps(plan, s, band, init);
      if w[|w| - 1] == TheProducer {
        ProducerProgress(plan, mid);
        NoProgressMeansIdling(plan, s, band, init);
      } else {
        ConsumerProgress(plan, mid);
        NoProgressMeansIdling(plan, s, band, init);
      }
    }
  }

  /** In a fair round the producer gets at least one turn and the consumer at least two, in any order. */
  predicate Fair(round: seq<Actor>) {
    Turns(round, TheProducer) >= 1 && Turns(round, TheConsumer) >= 2
  }

  lemma FairRoundProgresses(plan: seq<Order>, s: State, band: real, round: seq<Actor>)
    requires Inv(plan, s, band) && Fair(round)
    ensures var s' := Exec(plan, s, round); s'.consumer == CStopped || ToDo(plan, s') < ToDo(plan, s)
  {
    var s' := Exec(plan, s, round);
    ToDoNeverGrows(plan, s, band, round);
    if s'.consumer != CStopped && ToDo(plan, s') == ToDo(plan, s) {
      NoProgressMeansIdling(plan, s, band, round);
      assert false;
    }
  }

  function ExecRounds(plan: seq<Order>, s: State, rounds: seq<seq<Actor>>): State
    decreases |rounds|
  {
    if rounds == [] then s else ExecRounds(plan, Exec(plan, s, rounds[0]), rounds[1..])
  }

  lemma {:induction false} FairRoundsFinish(plan: seq<Order>, s: State, band: real, rounds: seq<seq<Actor>>)
    requires Inv(plan, s, band) && (forall i :: 0 <= i < |rounds| ==> Fair(rounds[i]))
    requires s.consumer == CStopped || |rounds| > ToDo(plan, s)
    ensures Inv(plan, ExecRounds(plan, s, rounds), band) && ExecRounds(plan, s, rounds).consumer == CStopped
    decreases |rounds|
  {
    if rounds == [] {
      assert ToDo(plan, s) >= 0;
    } else {
      var s1 := Exec(plan, s, rounds[0]);
      ExecKeeps(plan, s, band, rounds[0]);
      ToDoNeverGrows(plan, s, band, rounds[0]);
      FairRoundProgresses(plan, s, band, rounds[0]);
      FairRoundsFinish(plan, s1, band, rounds[1..]);
    }
  }

  /**
   Every fair interleaving delivers: after at most 15 rounds an order and a few more, however the turns
   fall within each round, the consumer has stopped with all orders submitted in order.
   */
  lemma FairSchedulesDeliver(plan: seq<Order>, s0: State, k: nat, band: real, rounds: seq<seq<Actor>>)
    requires Initial(s0, k, band) && (forall i :: 0 <= i < |rounds| ==> Fair(rounds[i]))
    requires |rounds| > 15 * |plan| + 11
    ensures var s := ExecRounds(plan, s0, rounds);
      s.consumer == CStopped && s.received == plan && (s.engine, s.trades) == SubmitAll(Fresh(band), plan)
  {
    FairRoundsFinish(plan, s0, band, rounds);
    assert plan[..|plan|] == plan;
  }
}
