/**
 A reader of an append-only log with a checkpoint file (log_backed_order_queue.hpp; the subscriber of
 trade_log.hpp is the same cursor over trades), with crashes between any two file operations.
 */
module LogCursor {
  import opened Spans

  /** The checkpoint file: absent, opened for writing and still empty, or holding an offset. */
  datatype File = Missing | Truncated | Offset(n: nat)

  /** `read_checkpoint`: anything that cannot be read counts as zero. */
  function Recover(f: File): nat {
    if f.Offset? then f.n else 0
  }

  /** How far `pop` has got. */
  datatype Phase<T> =
    | Idle
    | Fetched(record: T)   // read from the log and the in-memory offset advanced
    | Cleared(record: T)   // checkpoint file truncated by opening it
    | Saved(record: T)     // new offset written and synced

  datatype Process<T> = Down | Up(offset: nat, phase: Phase<T>)

  /** `spans` has one entry per process start: from which offset, and up to where it delivered. */
  datatype State<T> = State(log: seq<T>, file: File, process: Process<T>, spans: seq<Span>, delivered: seq<T>)

  datatype Action<T> = Append(record: T) | Start | Fetch | Clear | Save | Return | Crash

  function Next<T>(s: State<T>, a: Action<T>): State<T> {
    match a
    case Append(x) => s.(log := s.log + [x])
    case Start =>
      if s.process.Up? then s else
        var at := Recover(s.file);
        s.(process := Up(at, Idle), spans := s.spans + [Span(at, at)])
    case Fetch =>
      if s.process.Up? && s.process.phase.Idle? && s.process.offset < |s.log|
      then s.(process := Up(s.process.offset + 1, Fetched(s.log[s.process.offset]))) else s
    case Clear =>
      if s.process.Up? && s.process.phase.Fetched?
      then s.(file := Truncated, process := s.process.(phase := Cleared(s.process.phase.record))) else s
    case Save =>
      if s.process.Up? && s.process.phase.Cleared?
      then s.(file := Offset(s.process.offset), process := s.process.(phase := Saved(s.process.phase.record))) else s
    case Return =>
      if s.process.Up? && s.process.phase.Saved? && s.spans != []
      then s.(process := s.process.(phase := Idle), spans := Grow(s.spans), delivered := s.delivered + [s.process.phase.record])
      else s
    case Crash => s.(process := Down)
  }

  function Exec<T>(s: State<T>, actions: seq<Action<T>>): State<T> {
    if actions == [] then s else Next(Exec(s, actions[..|actions| - 1]), actions[|actions| - 1])
  }

  /** The records that a run appends, in order. */
  function Appended<T>(actions: seq<Action<T>>): seq<T> {
    if actions == [] then [] else
      var init, a := actions[..|actions| - 1], actions[|actions| - 1];
      if a.Append? then Appended(init) + [a.record] else Appended(init)
  }

  /** Readers never touch the log: it holds what it held at first and what was appended since. */
  lemma {:induction false} LogIsAppended<T>(s: State<T>, actions: seq<Action<T>>)
    ensures Exec(s, actions).log == s.log + Appended(actions)
  {
    if actions == [] {
      assert s.log + [] == s.log;
    } else {
      LogIsAppended(s, actions[..|actions| - 1]);
    }
  }

  function Blank<T>(log: seq<T>): State<T> {
    State(log, Missing, Down, [], [])
  }

  /** Up to where the current process has delivered. */
  function Through<T>(s: State<T>): nat {
    if s.spans == [] then 0 else s.spans[|s.spans| - 1].end
  }

  predicate Inv<T(==)>(s: State<T>) {
    && Within(s.spans, |s.log|) && Recover(s.file) <= |s.log|
    && (forall i :: 0 <= i < |Positions(s.spans)| ==> Positions(s.spans)[i] < |s.log|)
    && s.delivered == Select(s.log, Positions(s.spans))
    && (s.process.Up? ==>
          && s.spans != [] && s.process.offset <= |s.log|
          && var through := Through(s);
             match s.process.phase
             case Idle => s.process.offset == through == Recover(s.file)
             case Fetched(x) => s.process.offset == through + 1 && Recover(s.file) == through && x == s.log[through]
             case Cleared(x) => s.process.offset == through + 1 && s.file == Truncated && x == s.log[through]
             case Saved(x) => s.process.offset == through + 1 && s.file == Offset(through + 1) && x == s.log[through])
  }

  lemma StartInv<T>(s: State<T>)
    requires Inv(s) && s.process.Down?
    ensures Inv(Next(s, Start))
  {
  }

  lemma ReturnInv<T>(s: State<T>)
    requires Inv(s) && s.process.Up? && s.process.phase.Saved?
    ensures Inv(Next(s, Return))
  {
    var s' := Next(s, Return);
    assert s'.spans == Grow(s.spans) && Through(s') == Through(s) + 1;
    assert Within(s'.spans, |s.log|);
    GrowPositions(s.spans);
    SelectSnoc(s.log, Positions(s.spans), Through(s));
  }

  lemma SelectSnoc<T>(stream: seq<T>, positions: seq<nat>, p: nat)
    requires p < |stream| && forall i :: 0 <= i < |positions| ==> positions[i] < |stream|
    ensures Select(stream, positions + [p]) == Select(stream, positions) + [stream[p]]
  {
  }

  lemma AppendInv<T>(s: State<T>, x: T)
    requires Inv(s)
    ensures Inv(Next(s, Append(x)))
  {
  }

  lemma NextInv<T>(s: State<T>, a: Action<T>)
    requires Inv(s)
    ensures Inv(Next(s, a))
  {
    match a {
      case Append(x) => AppendInv(s, x);
      case Start => if s.process.Down? { StartInv(s); }
      case Return => if s.process.Up? && s.process.phase.Saved? { ReturnInv(s); }
      case _ =>
    }
  }

  /**
   Over every run, whatever crashes when: each process delivers a contiguous piece of the log from the
   offset it recovered.
   */
  lemma {:induction false} DeliversPieces<T>(log: seq<T>, actions: seq<Action<T>>)
    ensures Inv(Exec(Blank(log), actions))
  {
    if actions != [] {
      DeliversPieces(log, actions[..|actions| - 1]);
      NextInv(Exec(Blank(log), actions[..|actions| - 1]), actions[|actions| - 1]);
    }
  }

  /** A crash here will make the next process resume exactly after what was delivered. */
  predicate SafePoint<T(==)>(s: State<T>) {
    s.process.Up? ==>
      match s.process.phase
      case Idle => true
      case Fetched(_) => true
      case Cleared(_) => s.process.offset == 1
      case Saved(_) => false
  }

  /**
   After a crash the recovered offset is zero, the old one or the new one, depending on where `pop`
   was; it is where delivery stopped if and only if the crash came at a safe point.
   */
  lemma RecoveredAfterCrash<T>(s: State<T>)
    requires Inv(s) && s.process.Up?
    ensures var at := Recover(Next(s, Crash).file);
      && at == (match s.process.phase
                case Idle => Through(s)
                case Fetched(_) => Through(s)
                case Cleared(_) => 0
                case Saved(_) => Through(s) + 1)
      && (at == Through(s) <==> SafePoint(s))
  {
  }

  /** Every crash of the run comes at a safe point. */
  predicate SafeCrashes<T(==)>(s: State<T>, actions: seq<Action<T>>) {
    actions == [] ||
    (&& SafeCrashes(s, actions[..|actions| - 1])
     && (actions[|actions| - 1] == Crash ==> SafePoint(Exec(s, actions[..|actions| - 1]))))
  }

  /** Delivery so far is one contiguous piece and the next process would go on right after it. */
  predicate OnTrack<T(==)>(s: State<T>) {
    && Contiguous(s.spans)
    && (s.process.Up? ==> Through(s) == Reached(s.spans))
    && (s.process.Down? ==> Recover(s.file) == Reached(s.spans))
  }

  lemma NextOnTrack<T>(s: State<T>, a: Action<T>)
    requires Inv(s) && OnTrack(s) && (a == Crash ==> SafePoint(s))
    ensures OnTrack(Next(s, a))
  {
  }

  /** Crashes at safe points lose nothing and repeat nothing: what was delivered is a prefix of the log. */
  lemma {:induction false} SafeCrashesDeliverPrefix<T>(log: seq<T>, actions: seq<Action<T>>)
    requires SafeCrashes(Blank(log), actions)
    ensures var s := Exec(Blank(log), actions);
      && OnTrack(s) && Reached(s.spans) <= |s.log| && s.delivered == s.log[..Reached(s.spans)]
  {
    var s := Exec(Blank(log), actions);
    if actions != [] {
      var init := actions[..|actions| - 1];
      SafeCrashesDeliverPrefix(log, init);
      DeliversPieces(log, init);
      NextOnTrack(Exec(Blank(log), init), actions[|actions| - 1]);
    }
    DeliversPieces(log, actions);
    ContiguousDelivery(s);
  }

  lemma ContiguousDelivery<T>(s: State<T>)
    requires Inv(s) && Contiguous(s.spans)
    ensures Reached(s.spans) <= |s.log| && s.delivered == s.log[..Reached(s.spans)]
  {
    ContiguousPositions(s.spans);
    ReachedWithin(s.spans, |s.log|);
    SelectIota(s.log, Span(0, Reached(s.spans)));
  }

  lemma {:induction false} ReachedWithin(spans: seq<Span>, n: nat)
    requires Within(spans, n)
    ensures Reached(spans) <= n
  {
    if spans != [] {
      ReachedWithin(spans[..|spans| - 1], n);
    }
  }

  /** In general delivery is exactly once and in order if and only if the pieces are contiguous. */
  lemma ExactlyOnceDelivery<T>(log: seq<T>, actions: seq<Action<T>>)
    ensures var s := Exec(Blank(log), actions);
      && Inv(s) && s.log == log + Appended(actions)
      && (Contiguous(s.spans) <==> Positions(s.spans) == Iota(0, |s.delivered|))
      && (Contiguous(s.spans) ==> s.delivered <= s.log)
  {
    var s := Exec(Blank(log), actions);
    DeliversPieces(log, actions);
    LogIsAppended(Blank(log), actions);
    ExactlyOnce(s.spans);
    assert |s.delivered| == |Positions(s.spans)|;
    if Contiguous(s.spans) {
      ContiguousDelivery(s);
    }
  }

  lemma ExecSnoc<T>(s: State<T>, actions: seq<Action<T>>, a: Action<T>)
    ensures Exec(s, actions + [a]) == Next(Exec(s, actions), a)
  {
  }

  /** One undisturbed call of `pop`. */
  function Pop<T>(s: State<T>): State<T> {
    Next(Next(Next(Next(s, Fetch), Clear), Save), Return)
  }

  /** Killed after truncating its checkpoint, a reader starts over: the first record comes twice. */
  lemma TornCheckpointReplays<T>(a: T, b: T)
    ensures var s := Pop(Next(Blank([a, b]), Start));
      var torn := Next(Next(Next(Next(s, Fetch), Clear), Crash), Start);
      s.delivered == [a] && Pop(torn).delivered == [a, a]
  {
    var s := Pop(Next(Blank([a, b]), Start));
    assert s == State([a, b], Offset(1), Up(1, Idle), [Span(0, 1)], [a]);
    var torn := Next(Next(Next(Next(s, Fetch), Clear), Crash), Start);
    assert torn == State([a, b], Truncated, Up(0, Idle), [Span(0, 1), Span(0, 0)], [a]);
  }

  /** Killed after saving the checkpoint but before `pop` returns, it skips: the first never comes. */
  lemma LateCrashSkips<T>(a: T, b: T)
    ensures var s := Next(Next(Next(Next(Blank([a, b]), Start), Fetch), Clear), Save);
      var late := Next(Next(s, Crash), Start);
      s.delivered == [] && Pop(late).delivered == [b]
  {
    var s := Next(Next(Next(Next(Blank([a, b]), Start), Fetch), Clear), Save);
    assert s == State([a, b], Offset(1), Up(1, Saved(a)), [Span(0, 0)], []);
    var late := Next(Next(s, Crash), Start);
    assert late == State([a, b], Offset(1), Up(1, Idle), [Span(0, 0), Span(1, 1)], []);
  }

  /** The checkpoint file of a consumer of the log at `base`. */
  function CheckpointPath(base: string, id: string): string {
    base + (if id == "" then "" else "." + id) + ".offset"
  }

  lemma CheckpointNames(base: string, id: string)
    ensures CheckpointPath(base, "") == base + ".offset"
    ensures id != "" ==> CheckpointPath(base, id) == base + "." + id + ".offset"
  {
    assert base + "" == base && base + ("." + id) == base + "." + id;
  }

  lemma PathsDiffer(base: string, a: string, b: string)
    requires a != b
    ensures CheckpointPath(base, a) != CheckpointPath(base, b)
  {
    var n := |base|;
    var suffix := ".offset";
    if |a| == |b| {
      var i := Differ(a, b);
      assert CheckpointPath(base, a)[n + 1 + i] == a[i];
      assert CheckpointPath(base, b)[n + 1 + i] == b[i];
    } else {
      assert |CheckpointPath(base, a)| != |CheckpointPath(base, b)|;
    }
  }

  lemma Differ(a: string, b: string) returns (i: nat)
    requires a != b && |a| == |b|
    ensures i < |a| && a[i] != b[i]
  {
    i :| 0 <= i < |a| && a[i] != b[i];
  }

  /** What one reader keeps for itself. */
  datatype Reader<T> = Reader(process: Process<T>, spans: seq<Span>, delivered: seq<T>)

  /** Many readers of one log, each with its checkpoint file beside it. */
  datatype System<T> = System(log: seq<T>, files: map<string, File>, readers: map<string, Reader<T>>)

  function ReaderOf<T>(m: System<T>, id: string): Reader<T> {
    if id in m.readers then m.readers[id] else Reader(Down, [], [])
  }

  /** The system as one reader sees it. */
  function View<T>(m: System<T>, base: string, id: string): State<T> {
    var path := CheckpointPath(base, id);
    var r := ReaderOf(m, id);
    State(m.log, if path in m.files then m.files[path] else Missing, r.process, r.spans, r.delivered)
  }

  /** Reader `id`, or for an append some writer, takes a step. */
  function SystemNext<T>(m: System<T>, base: string, id: string, a: Action<T>): System<T> {
    var s := Next(View(m, base, id), a);
    if a.Append? then m.(log := s.log)
    else System(s.log, m.files[CheckpointPath(base, id) := s.file],
                m.readers[id := Reader(s.process, s.spans, s.delivered)])
  }

  /** A step of one reader is a step of the cursor for it, and no step at all for any other reader. */
  lemma ReadersAreIndependent<T>(m: System<T>, base: string, id: string, a: Action<T>, other: string)
    ensures View(SystemNext(m, base, id, a), base, other)
              == if id == other || a.Append? then Next(View(m, base, other), a) else View(m, base, other)
  {
    if id != other {
      PathsDiffer(base, id, other);
    }
  }

  datatype Event<T> = Event(id: string, action: Action<T>)

  function SystemExec<T>(m: System<T>, base: string, events: seq<Event<T>>): System<T> {
    if events == [] then m else
      var e := events[|events| - 1];
      SystemNext(SystemExec(m, base, events[..|events| - 1]), base, e.id, e.action)
  }

  /** The events that concern reader `id`: its own, and every append. */
  function Concerning<T>(events: seq<Event<T>>, id: string): seq<Action<T>> {
    if events == [] then [] else
      var init, e := events[..|events| - 1], events[|events| - 1];
      if e.id == id || e.action.Append? then Concerning(init, id) + [e.action] else Concerning(init, id)
  }

  /** In every run of the system, each reader sees a run of its own cursor and nothing of the others. */
  lemma {:induction false} EachReaderAlone<T>(m: System<T>, base: string, events: seq<Event<T>>, id: string)
    ensures View(SystemExec(m, base, events), base, id) == Exec(View(m, base, id), Concerning(events, id))
  {
    if events != [] {
      var init, e := events[..|events| - 1], events[|events| - 1];
      EachReaderAlone(m, base, init, id);
      ReadersAreIndependent(SystemExec(m, base, init), base, e.id, e.action, id);
      ExecSnoc(View(m, base, id), Concerning(init, id), e.action);
    }
  }

  class LogFile<T> {
    var records: seq<T>

    constructor ()
      ensures records == []
    {
      records := [];
    }

    method Push(x: T)
      modifies this
      ensures records == old(records) + [x]
    {
      records := records + [x];
    }

    /** What the other processes appended meanwhile. */
    method Meanwhile(more: seq<T>)
      modifies this
      ensures records == old(records) + more
    {
      records := records + more;
    }
  }

  class CheckpointFile {
    var content: File

    constructor ()
      ensures content == Missing
    {
      content := Missing;
    }

    method Write(offset: nat)
      modifies this
      ensures content == Offset(offset)
    {
      content := Truncated;
      content := Offset(offset);
    }
  }

  /** The records from `from` up to `to`. */
  function Between<T>(records: seq<T>, from: nat, to: nat): seq<T> {
    if from <= to <= |records| then records[from..to] else []
  }

  lemma BetweenSnoc<T>(records: seq<T>, from: nat, to: nat)
    requires from <= to < |records|
    ensures Between(records, from, to + 1) == Between(records, from, to) + [records[to]]
  {
  }

  /** The outcome of one turn of the polling loop. */
  datatype Turn<T> = Got(record: T) | Drained | Sleep

  class LogReader<T> {
    const log: LogFile<T>
    const checkpoint: CheckpointFile
    var offset: nat
    var done: bool

    /** This reader between two calls, as a state of the cursor. */
    ghost function Cursor(): State<T>
      reads this, log, checkpoint
    {
      State(log.records, checkpoint.content, Up(offset, Idle), [Span(offset, offset)], [])
    }

    constructor (log: LogFile<T>, checkpoint: CheckpointFile)
      ensures this.log == log && this.checkpoint == checkpoint && !done
      ensures offset == Recover(checkpoint.content)
    {
      this.log := log;
      this.checkpoint := checkpoint;
      offset := Recover(checkpoint.content);
      done := false;
    }

    method Shutdown()
      modifies this`done
      ensures done
    {
      done := true;
    }

    /** A turn delivers exactly when there is an unread record, and gives up only when there is none. */
    method TryPop() returns (t: Turn<T>)
      modifies this`offset, checkpoint
      ensures t.Got? <==> old(offset) < |log.records|
      ensures t.Drained? <==> old(offset) >= |log.records| && done
      ensures !t.Got? ==> offset == old(offset) && checkpoint.content == old(checkpoint.content)
      ensures t.Got? ==> t.record == log.records[old(offset)] && offset == old(offset) + 1
      ensures t.Got? ==> checkpoint.content == Offset(offset)
    {
      if offset < |log.records| {
        var out := log.records[offset];
        offset := offset + 1;
        checkpoint.Write(offset);
        return Got(out);
      }
      t := if done then Drained else Sleep;
    }

    /** Such a turn is the steps that the cursor takes for a `pop`. */
    method Poll() returns (t: Turn<T>)
      modifies this`offset, checkpoint
      ensures t.Got? <==> old(offset) < |log.records|
      ensures t.Drained? <==> old(offset) >= |log.records| && done
      ensures !t.Got? ==> offset == old(offset) && checkpoint.content == old(checkpoint.content)
      ensures t.Got? ==> t.record == log.records[old(offset)] && offset == old(offset) + 1
      ensures t.Got? ==>
        var s := Pop(old(Cursor()));
        && s.delivered == [t.record] && s.file == checkpoint.content
        && s.process == Up(offset, Idle) && s.spans == [Span(old(offset), offset)]
    {
      t := TryPop();
    }

    /** A consumer's loop after shutdown: it still gets every unread record, in order, and then stops. */
    method Drain() returns (out: seq<T>)
      requires done
      modifies this`offset, checkpoint
      ensures out == Between(log.records, old(offset), |log.records|)
      ensures offset == if old(offset) < |log.records| then |log.records| else old(offset)
    {
      out := [];
      while true
        invariant log.records == old(log.records) && old(offset) <= offset
        invariant offset <= |log.records| || offset == old(offset)
        invariant out == Between(log.records, old(offset), offset)
        decreases |log.records| - offset
      {
        var t := TryPop();
        if !t.Got? {
          break;
        }
        BetweenSnoc(log.records, old(offset), offset - 1);
        out := out + [t.record];
      }
    }
  }
}
