/** What the topic of a shard holds after any number of failovers, when replicas start from fresh checkpoints. */
module Handovers {
  import opened Orders
  import opened Spans
  import opened Failover

  predicate FreshStarts(tenures: seq<Tenure>) {
    forall i :: 0 <= i < |tenures| ==> tenures[i].base == 0
  }

  function SpansOf<M, O, T>(f: Service<M, O, T>, log: seq<O>, tenures: seq<Tenure>): (r: seq<Span>)
    requires TenuresOk(f, log, tenures)
    ensures |r| == |tenures|
  {
    if tenures == [] then [] else
      SpansOf(f, log, tenures[..|tenures| - 1]) + [SpanOf(f, log, tenures[|tenures| - 1])]
  }

  lemma SegmentIsSlice<M, O, T>(f: Service<M, O, T>, log: seq<O>, t: Tenure)
    requires TenureOk(f, log, t) && t.base == 0
    ensures var span := SpanOf(f, log, t);
      var all := Stream(f, log, 0, |log|);
      span.start <= span.end <= |all| && Segment(f, log, t) == all[span.start..span.end]
  {
    StreamPrefix(f, log, 0, t.first, t.next);
    var all, a, b := Stream(f, log, 0, |log|), Stream(f, log, 0, t.first), Stream(f, log, 0, t.next);
    var x: seq<T> := [];
    if t.part > 0 {
      StreamPrefix(f, log, 0, t.next + 1, |log|);
      x := Results(f, log, 0, t.next);
    } else {
      StreamPrefix(f, log, 0, t.next, |log|);
      assert b + x == b;
    }
    SliceOf(a, b, x, t.part, all);
    assert Segment(f, log, t) == b[|a|..] + x[..t.part];
  }

  lemma SliceOf<T>(a: seq<T>, b: seq<T>, x: seq<T>, n: nat, all: seq<T>)
    requires a <= b && b + x <= all && n <= |x|
    ensures |a| <= |b| + n <= |all| && b[|a|..] + x[..n] == all[|a|..|b| + n]
  {
  }

  lemma SelectPrefix<T>(stream: seq<T>, positions: seq<nat>)
    requires positions == Iota(0, |positions|) && forall i :: 0 <= i < |positions| ==> positions[i] < |stream|
    ensures Select(stream, positions) <= stream
  {
    var n := |positions|;
    assert n > 0 ==> positions[n - 1] == n - 1;
    SelectIota(stream, Span(0, n));
  }

  lemma SelectConcat<T>(stream: seq<T>, a: seq<nat>, b: seq<nat>)
    requires forall i :: 0 <= i < |a| ==> a[i] < |stream|
    requires forall i :: 0 <= i < |b| ==> b[i] < |stream|
    ensures Select(stream, a + b) == Select(stream, a) + Select(stream, b)
  {
  }

  /** With replicas that all started from a fresh checkpoint, the topic is read off one stream. */
  lemma {:induction false} PublishedIsSelected<M, O, T>(f: Service<M, O, T>, log: seq<O>, tenures: seq<Tenure>)
    requires TenuresOk(f, log, tenures) && FreshStarts(tenures)
    ensures var positions := Positions(SpansOf(f, log, tenures));
      && (forall i :: 0 <= i < |positions| ==> positions[i] < |Stream(f, log, 0, |log|)|)
      && Published(f, log, tenures) == Select(Stream(f, log, 0, |log|), positions)
  {
    if tenures != [] {
      var init, t := tenures[..|tenures| - 1], tenures[|tenures| - 1];
      PublishedIsSelected(f, log, init);
      SegmentIsSlice(f, log, t);
      var span := SpanOf(f, log, t);
      SplitLast(SpansOf(f, log, init), span);
      var a, b := Positions(SpansOf(f, log, init)), Iota(span.start, span.end);
      SelectConcat(Stream(f, log, 0, |log|), a, b);
      SelectIota(Stream(f, log, 0, |log|), span);
    }
  }

  /**
   Failover, for replicas that all started from fresh checkpoints: a result at position `p` of the
   canonical stream has been published once for every tenure that covers it, and the topic is a prefix
   of the stream with nothing missing and nothing repeated if and only if the tenures are contiguous.
   */
  lemma FailoverExactly<M, O, T>(f: Service<M, O, T>, actions: seq<Action<O>>, p: nat)
    requires FreshStarts(Exec(f, Initial(), actions).tenures)
    ensures var s := Exec(f, Initial(), actions);
      var all := Stream(f, s.log, 0, |s.log|);
      && TenuresOk(f, s.log, s.tenures)
      && var spans := SpansOf(f, s.log, s.tenures);
         && (forall i :: 0 <= i < |Positions(spans)| ==> Positions(spans)[i] < |all|)
         && s.topic == Select(all, Positions(spans))
         && multiset(Positions(spans))[p] == Covering(spans, p)
         && (Contiguous(spans) <==> Positions(spans) == Iota(0, |s.topic|))
         && (Contiguous(spans) ==> s.topic <= all)
  {
    var s := Exec(f, Initial(), actions);
    AlwaysInv(f, actions);
    PublishedIsSelected(f, s.log, s.tenures);
    var spans := SpansOf(f, s.log, s.tenures);
    VisitedAsCovered(spans, p);
    ExactlyOnce(spans);
    if Contiguous(spans) {
      SelectPrefix(Stream(f, s.log, 0, |s.log|), Positions(spans));
    }
  }

  /**
   Every tenure starts at the record at which the one before it stopped, which was between two records;
   the first starts with the log.
   */
  predicate CleanHandovers(tenures: seq<Tenure>) {
    tenures == [] ||
    var init, t := tenures[..|tenures| - 1], tenures[|tenures| - 1];
    && CleanHandovers(init)
    && if init == [] then t.first == 0 else t.first == LastTenure(init).next && LastTenure(init).part == 0
  }

  /** Clean handovers neither lose nor repeat anything. */
  lemma {:induction false} CleanIsContiguous<M, O, T>(f: Service<M, O, T>, log: seq<O>, tenures: seq<Tenure>)
    requires TenuresOk(f, log, tenures) && FreshStarts(tenures) && CleanHandovers(tenures)
    ensures var spans := SpansOf(f, log, tenures);
      Contiguous(spans) && (tenures != [] ==> Reached(spans) == SpanOf(f, log, LastTenure(tenures)).end)
  {
    if tenures != [] {
      var init, t := tenures[..|tenures| - 1], tenures[|tenures| - 1];
      CleanIsContiguous(f, log, init);
      StreamPrefix(f, log, 0, t.first, t.next);
      SplitLast(SpansOf(f, log, init), SpanOf(f, log, t));
    }
  }

  /** What a leader from a fresh checkpoint leaves behind when nothing before it is missing. */
  function UpTo<M, O, T>(f: Service<M, O, T>, log: seq<O>, t: Tenure): seq<T>
    requires TenureOk(f, log, t)
  {
    Stream(f, log, t.base, t.next) + if t.part == 0 then [] else Results(f, log, t.base, t.next)[..t.part]
  }

  lemma UpToIsPrefix<M, O, T>(f: Service<M, O, T>, log: seq<O>, t: Tenure)
    requires TenureOk(f, log, t) && t.base == 0
    ensures var end := SpanOf(f, log, t).end;
      var all := Stream(f, log, 0, |log|);
      end <= |all| && UpTo(f, log, t) == all[..end]
  {
    SegmentIsSlice(f, log, t.(first := 0));
    assert Stream(f, log, 0, t.next)[0..] == Stream(f, log, 0, t.next);
  }

  /** With clean handovers the topic is exactly the stream up to where the last leader has got. */
  lemma CleanTopic<M, O, T>(f: Service<M, O, T>, actions: seq<Action<O>>)
    requires var s := Exec(f, Initial(), actions); FreshStarts(s.tenures) && CleanHandovers(s.tenures)
    ensures var s := Exec(f, Initial(), actions);
      && TenuresOk(f, s.log, s.tenures)
      && s.topic == if s.tenures == [] then [] else UpTo(f, s.log, LastTenure(s.tenures))
  {
    var s := Exec(f, Initial(), actions);
    FailoverExactly(f, actions, 0);
    if s.tenures != [] {
      var spans := SpansOf(f, s.log, s.tenures);
      CleanIsContiguous(f, s.log, s.tenures);
      ContiguousPositions(spans);
      UpToIsPrefix(f, s.log, LastTenure(s.tenures));
      SelectIota(Stream(f, s.log, 0, |s.log|), Span(0, Reached(spans)));
    }
  }

  /** Result `k` of record `r` comes before the point where `part` results of record `next` are out. */
  predicate Before(r: nat, k: nat, next: nat, part: nat) {
    r < next || (r == next && k < part)
  }

  predicate Publishes(t: Tenure, r: nat, k: nat) {
    t.first <= r && Before(r, k, t.next, t.part)
  }

  /** Where result `k` of record `r` is in the canonical stream. */
  function Position<M, O, T>(f: Service<M, O, T>, log: seq<O>, r: nat, k: nat): nat
    requires r <= |log|
  {
    |Stream(f, log, 0, r)| + k
  }

  lemma PositionOf<M, O, T>(f: Service<M, O, T>, log: seq<O>, r: nat, k: nat)
    requires r < |log| && k < |Results(f, log, 0, r)|
    ensures var all := Stream(f, log, 0, |log|);
      Position(f, log, r, k) < |all| && all[Position(f, log, r, k)] == Results(f, log, 0, r)[k]
  {
    StreamPrefix(f, log, 0, r + 1, |log|);
  }

  /** A tenure's span covers exactly the results it publishes, record by record. */
  lemma SpanCovers<M, O, T>(f: Service<M, O, T>, log: seq<O>, t: Tenure, r: nat, k: nat)
    requires TenureOk(f, log, t) && t.base == 0 && r < |log| && k < |Results(f, log, 0, r)|
    ensures var span := SpanOf(f, log, t);
      span.start <= Position(f, log, r, k) < span.end <==> Publishes(t, r, k)
  {
    StartCompares(f, log, t.first, r, k);
    EndCompares(f, log, t, r, k);
  }

  lemma StartCompares<M, O, T>(f: Service<M, O, T>, log: seq<O>, first: nat, r: nat, k: nat)
    requires first <= |log| && r < |log| && k < |Results(f, log, 0, r)|
    ensures |Stream(f, log, 0, first)| <= Position(f, log, r, k) <==> first <= r
  {
    if first <= r {
      StreamPrefix(f, log, 0, first, r);
    } else {
      StreamPrefix(f, log, 0, r + 1, first);
    }
  }

  lemma EndCompares<M, O, T>(f: Service<M, O, T>, log: seq<O>, t: Tenure, r: nat, k: nat)
    requires TenureOk(f, log, t) && t.base == 0 && r < |log| && k < |Results(f, log, 0, r)|
    ensures Position(f, log, r, k) < |Stream(f, log, 0, t.next)| + t.part <==> Before(r, k, t.next, t.part)
  {
    if r < t.next {
      StreamPrefix(f, log, 0, r + 1, t.next);
    } else if r > t.next {
      StreamPrefix(f, log, 0, t.next + 1, r);
    }
  }

  /** How many tenures publish result `k` of record `r`. */
  function Publishers(tenures: seq<Tenure>, r: nat, k: nat): nat {
    if tenures == [] then 0 else
      Publishers(tenures[..|tenures| - 1], r, k) + if Publishes(tenures[|tenures| - 1], r, k) then 1 else 0
  }

  lemma {:induction false} CoveringIsPublishers<M, O, T>(f: Service<M, O, T>, log: seq<O>, tenures: seq<Tenure>, r: nat, k: nat)
    requires TenuresOk(f, log, tenures) && FreshStarts(tenures) && r < |log| && k < |Results(f, log, 0, r)|
    ensures Covering(SpansOf(f, log, tenures), Position(f, log, r, k)) == Publishers(tenures, r, k)
  {
    if tenures != [] {
      var init, t := tenures[..|tenures| - 1], tenures[|tenures| - 1];
      CoveringIsPublishers(f, log, init, r, k);
      SpanCovers(f, log, t, r, k);
      assert SpansOf(f, log, tenures)[..|tenures| - 1] == SpansOf(f, log, init);
    }
  }

  /**
   In every run from fresh checkpoints, each result of each record is in the topic once for every
   tenure that had started by that record and stopped after that result.
   */
  lemma TimesPublished<M, O, T>(f: Service<M, O, T>, actions: seq<Action<O>>, r: nat, k: nat)
    requires var s := Exec(f, Initial(), actions);
      FreshStarts(s.tenures) && r < |s.log| && k < |Results(f, s.log, 0, r)|
    ensures var s := Exec(f, Initial(), actions);
      var all := Stream(f, s.log, 0, |s.log|);
      var p := Position(f, s.log, r, k);
      && TenuresOk(f, s.log, s.tenures)
      && p < |all| && all[p] == Results(f, s.log, 0, r)[k]
      && multiset(Positions(SpansOf(f, s.log, s.tenures)))[p] == Publishers(s.tenures, r, k)
  {
    var s := Exec(f, Initial(), actions);
    PositionOf(f, s.log, r, k);
    FailoverExactly(f, actions, Position(f, s.log, r, k));
    CoveringIsPublishers(f, s.log, s.tenures, r, k);
  }

  /**
   The handover from tenure `i` of such a run to the next, `t` to `u`: which of the two publish a result.
   Of the results from `t`'s first record up to where `u` stopped, both publish exactly those from `u`'s
   first record up to where `t` stopped, and neither publishes exactly those from where `t` stopped up to
   `u`'s first record.
   */
  lemma Handover<M, O, T>(f: Service<M, O, T>, actions: seq<Action<O>>, i: nat, r: nat, k: nat)
    requires var s := Exec(f, Initial(), actions);
      FreshStarts(s.tenures) && i + 1 < |s.tenures| && r < |s.log| && k < |Results(f, s.log, 0, r)|
    ensures var s := Exec(f, Initial(), actions);
      var t, u := s.tenures[i], s.tenures[i + 1];
      && TenureOk(f, s.log, t) && TenureOk(f, s.log, u)
      && var times := Covering([SpanOf(f, s.log, t), SpanOf(f, s.log, u)], Position(f, s.log, r, k));
         && (times == 2 <==> Publishes(t, r, k) && Publishes(u, r, k))
         && (times == 0 <==> !Publishes(t, r, k) && !Publishes(u, r, k))
         && (t.first <= r && Before(r, k, u.next, u.part) ==>
               && (times == 2 <==> u.first <= r && Before(r, k, t.next, t.part))
               && (times == 0 <==> r < u.first && !Before(r, k, t.next, t.part)))
  {
    var s := Exec(f, Initial(), actions);
    AlwaysInv(f, actions);
    var t, u := s.tenures[i], s.tenures[i + 1];
    SpanCovers(f, s.log, t, r, k);
    SpanCovers(f, s.log, u, r, k);
    CoveringTwo(SpanOf(f, s.log, t), SpanOf(f, s.log, u), Position(f, s.log, r, k));
  }

  /** Every replica waits for a record that has not been appended yet. */
  predicate CaughtUp<M, O, T>(s: State<M, O, T>) {
    forall id :: id in s.replicas ==> s.replicas[id].phase.Ready? && s.replicas[id].offset == |s.log|
  }

  /** Nothing is appended and nobody new is started. */
  predicate NothingNew<O>(actions: seq<Action<O>>) {
    forall i :: 0 <= i < |actions| ==> !actions[i].Append? && !actions[i].Launch?
  }

  lemma StillWaiting<M, O, T>(f: Service<M, O, T>, s: State<M, O, T>, a: Action<O>)
    requires CaughtUp(s) && s.lock.None? && !a.Append? && !a.Launch?
    ensures var s' := Next(f, s, a);
      && CaughtUp(s') && s'.lock.None?
      && s'.log == s.log && s'.topic == s.topic && s'.tenures == s.tenures
  {
  }

  /** A lock that nobody holds is not even tried for, as long as nothing is appended. */
  lemma {:induction false} LockStaysFree<M, O, T>(f: Service<M, O, T>, s: State<M, O, T>, actions: seq<Action<O>>)
    requires CaughtUp(s) && s.lock.None? && NothingNew(actions)
    ensures var s' := Exec(f, s, actions);
      && CaughtUp(s') && s'.lock.None?
      && s'.log == s.log && s'.topic == s.topic && s'.tenures == s.tenures
  {
    if actions != [] {
      LockStaysFree(f, s, actions[..|actions| - 1]);
      StillWaiting(f, Exec(f, s, actions[..|actions| - 1]), actions[|actions| - 1]);
    }
  }

  /** All replicas wait for record `n`, or have popped it and not yet tried the lock, which is free. */
  predicate Waiting<M, O, T>(s: State<M, O, T>, n: nat) {
    && s.lock.None? && n <= |s.log|
    && forall id :: id in s.replicas ==>
         var r := s.replicas[id];
         && !r.active
         && ((r.phase.Ready? && r.offset == n) || (r.phase.Popped? && r.offset == n + 1 <= |s.log|))
  }

  /** The first replica to try the lock gets it, with record `n` as its first. */
  lemma FirstTryWins<M, O, T>(f: Service<M, O, T>, s: State<M, O, T>, n: nat, id: nat)
    requires Waiting(s, n) && id in s.replicas && s.replicas[id].phase.Popped?
    ensures var s' := Next(f, s, Promote(id));
      && s'.lock == Some(id) && s'.tenures == s.tenures + [Tenure(id, s.replicas[id].base, n, n, 0)]
      && s'.log == s.log && s'.topic == s.topic
  {
  }

  /** Any other step leaves all waiting. */
  lemma OthersWait<M, O, T>(f: Service<M, O, T>, s: State<M, O, T>, n: nat, a: Action<O>)
    requires Waiting(s, n) && !a.Launch?
    requires a.Promote? && a.id in s.replicas ==> !s.replicas[a.id].phase.Popped?
    ensures var s' := Next(f, s, a);
      Waiting(s', n) && s'.tenures == s.tenures && s'.topic == s.topic && s.log <= s'.log
  {
  }

  /** The tenure after `before` has record `n` as its first. */
  predicate TookOver(before: seq<Tenure>, tenures: seq<Tenure>, n: nat) {
    before < tenures && tenures[|before|].first == n
  }

  lemma TookOverLasts<M, O, T>(f: Service<M, O, T>, s: State<M, O, T>, before: seq<Tenure>, n: nat, a: Action<O>)
    requires TookOver(before, s.tenures, n)
    ensures TookOver(before, Next(f, s, a).tenures, n) && s.log <= Next(f, s, a).log
  {
  }

  predicate NobodyStarted<O>(actions: seq<Action<O>>) {
    forall i :: 0 <= i < |actions| ==> !actions[i].Launch?
  }

  /**
   Whatever is appended and whoever steps when: either all still wait for record `n` and nothing has been
   published, or somebody has taken over, at record `n`.
   */
  lemma {:induction false} TakeoverAt<M, O, T>(f: Service<M, O, T>, s: State<M, O, T>, n: nat, actions: seq<Action<O>>)
    requires Waiting(s, n) && NobodyStarted(actions)
    ensures var s' := Exec(f, s, actions);
      && s.log <= s'.log
      && ((Waiting(s', n) && s'.tenures == s.tenures && s'.topic == s.topic)
          || (n < |s'.log| && TookOver(s.tenures, s'.tenures, n)))
  {
    if actions != [] {
      var init, a := actions[..|actions| - 1], actions[|actions| - 1];
      TakeoverAt(f, s, n, init);
      var mid := Exec(f, s, init);
      if !(Waiting(mid, n) && mid.tenures == s.tenures && mid.topic == s.topic) {
        TookOverLasts(f, mid, s.tenures, n, a);
      } else if a.Promote? && a.id in mid.replicas && mid.replicas[a.id].phase.Popped? {
        FirstTryWins(f, mid, n, a.id);
      } else {
        OthersWait(f, mid, n, a);
      }
    }
  }

  /**
   Takeover needs a record. In every run in which all replicas have caught up and the leader then dies: for
   every continuation without new processes, either nobody has taken over and the topic is as the leader
   left it, or a record has been appended and the next tenure starts with the first one appended. Nobody
   waits for anything else: a replica that has popped that record and tries the lock while it is free leads.
   */
  lemma TakeoverNeedsRecord<M, O, T>(f: Service<M, O, T>, actions: seq<Action<O>>, leader: nat, more: seq<Action<O>>, id: nat)
    requires var s := Exec(f, Initial(), actions);
      CaughtUp(s) && leader in s.replicas && s.lock == Some(leader) && NobodyStarted(more)
    ensures var s := Exec(f, Initial(), actions);
      var after := Exec(f, Next(f, s, Die(leader)), more);
      && ((after.lock.None? && after.tenures == s.tenures && after.topic == s.topic)
          || (|s.log| < |after.log| && TookOver(s.tenures, after.tenures, |s.log|)))
      && (after.tenures == s.tenures && id in after.replicas && after.replicas[id].phase.Popped? ==>
            Next(f, after, Promote(id)).lock == Some(id))
  {
    var s := Exec(f, Initial(), actions);
    var dead := Next(f, s, Die(leader));
    AlwaysInv(f, actions);
    AllWait(f, s, leader);
    TakeoverAt(f, dead, |s.log|, more);
    var after := Exec(f, dead, more);
    if after.tenures == s.tenures && id in after.replicas && after.replicas[id].phase.Popped? {
      FirstTryWins(f, after, |s.log|, id);
    }
  }

  lemma AllWait<M, O, T>(f: Service<M, O, T>, s: State<M, O, T>, leader: nat)
    requires Inv(f, s) && CaughtUp(s) && leader in s.replicas && s.lock == Some(leader)
    ensures var dead := Next(f, s, Die(leader));
      Waiting(dead, |s.log|) && dead.tenures == s.tenures && dead.topic == s.topic && dead.log == s.log
  {
  }
}
