/** Runs of consecutive positions, laid end to end: what a reader read, or a publisher published. */
module Spans {
  import opened Sequences

  /** The positions from `start` up to but not including `end`. */
  datatype Span = Span(start: nat, end: nat)

  function Iota(start: nat, end: nat): (r: seq<nat>)
    ensures |r| == if start < end then end - start else 0
    ensures forall i :: 0 <= i < |r| ==> r[i] == start + i
  {
    if start < end then Iota(start, end - 1) + [end - 1] else []
  }

  function Positions(spans: seq<Span>): seq<nat> {
    if spans == [] then []
    else Positions(spans[..|spans| - 1]) + Iota(spans[|spans| - 1].start, spans[|spans| - 1].end)
  }

  /** The records at these positions. */
  function Select<T>(stream: seq<T>, positions: seq<nat>): seq<T>
    requires forall i :: 0 <= i < |positions| ==> positions[i] < |stream|
  {
    seq(|positions|, i requires 0 <= i < |positions| => stream[positions[i]])
  }

  lemma SelectIota<T>(stream: seq<T>, span: Span)
    requires span.start <= span.end <= |stream|
    ensures Select(stream, Iota(span.start, span.end)) == stream[span.start..span.end]
  {
  }

  predicate Within(spans: seq<Span>, n: nat) {
    forall i :: 0 <= i < |spans| ==> spans[i].start <= spans[i].end <= n
  }

  /** Where the next span must start for nothing to be skipped or repeated. */
  function Reached(spans: seq<Span>): nat {
    if spans == [] then 0 else
      var s := spans[|spans| - 1];
      if s.start < s.end then s.end else Reached(spans[..|spans| - 1])
  }

  /** Every span that is not empty starts where the one before it ended, the first one at zero. */
  predicate Contiguous(spans: seq<Span>) {
    spans == [] ||
    var init, s := spans[..|spans| - 1], spans[|spans| - 1];
    Contiguous(init) && (s.start < s.end ==> s.start == Reached(init))
  }

  lemma {:induction false} IotaSplit(mid: nat, end: nat)
    requires mid <= end
    ensures Iota(0, mid) + Iota(mid, end) == Iota(0, end)
  {
    if mid < end {
      IotaSplit(mid, end - 1);
      Assoc(Iota(0, mid), Iota(mid, end - 1), [end - 1]);
    }
  }

  lemma {:induction false} ContiguousPositions(spans: seq<Span>)
    requires Contiguous(spans)
    ensures Positions(spans) == Iota(0, Reached(spans))
  {
    if spans != [] {
      var init, s := spans[..|spans| - 1], spans[|spans| - 1];
      ContiguousPositions(init);
      if s.start < s.end {
        IotaSplit(s.start, s.end);
      }
    }
  }

  /**
   The spans visit 0, 1, 2 and so on, each position once and in order, if and only if they are
   contiguous.
   */
  lemma {:induction false} ExactlyOnce(spans: seq<Span>)
    ensures Contiguous(spans) <==> Positions(spans) == Iota(0, |Positions(spans)|)
  {
    if Contiguous(spans) {
      ContiguousPositions(spans);
    }
    var all := Positions(spans);
    if spans != [] && all == Iota(0, |all|) {
      var init, s := spans[..|spans| - 1], spans[|spans| - 1];
      var before := Positions(init);
      assert before == all[..|before|] == Iota(0, |before|);
      ExactlyOnce(init);
      ContiguousPositions(init);
      if s.start < s.end {
        assert all[|before|] == s.start;
      }
    }
  }

  /** How many spans cover position `p`. */
  function Covering(spans: seq<Span>, p: nat): nat {
    if spans == [] then 0 else
      var s := spans[|spans| - 1];
      Covering(spans[..|spans| - 1], p) + if s.start <= p < s.end then 1 else 0
  }

  lemma {:induction false} RunCount(a: seq<nat>, start: nat, p: nat)
    requires forall i :: 0 <= i < |a| ==> a[i] == start + i
    ensures multiset(a)[p] == if start <= p < start + |a| then 1 else 0
  {
    if a != [] {
      var n := |a| - 1;
      assert a == a[..n] + [a[n]];
      RunCount(a[..n], start, p);
    }
  }

  /** Each position is visited exactly as often as spans cover it: skipped by none, repeated by two. */
  lemma {:induction false} VisitedAsCovered(spans: seq<Span>, p: nat)
    ensures multiset(Positions(spans))[p] == Covering(spans, p)
  {
    if spans != [] {
      var s := spans[|spans| - 1];
      VisitedAsCovered(spans[..|spans| - 1], p);
      RunCount(Iota(s.start, s.end), s.start, p);
    }
  }

  lemma CoveringTwo(a: Span, b: Span, p: nat)
    ensures Covering([a, b], p) == (if a.start <= p < a.end then 1 else 0) + (if b.start <= p < b.end then 1 else 0)
  {
    assert [a, b][..1] == [a] && [a][..0] == [];
    assert Covering([a], p) == if a.start <= p < a.end then 1 else 0;
  }

  function Grow(spans: seq<Span>): seq<Span>
    requires spans != []
  {
    var n := |spans| - 1;
    spans[..n] + [Span(spans[n].start, spans[n].end + 1)]
  }

  lemma SplitLast(init: seq<Span>, s: Span)
    ensures Positions(init + [s]) == Positions(init) + Iota(s.start, s.end)
    ensures Reached(init + [s]) == if s.start < s.end then s.end else Reached(init)
    ensures Contiguous(init + [s]) <==> Contiguous(init) && (s.start < s.end ==> s.start == Reached(init))
  {
  }

  lemma GrowPositions(spans: seq<Span>)
    requires spans != [] && spans[|spans| - 1].start <= spans[|spans| - 1].end
    ensures Positions(Grow(spans)) == Positions(spans) + [spans[|spans| - 1].end]
  {
    var n := |spans| - 1;
    var s, grown := spans[n], Grow(spans);
    assert grown[..n] == spans[..n];
    Assoc(Positions(spans[..n]), Iota(s.start, s.end), [s.end]);
  }
}
