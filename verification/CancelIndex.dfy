/** The cancel index against the book it indexes. */
module CancelIndex {
  import opened Sequences
  import opened Orders
  import opened PriceLevels
  import opened Matching
  import opened Exchange
  import opened BookInvariants
  import opened Greedy

  type Index = map<nat, CancelInfo>

  /** Every order of `q`, resting on side `s`, is indexed under that side and its own price. */
  predicate Indexed(s: Side, q: seq<Order>, index: Index) {
    forall i :: 0 <= i < |q| ==> q[i].id in index && index[q[i].id] == CancelInfo(s, q[i].price)
  }

  predicate DistinctIds(q: seq<Order>) {
    forall i, j :: 0 <= i < j < |q| ==> q[i].id != q[j].id
  }

  /** Every entry of side `s` names the price level of `q` at which its order rests. */
  predicate Backed(s: Side, q: seq<Order>, index: Index) {
    forall id :: id in index && index[id].side == s ==> Holds(q, id, index[id].price)
  }

  predicate SideAgrees(s: Side, q: seq<Order>, index: Index) {
    Indexed(s, q, index) && DistinctIds(q) && Backed(s, q, index)
  }

  /** The index holds exactly the resting ids, each at the one place where the order rests. */
  predicate Agrees(b: Book) {
    SideAgrees(BUY, b.bids, b.index) && SideAgrees(SELL, b.asks, b.index)
  }

  /** Removing entries that belong to the other side. */
  lemma OtherSideAgrees(s: Side, q: seq<Order>, index: Index, ids: set<nat>)
    requires SideAgrees(s, q, index)
    requires forall id :: id in ids && id in index ==> index[id].side != s
    ensures SideAgrees(s, q, index - ids)
  {
  }

  /** `rest` is `q` without its first orders, whose ids are `gone`; only remainders may differ. */
  predicate Drops(q: seq<Order>, rest: seq<Order>, gone: seq<nat>) {
    && |gone| + |rest| == |q|
    && (forall j :: 0 <= j < |gone| ==> gone[j] == q[j].id)
    && forall i :: 0 <= i < |rest| ==> rest[i].id == q[i + |gone|].id && rest[i].price == q[i + |gone|].price
  }

  /** Dropping a prefix of the queue, and its ids from the index. */
  lemma DroppedSideAgrees(s: Side, index: Index, q: seq<Order>, rest: seq<Order>, gone: seq<nat>)
    requires SideAgrees(s, q, index) && Drops(q, rest, gone)
    ensures SideAgrees(s, rest, index - Elements(gone))
    ensures forall id :: id in Elements(gone) ==> id in index && index[id].side == s
  {
    var k := |gone|;
    var index' := index - Elements(gone);
    forall id | id in index' && index'[id].side == s ensures Holds(rest, id, index'[id].price) {
      var i :| 0 <= i < |q| && q[i].id == id && q[i].price == index[id].price;
      assert i >= k;
      assert rest[i - k].id == id;
    }
  }

  lemma SweepDrops(inc: Order, qty: nat, q: seq<Order>, now: nat)
    ensures var r := Sweep(inc, qty, q, now); Drops(q, r.rest, r.gone)
  {
    var r := Sweep(inc, qty, q, now);
    SweepRest(inc, qty, q, now);
    forall j | 0 <= j < |r.gone| ensures r.gone[j] == q[j].id { SweepGone(inc, qty, q, now, j); }
    forall i | 0 <= i < |r.rest|
      ensures r.rest[i].id == q[i + |r.gone|].id && r.rest[i].price == q[i + |r.gone|].price
    {
      SweepRestAt(inc, qty, q, now, i);
    }
  }

  lemma SweptSideAgrees(s: Side, index: Index, inc: Order, qty: nat, q: seq<Order>, now: nat)
    requires SideAgrees(s, q, index)
    ensures var r := Sweep(inc, qty, q, now);
      && SideAgrees(s, r.rest, index - Elements(r.gone))
      && (forall id :: id in Elements(r.gone) ==> id in index && index[id].side == s)
  {
    var r := Sweep(inc, qty, q, now);
    SweepDrops(inc, qty, q, now);
    DroppedSideAgrees(s, index, q, r.rest, r.gone);
  }

  /** After the matching loop the index is exact again: filled orders left both, the others neither. */
  lemma SweptAgrees(e: Engine, o: Order)
    requires Agrees(e.book)
    ensures Agrees(SweptBook(e.book, Opposite(o.side), SweepOf(e, o)))
  {
    var s := Opposite(o.side);
    SweptSideAgrees(s, e.book.index, Stamped(o, e.nextTs), o.quantity, e.book.Resting(s), e.nextTs + 1);
    OtherSideAgrees(o.side, e.book.Resting(o.side), e.book.index, Elements(SweepOf(e, o).gone));
  }

  lemma InsertedAt(q: seq<Order>, q': seq<Order>, o: Order, k: nat)
    requires k <= |q| && q' == q[..k] + [o] + q[k..]
    ensures |q'| == |q| + 1 && forall i :: 0 <= i < |q'| ==> q'[i] == if i == k then o else q[if i < k then i else i - 1]
  {
  }

  lemma InsertedIndexed(s: Side, q: seq<Order>, q': seq<Order>, index: Index, o: Order, k: nat)
    requires k <= |q| && q' == q[..k] + [o] + q[k..] && Indexed(s, q, index) && DistinctIds(q) && o.id !in index
    ensures Indexed(s, q', index[o.id := CancelInfo(s, o.price)]) && DistinctIds(q')
  {
    InsertedAt(q, q', o, k);
    forall i | 0 <= i < |q'| && i != k ensures q'[i].id != o.id {
      assert q'[i] == q[if i < k then i else i - 1];
    }
  }

  lemma InsertSideAgrees(s: Side, q: seq<Order>, index: Index, o: Order)
    requires SideAgrees(s, q, index) && o.id !in index
    ensures SideAgrees(s, Insert(s, q, o), index[o.id := CancelInfo(s, o.price)])
  {
    var q' := Insert(s, q, o);
    var index' := index[o.id := CancelInfo(s, o.price)];
    var k := InsertSplits(s, q, o);
    InsertedIndexed(s, q, q', index, o, k);
    forall id | id in index' && index'[id].side == s ensures Holds(q', id, index'[id].price) {
      if id == o.id {
        assert q'[k].id == id;
      } else {
        var i :| 0 <= i < |q| && q[i].id == id && q[i].price == index[id].price;
        assert q'[if i < k then i else i + 1] == q[i];
      }
    }
  }

  lemma AddAgrees(b: Book, o: Order)
    requires Agrees(b) && o.id !in b.index
    ensures Agrees(AddResting(b, o))
  {
    InsertSideAgrees(o.side, b.Resting(o.side), b.index, o);
    var s := Opposite(o.side);
    assert SideAgrees(s, b.Resting(s), b.index);
    assert SideAgrees(s, b.Resting(s), b.index[o.id := CancelInfo(o.side, o.price)]);
  }

  /** An id that rests twice cannot be described by an index with one entry for it. */
  lemma TwiceDisagrees(b: Book, o: Order)
    requires Agrees(b) && o.id in b.index
    ensures !Agrees(AddResting(b, o))
  {
    var info := b.index[o.id];
    var q := b.Resting(info.side);
    assert Backed(info.side, q, b.index);
    var i :| 0 <= i < |q| && q[i].id == o.id && q[i].price == info.price;
    if info.side == o.side {
      TwiceInQueue(o.side, q, o, i);
    } else {
      assert !Indexed(info.side, q, b.index[o.id := CancelInfo(o.side, o.price)]);
    }
  }

  lemma TwiceInQueue(s: Side, q: seq<Order>, o: Order, i: nat)
    requires i < |q| && q[i].id == o.id
    ensures !DistinctIds(Insert(s, q, o))
  {
    var q' := Insert(s, q, o);
    var k := InsertSplits(s, q, o);
    var j := if i < k then i else i + 1;
    assert q'[k] == o && q'[j] == q[i];
    assert if j < k then q'[j].id == q'[k].id else q'[k].id == q'[j].id;
  }

  /**
   Seen from before the call: the order will be accepted and rest with a remainder, and its id is that
   of an order that will still be resting then (one on its own side, or one it does not cross).
   */
  predicate Clashes(e: Engine, o: Order) {
    && Accepts(e, o) && o.kind == LIMIT
    && CrossVolume(o, e.book.Resting(Opposite(o.side))) < o.quantity
    && o.id in e.book.index
    && (e.book.index[o.id].side == o.side || !Crosses(o, e.book.index[o.id].price))
  }

  lemma {:induction false} SameCross(a: Order, b: Order, q: seq<Order>)
    requires a.kind == b.kind && a.side == b.side && a.price == b.price
    ensures CrossVolume(a, q) == CrossVolume(b, q)
  {
    if q != [] {
      SameCross(a, b, q[1..]);
    }
  }

  lemma PrefixIds(s: Side, index: Index, inc: Order, q: seq<Order>, gone: seq<nat>, id: nat)
    requires SideAgrees(s, q, index) && id in index && |gone| <= |q|
    requires forall j :: 0 <= j < |gone| ==> gone[j] == q[j].id
    requires forall i :: 0 <= i < |q| ==> (Crosses(inc, q[i].price) <==> i < |gone|)
    ensures id in gone <==> index[id].side == s && Crosses(inc, index[id].price)
  {
    if index[id].side == s {
      var i :| 0 <= i < |q| && q[i].id == id && q[i].price == index[id].price;
      assert i < |gone| ==> gone[i] == id;
    }
  }

  /** Once an order has a remainder, the swept ids are exactly the resting ids it crosses. */
  lemma SweptIds(s: Side, index: Index, inc: Order, qty: nat, q: seq<Order>, now: nat, id: nat)
    requires s == Opposite(inc.side) && GoodSide(s, q, now) && SideAgrees(s, q, index) && id in index
    requires Sweep(inc, qty, q, now).left > 0
    ensures id in Sweep(inc, qty, q, now).gone <==> index[id].side == s && Crosses(inc, index[id].price)
  {
    var r := Sweep(inc, qty, q, now);
    var k := |r.gone|;
    SweepRest(inc, qty, q, now);
    forall i | 0 <= i < |q| ensures (Crosses(inc, q[i].price) <==> i < k) && (i < k ==> r.gone[i] == q[i].id) {
      if i < k {
        SweepTrade(inc, qty, q, now, i);
      } else {
        SweepRestAt(inc, qty, q, now, i - k);
        RemainderDoesNotCross(inc, qty, q, now, now, i - k);
      }
    }
    PrefixIds(s, index, inc, q, r.gone, id);
  }

  /**
   A submission keeps the index exact if and only if it does not clash; in particular whenever its id
   is not resting already.
   */
  lemma SubmitAgrees(e: Engine, o: Order)
    requires Good(e) && Agrees(e.book)
    ensures Agrees(Submit(e, o).0.book) <==> !Clashes(e, o)
  {
    if Accepts(e, o) {
      var s := Opposite(o.side);
      var q := e.book.Resting(s);
      var inc := Stamped(o, e.nextTs);
      var r := SweepOf(e, o);
      SweptAgrees(e, o);
      if r.left > 0 && o.kind == LIMIT {
        RestAgrees(SweptBook(e.book, s, r), inc.(remaining := r.left));
      }
      ClashesSeenLater(e, o);
    }
  }

  lemma ClashesSeenLater(e: Engine, o: Order)
    requires Good(e) && Agrees(e.book) && Accepts(e, o)
    ensures var r := SweepOf(e, o);
      Clashes(e, o) <==> r.left > 0 && o.kind == LIMIT && o.id in e.book.index - Elements(r.gone)
  {
    var s := Opposite(o.side);
    var q := e.book.Resting(s);
    var inc := Stamped(o, e.nextTs);
    TradedVolume(inc, o.quantity, q, e.nextTs + 1);
    SameCross(o, inc, q);
    if SweepOf(e, o).left > 0 && o.id in e.book.index {
      MoreTime(s, q, e.nextTs, e.nextTs + 1);
      SweptIds(s, e.book.index, inc, o.quantity, q, e.nextTs + 1, o.id);
    }
  }

  lemma RestAgrees(b: Book, o: Order)
    requires Agrees(b)
    ensures Agrees(AddResting(b, o)) <==> o.id !in b.index
  {
    if o.id in b.index {
      TwiceDisagrees(b, o);
    } else {
      AddAgrees(b, o);
    }
  }

  lemma DropAgrees(s: Side, q: seq<Order>, index: Index, k: nat)
    requires SideAgrees(s, q, index) && k < |q|
    ensures SideAgrees(s, q[..k] + q[k + 1..], index - {q[k].id})
  {
    var q' := q[..k] + q[k + 1..];
    var index' := index - {q[k].id};
    forall i | 0 <= i < |q'| ensures q'[i] == q[if i < k then i else i + 1] && q'[i].id in index' {
      assert i >= k ==> q[k].id != q[i + 1].id;
    }
    assert DistinctIds(q');
    forall x | x in index' && index'[x].side == s ensures Holds(q', x, index'[x].price) {
      var i :| 0 <= i < |q| && q[i].id == x && q[i].price == index[x].price;
      assert q'[if i < k then i else i - 1] == q[i];
    }
  }

  lemma CancelledSideAgrees(s: Side, q: seq<Order>, index: Index, id: nat)
    requires SideAgrees(s, q, index) && id in index && index[id].side == s
    ensures SideAgrees(s, Without(q, id, index[id].price), index - {id})
  {
    var k := WithoutSplits(q, id, index[id].price);
    assert Holds(q, id, index[id].price);
    DropAgrees(s, q, index, k);
  }

  lemma CancelAgrees(e: Engine, id: nat)
    requires Agrees(e.book)
    ensures Agrees(Cancel(e, id).0.book)
  {
    if id in e.book.index {
      var s := e.book.index[id].side;
      CancelledSideAgrees(s, e.book.Resting(s), e.book.index, id);
      OtherSideAgrees(Opposite(s), e.book.Resting(Opposite(s)), e.book.index, {id});
    }
  }

  /** No submission of the run clashes when its turn comes. */
  predicate NoClash(e: Engine, ops: seq<Op>) {
    ops == [] ||
    (&& NoClash(e, ops[..|ops| - 1])
     && (ops[|ops| - 1].SubmitOp? ==> !Clashes(Run(e, ops[..|ops| - 1]).0, ops[|ops| - 1].order)))
  }

  /** The index agrees with the book at every point of the run. */
  predicate AgreesThroughout(e: Engine, ops: seq<Op>) {
    forall n :: 0 <= n <= |ops| ==> Agrees(Run(e, ops[..n]).0.book)
  }

  lemma Prefixes<T>(s: seq<T>, holds: seq<T> -> bool)
    requires s != []
    ensures var init := s[..|s| - 1];
      (forall n :: 0 <= n <= |s| ==> holds(s[..n])) <==> (forall n :: 0 <= n <= |init| ==> holds(init[..n])) && holds(s)
  {
    var init := s[..|s| - 1];
    assert s[..|s|] == s;
    assert forall n :: 0 <= n <= |init| ==> init[..n] == s[..n];
  }

  lemma ThroughoutInit(e: Engine, ops: seq<Op>)
    requires ops != []
    ensures AgreesThroughout(e, ops) <==> AgreesThroughout(e, ops[..|ops| - 1]) && Agrees(Run(e, ops).0.book)
  {
    Prefixes(ops, (run: seq<Op>) => Agrees(Run(e, run).0.book));
  }

  lemma StepAgrees(e: Engine, op: Op)
    requires Good(e) && Agrees(e.book)
    ensures Agrees(Step(e, op).0.book) <==> (op.SubmitOp? ==> !Clashes(e, op.order))
  {
    match op {
      case SubmitOp(o) => SubmitAgrees(e, o);
      case CancelOp(id) => CancelAgrees(e, id);
    }
  }

  /** The index agrees with the book all along a run if and only if no submission clashes. */
  lemma {:induction false} RunAgrees(e: Engine, ops: seq<Op>)
    requires Good(e) && Agrees(e.book)
    ensures NoClash(e, ops) <==> AgreesThroughout(e, ops)
  {
    if ops == [] {
      assert ops[..0] == ops;
    } else {
      var init := ops[..|ops| - 1];
      RunGood(e, init);
      RunAgrees(e, init);
      ThroughoutInit(e, ops);
      assert AgreesThroughout(e, init) ==> Agrees(Run(e, init[..|init|]).0.book) && init[..|init|] == init;
      if Agrees(Run(e, init).0.book) {
        StepAgrees(Run(e, init).0, ops[|ops| - 1]);
      }
    }
  }

  predicate SubmitsOnce(ops: seq<Op>) {
    forall i, j :: 0 <= i < j < |ops| && ops[i].SubmitOp? && ops[j].SubmitOp? ==> ops[i].order.id != ops[j].order.id
  }

  predicate Submitted(ops: seq<Op>, id: nat) {
    exists i :: 0 <= i < |ops| && ops[i].SubmitOp? && ops[i].order.id == id
  }

  lemma {:induction false} IndexedWasSubmitted(band: real, ops: seq<Op>, id: nat)
    requires id in Run(Fresh(band), ops).0.book.index
    ensures Submitted(ops, id)
  {
    if ops != [] {
      var init := ops[..|ops| - 1];
      var op := ops[|ops| - 1];
      if op.SubmitOp? && op.order.id == id {
        assert Submitted(ops, id);
      } else {
        IndexedWasSubmitted(band, init, id);
        var i :| 0 <= i < |init| && init[i].SubmitOp? && init[i].order.id == id;
        assert ops[i] == init[i];
      }
    }
  }

  /** When no id is submitted twice, the index agrees with the book in every reachable state. */
  lemma {:induction false} DistinctSubmissionsAgree(band: real, ops: seq<Op>)
    requires SubmitsOnce(ops)
    ensures NoClash(Fresh(band), ops) && Agrees(Run(Fresh(band), ops).0.book)
  {
    if ops != [] {
      var init := ops[..|ops| - 1];
      var op := ops[|ops| - 1];
      DistinctSubmissionsAgree(band, init);
      if op.SubmitOp? && op.order.id in Run(Fresh(band), init).0.book.index {
        IndexedWasSubmitted(band, init, op.order.id);
        assert false;
      }
    }
    RunAgrees(Fresh(band), ops);
    assert ops[..|ops|] == ops;
  }

  /** Resting under either side of the book. */
  predicate Rests(b: Book, id: nat) {
    exists s: Side, i: nat :: i < |b.Resting(s)| && b.Resting(s)[i].id == id
  }

  /**
   Where the index agrees, cancelling succeeds exactly for resting ids, and takes out that order and
   its entry and nothing else: the other orders keep their places.
   */
  lemma CancelExact(e: Engine, id: nat) returns (k: nat)
    requires Agrees(e.book)
    ensures Cancel(e, id).1 <==> Rests(e.book, id)
    ensures !Cancel(e, id).1 ==> Cancel(e, id).0 == e
    ensures Cancel(e, id).1 ==>
      var b, b' := e.book, Cancel(e, id).0.book;
      && id in b.index && b'.index == b.index - {id}
      && var s := b.index[id].side;
         var q := b.Resting(s);
         && k < |q| && q[k].id == id
         && b' == b.WithResting(s, q[..k] + q[k + 1..]).(index := b'.index)
         && !Rests(b', id)
  {
    k := 0;
    if id in e.book.index {
      var info := e.book.index[id];
      var q := e.book.Resting(info.side);
      k := WithoutSplits(q, id, info.price);
      assert Holds(q, id, info.price);
      assert e.book.Resting(info.side)[k].id == id;
      CancelAgrees(e, id);
      assert !Rests(Cancel(e, id).0.book, id);
    } else {
      assert !Rests(e.book, id);
    }
  }

  lemma {:induction false} WithoutInsert(s: Side, q: seq<Order>, o: Order)
    requires !Holds(q, o.id, o.price)
    ensures Without(Insert(s, q, o), o.id, o.price) == q
  {
    if q == [] || Ahead(s, o.price, q[0].price) {
    } else {
      WithoutInsert(s, q[1..], o);
      assert q[0].id != o.id || q[0].price != o.price;
    }
  }

  /** A LIMIT order that rests without trading is undone by cancelling it, but for the clock. */
  lemma SubmitThenCancel(e: Engine, o: Order)
    requires Agrees(e.book) && o.id !in e.book.index
    requires Accepts(e, o) && o.kind == LIMIT && o.quantity > 0
    requires var q := e.book.Resting(Opposite(o.side)); q == [] || !Crosses(o, q[0].price)
    ensures Submit(e, o).1 == Filled([]) && Rests(Submit(e, o).0.book, o.id)
    ensures Cancel(Submit(e, o).0, o.id) == (e.(nextTs := e.nextTs + 1), true)
  {
    RestsWhole(e, o);
    AddThenCancel(e.book, Stamped(o, e.nextTs));
  }

  lemma RestsWhole(e: Engine, o: Order)
    requires Accepts(e, o) && o.kind == LIMIT && o.quantity > 0
    requires var q := e.book.Resting(Opposite(o.side)); q == [] || !Crosses(o, q[0].price)
    ensures Submit(e, o) == (e.(book := AddResting(e.book, Stamped(o, e.nextTs)), nextTs := e.nextTs + 1), Filled([]))
  {
    assert SweepOf(e, o) == Outcome([], e.book.Resting(Opposite(o.side)), o.quantity, []);
    assert e.book.index - Elements([]) == e.book.index;
  }

  lemma AddThenCancel(b: Book, o: Order)
    requires Agrees(b) && o.id !in b.index
    ensures CancelBook(AddResting(b, o), o.id) == (b, true) && Rests(AddResting(b, o), o.id)
  {
    var q := b.Resting(o.side);
    assert SideAgrees(o.side, q, b.index);
    WithoutInsert(o.side, q, o);
    var k := InsertSplits(o.side, q, o);
    assert AddResting(b, o).Resting(o.side)[k].id == o.id;
    assert AddResting(b, o).index - {o.id} == b.index;
  }

  /**
   Reusing a resting id breaks the index for good: here the second order takes over the entry of the
   first, and once it is cancelled the first still rests but can no longer be cancelled.
   */
  lemma ReusedIdExample(a: Order, b: Order)
    requires a.side == BUY && a.kind == LIMIT && a.price == 1.0 && a.quantity == 1
    requires b == a.(price := 2.0)
    ensures var e := Run(Fresh(0.1), [SubmitOp(a), SubmitOp(b), CancelOp(a.id)]).0;
            Rests(e.book, a.id) && Cancel(e, a.id) == (e, false)
  {
    var ops := [SubmitOp(a), SubmitOp(b), CancelOp(a.id)];
    assert ops[..2] == [SubmitOp(a), SubmitOp(b)] && ops[..2][..1] == [SubmitOp(a)] && ops[..2][..1][..0] == [];
    var e0 := Fresh(0.1);
    var e1 := Step(e0, ops[0]).0;
    assert Run(e0, ops[..2][..1]).0 == e1;
    assert e1.book.bids == [Stamped(a, 1)];
    var e2 := Step(e1, ops[1]).0;
    assert Run(e0, ops[..2]).0 == e2;
    assert e2.book.bids == [Stamped(b, 2), Stamped(a, 1)];
    assert e2.book.index[a.id] == CancelInfo(BUY, 2.0);
    var e3 := Step(e2, ops[2]).0;
    assert Run(e0, ops).0 == e3;
    assert e3.book.Resting(BUY)[0].id == a.id;
  }
}
