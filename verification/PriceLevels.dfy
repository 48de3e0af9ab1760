/**
 One side of the book as the source stores it, a price-keyed map of FIFO queues (order_book.hpp),
 and its view as a single queue in the order in which the matching loop visits it.
 */
module PriceLevels {
  import opened Orders

  type Levels = map<real, seq<Order>>

  /** On resting side `s`, price `p` is strictly better than `q`. */
  predicate Ahead(s: Side, p: real, q: real) {
    if s == BUY then p > q else p < q
  }

  /** No level is empty, and every order rests at the level of its own price. */
  predicate WellFormed(m: Levels) {
    forall p :: p in m ==> LevelAt(p, m[p])
  }

  predicate LevelAt(p: real, level: seq<Order>) {
    level != [] && forall i :: 0 <= i < |level| ==> level[i].price == p
  }

  lemma SomeMember<T>(keys: set<T>) returns (k: T)
    requires keys != {}
    ensures k in keys
  {
    k :| k in keys;
  }

  /** Every non-empty set of prices has a best one. */
  lemma {:induction false} BestExists(s: Side, keys: set<real>) returns (p: real)
    requires keys != {}
    ensures p in keys && forall q :: q in keys && q != p ==> Ahead(s, p, q)
  {
    var k := SomeMember(keys);
    var others := keys - {k};
    assert forall q :: q in keys ==> q == k || q in others;
    p := k;
    if others != {} {
      var b := BestExists(s, others);
      assert b in keys && b != k;
      if Ahead(s, b, k) {
        p := b;
      }
    }
  }

  /** The key of `begin()`: the highest bid or the lowest ask. */
  function Best(s: Side, m: Levels): (p: real)
    requires m != map[]
    ensures p in m && forall q :: q in m && q != p ==> Ahead(s, p, q)
  {
    assert exists p :: p in m && forall q :: q in m && q != p ==> Ahead(s, p, q) by {
      var k := BestExists(s, m.Keys);
      assert k in m;
    }
    var p :| p in m && forall q :: q in m && q != p ==> Ahead(s, p, q);
    p
  }

  /** All orders of the side, best level first and each level front to back. */
  ghost function Queue(s: Side, m: Levels): seq<Order>
    decreases |m|
  {
    if m == map[] then [] else
      var p := Best(s, m);
      assert |m - {p}| < |m| by { RemovedKeys(m, p); }
      m[p] + Queue(s, m - {p})
  }

  lemma RemovedKeys(m: Levels, p: real)
    requires p in m
    ensures (m - {p}).Keys == m.Keys - {p} && |m - {p}| == |m| - 1
  {
  }

  /** The orders of `q` at price `p`, in order. */
  ghost function AtPrice(q: seq<Order>, p: real): seq<Order> {
    if q == [] then [] else (if q[0].price == p then [q[0]] else []) + AtPrice(q[1..], p)
  }

  lemma {:induction false} AtPriceConcat(a: seq<Order>, b: seq<Order>, p: real)
    ensures AtPrice(a + b, p) == AtPrice(a, p) + AtPrice(b, p)
  {
    if a == [] {
      assert a + b == b;
    } else {
      assert (a + b)[1..] == a[1..] + b && (a + b)[0] == a[0];
      AtPriceConcat(a[1..], b, p);
      var here := if a[0].price == p then [a[0]] else [];
      assert here + (AtPrice(a[1..], p) + AtPrice(b, p)) == here + AtPrice(a[1..], p) + AtPrice(b, p);
    }
  }

  lemma {:induction false} AtPriceLevel(level: seq<Order>, p: real, k: real)
    requires forall i :: 0 <= i < |level| ==> level[i].price == k
    ensures AtPrice(level, p) == if p == k then level else []
  {
    if level != [] {
      AtPriceLevel(level[1..], p, k);
    }
  }

  /** The queue loses nothing: each level is read back from it, so equal queues mean equal maps. */
  lemma {:induction false} QueueDeterminesLevel(s: Side, m: Levels, p: real)
    requires WellFormed(m)
    ensures AtPrice(Queue(s, m), p) == if p in m then m[p] else []
    decreases |m|
  {
    if m != map[] {
      var k := Best(s, m);
      RemovedKeys(m, k);
      QueueDeterminesLevel(s, m - {k}, p);
      AtPriceConcat(m[k], Queue(s, m - {k}), p);
      AtPriceLevel(m[k], p, k);
    }
  }

  lemma {:induction false} QueueInjective(s: Side, m: Levels, n: Levels)
    requires WellFormed(m) && WellFormed(n) && Queue(s, m) == Queue(s, n)
    ensures m == n
  {
    forall p ensures (if p in m then m[p] else []) == (if p in n then n[p] else []) {
      QueueDeterminesLevel(s, m, p);
      QueueDeterminesLevel(s, n, p);
    }
    forall p ensures p in m <==> p in n {
      assert (if p in m then m[p] else []) == (if p in n then n[p] else []);
      assert p in m ==> LevelAt(p, m[p]);
      assert p in n ==> LevelAt(p, n[p]);
    }
    forall p | p in m ensures m[p] == n[p] {
      assert (if p in m then m[p] else []) == (if p in n then n[p] else []);
    }
  }

  /** Every order in the queue comes from a level of the map. */
  lemma {:induction false} QueueMember(s: Side, m: Levels, i: nat)
    requires WellFormed(m) && i < |Queue(s, m)|
    ensures Queue(s, m)[i].price in m
    decreases |m|
  {
    var p := Best(s, m);
    RemovedKeys(m, p);
    assert LevelAt(p, m[p]);
    if i >= |m[p]| {
      QueueMember(s, m - {p}, i - |m[p]|);
    }
  }

  /** Changing or erasing the best level only changes the head of the queue. */
  lemma QueueReplaceBest(s: Side, m: Levels, level: seq<Order>)
    requires m != map[]
    ensures var p := Best(s, m);
      && Queue(s, m) == m[p] + Queue(s, m - {p})
      && Queue(s, m[p := level]) == level + Queue(s, m - {p})
  {
    var p := Best(s, m);
    var m' := m[p := level];
    assert m'.Keys == m.Keys;
    assert Best(s, m') == p;
    assert m' - {p} == m - {p};
  }

  /** Where price-time priority puts a newcomer: behind every order that is at least as good. */
  function Insert(s: Side, q: seq<Order>, o: Order): seq<Order> {
    if q == [] || Ahead(s, o.price, q[0].price) then [o] + q else [q[0]] + Insert(s, q[1..], o)
  }

  lemma {:induction false} InsertAfter(s: Side, a: seq<Order>, b: seq<Order>, o: Order)
    requires forall i :: 0 <= i < |a| ==> !Ahead(s, o.price, a[i].price)
    ensures Insert(s, a + b, o) == a + Insert(s, b, o)
  {
    if a == [] {
      assert a + b == b;
    } else {
      InsertAfter(s, a[1..], b, o);
      assert (a + b)[1..] == a[1..] + b;
    }
  }

  function LevelOrEmpty(m: Levels, p: real): seq<Order> {
    if p in m then m[p] else []
  }

  /** `map[price].push_back(o)` is insertion by price-time priority. */
  lemma {:induction false} QueuePushBack(s: Side, m: Levels, o: Order)
    requires WellFormed(m)
    ensures Queue(s, m[o.price := LevelOrEmpty(m, o.price) + [o]]) == Insert(s, Queue(s, m), o)
    decreases |m|
  {
    if m == map[] || Ahead(s, o.price, Best(s, m)) {
      PushNewBest(s, m, o);
    } else if o.price == Best(s, m) {
      PushOnBest(s, m, o);
    } else {
      var p := Best(s, m);
      RemovedKeys(m, p);
      QueuePushBack(s, m - {p}, o);
      PushBehindBest(s, m, o);
      assert LevelAt(p, m[p]);
      InsertAfter(s, m[p], Queue(s, m - {p}), o);
    }
  }

  lemma PushBehindBest(s: Side, m: Levels, o: Order)
    requires m != map[] && Ahead(s, Best(s, m), o.price)
    ensures var rest := m - {Best(s, m)};
      Queue(s, m[o.price := LevelOrEmpty(m, o.price) + [o]])
        == m[Best(s, m)] + Queue(s, rest[o.price := LevelOrEmpty(rest, o.price) + [o]])
  {
    var p := Best(s, m);
    var m' := m[o.price := LevelOrEmpty(m, o.price) + [o]];
    assert m'.Keys == m.Keys + {o.price};
    assert Best(s, m') == p;
    assert LevelOrEmpty(m - {p}, o.price) == LevelOrEmpty(m, o.price);
    assert m' - {p} == (m - {p})[o.price := LevelOrEmpty(m, o.price) + [o]];
  }

  lemma PushNewBest(s: Side, m: Levels, o: Order)
    requires WellFormed(m) && (m == map[] || Ahead(s, o.price, Best(s, m)))
    ensures Queue(s, m[o.price := LevelOrEmpty(m, o.price) + [o]]) == Insert(s, Queue(s, m), o)
  {
    var m' := m[o.price := LevelOrEmpty(m, o.price) + [o]];
    assert m'.Keys == m.Keys + {o.price};
    assert o.price !in m;
    assert Best(s, m') == o.price;
    assert m' - {o.price} == m;
    assert m != map[] ==> LevelAt(Best(s, m), m[Best(s, m)]);
  }

  lemma PushOnBest(s: Side, m: Levels, o: Order)
    requires WellFormed(m) && m != map[] && o.price == Best(s, m)
    ensures Queue(s, m[o.price := LevelOrEmpty(m, o.price) + [o]]) == Insert(s, Queue(s, m), o)
  {
    var p := o.price;
    assert LevelAt(p, m[p]);
    var tail := Queue(s, m - {p});
    QueueReplaceBest(s, m, m[p] + [o]);
    InsertAfter(s, m[p], tail, o);
    if tail != [] {
      QueueMember(s, m - {p}, 0);
    }
    assert Insert(s, tail, o) == [o] + tail;
    assert m[p] + ([o] + tail) == (m[p] + [o]) + tail;
  }

  /** `q` without its first order that has this id and this price, if any. */
  function Without(q: seq<Order>, id: nat, p: real): seq<Order> {
    if q == [] then [] else
    if q[0].id == id && q[0].price == p then q[1..] else [q[0]] + Without(q[1..], id, p)
  }

  predicate Holds(q: seq<Order>, id: nat, p: real) {
    exists i :: 0 <= i < |q| && q[i].id == id && q[i].price == p
  }

  lemma HoldsCons(q: seq<Order>, id: nat, p: real)
    requires q != []
    ensures Holds(q, id, p) <==> (q[0].id == id && q[0].price == p) || Holds(q[1..], id, p)
  {
    if Holds(q, id, p) {
      var i :| 0 <= i < |q| && q[i].id == id && q[i].price == p;
      assert i > 0 ==> q[1..][i - 1] == q[i];
    }
  }

  lemma {:induction false} WithoutConcat(a: seq<Order>, b: seq<Order>, id: nat, p: real)
    ensures Without(a + b, id, p) == if Holds(a, id, p) then Without(a, id, p) + b else a + Without(b, id, p)
  {
    if a == [] {
      assert a + b == b;
    } else {
      HoldsCons(a, id, p);
      assert (a + b)[1..] == a[1..] + b;
      if a[0].id == id && a[0].price == p {
      } else {
        WithoutConcat(a[1..], b, id, p);
        assert [a[0]] + (a[1..] + Without(b, id, p)) == a + Without(b, id, p);
        assert [a[0]] + (Without(a[1..], id, p) + b) == [a[0]] + Without(a[1..], id, p) + b;
      }
    }
  }

  lemma {:induction false} WithoutAbsent(q: seq<Order>, id: nat, p: real)
    requires !Holds(q, id, p)
    ensures Without(q, id, p) == q
  {
    if q != [] {
      WithoutAbsent(q[1..], id, p);
    }
  }

  /** The map with one level replaced, or erased when the new level is empty. */
  function SetLevel(m: Levels, p: real, level: seq<Order>): Levels {
    if level == [] then m - {p} else m[p := level]
  }

  /** Erasing from one level, and the level itself once empty, erases from the queue. */
  lemma {:induction false} QueueErase(s: Side, m: Levels, id: nat, p: real)
    requires WellFormed(m) && p in m && Holds(m[p], id, p)
    ensures Queue(s, SetLevel(m, p, Without(m[p], id, p))) == Without(Queue(s, m), id, p)
    decreases |m|
  {
    var k := Best(s, m);
    RemovedKeys(m, k);
    WithoutConcat(m[k], Queue(s, m - {k}), id, p);
    var m' := SetLevel(m, p, Without(m[p], id, p));
    if p == k {
      QueueReplaceBest(s, m, Without(m[p], id, p));
    } else {
      assert LevelAt(k, m[k]);
      WithoutAbsent(m[k], id, p);
      QueueErase(s, m - {k}, id, p);
      assert k in m' && m'.Keys <= m.Keys;
      assert Best(s, m') == k;
      assert m' - {k} == SetLevel(m - {k}, p, Without(m[p], id, p));
    }
  }

  /** Erasing what no level holds changes nothing. */
  lemma {:induction false} QueueEraseAbsent(s: Side, m: Levels, id: nat, p: real)
    requires WellFormed(m) && !Holds(LevelOrEmpty(m, p), id, p)
    ensures Without(Queue(s, m), id, p) == Queue(s, m)
    decreases |m|
  {
    if m != map[] {
      var k := Best(s, m);
      RemovedKeys(m, k);
      assert LevelAt(k, m[k]);
      WithoutConcat(m[k], Queue(s, m - {k}), id, p);
      QueueEraseAbsent(s, m - {k}, id, p);
    }
  }
}
