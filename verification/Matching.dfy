/**
 The matching loop (matching_engine.cpp) as a recursion over the opposite queue, best order first.
 `MatchingEngine.MatchAgainst` is the loop itself, over price levels, and is proved to compute this.
 */
module Matching {
  import opened Orders

  /** The limit test of the loop: does the incoming order trade at this resting price? */
  predicate Crosses(inc: Order, p: real) {
    inc.kind == MARKET || (if inc.side == BUY then p <= inc.price else p >= inc.price)
  }

  function MakeTrade(inc: Order, front: Order, fill: nat, now: nat): Trade {
    if inc.side == BUY
    then Trade(inc.id, front.id, front.price, fill, now)
    else Trade(front.id, inc.id, front.price, fill, now)
  }

  /** `gone` lists the ids of the resting orders that were filled completely. */
  datatype Outcome = Outcome(trades: seq<Trade>, rest: seq<Order>, left: nat, gone: seq<nat>)

  /** Match `qty` units of `inc` against queue `q`; the first trade gets timestamp `now`. */
  function Sweep(inc: Order, qty: nat, q: seq<Order>, now: nat): Outcome {
    if qty == 0 || q == [] || !Crosses(inc, q[0].price) then Outcome([], q, qty, [])
    else if q[0].remaining <= qty then
      var r := Sweep(inc, qty - q[0].remaining, q[1..], now + 1);
      Outcome([MakeTrade(inc, q[0], q[0].remaining, now)] + r.trades, r.rest, r.left, [q[0].id] + r.gone)
    else
      Outcome([MakeTrade(inc, q[0], qty, now)], [q[0].(remaining := q[0].remaining - qty)] + q[1..], 0, [])
  }

  /** A sweep that the only order in the queue can fill. */
  lemma SweepOne(inc: Order, qty: nat, front: Order, now: nat)
    requires 0 < qty <= front.remaining && Crosses(inc, front.price)
    ensures var filled := qty == front.remaining;
      Sweep(inc, qty, [front], now)
        == Outcome([MakeTrade(inc, front, qty, now)], if filled then [] else [front.(remaining := front.remaining - qty)],
                   0, if filled then [front.id] else [])
  {
    assert [front][1..] == [];
  }

  /** Units traded with the order that is partly filled and stays at the head of the queue. */
  function HeadTraded(r: Outcome): nat {
    if |r.trades| > |r.gone| then r.trades[|r.gone|].quantity else 0
  }

  /** `r` comes from trading with a prefix of `q`, of which only the last trade may fill an order partly. */
  predicate TakesPrefix(inc: Order, q: seq<Order>, r: Outcome) {
    var k := |r.gone|;
    && k <= |q| && |r.rest| == |q| - k && k <= |r.trades| <= k + 1 && |r.trades| <= |q|
    && (r.rest != [] ==> && r.rest[1..] == q[k + 1..]
                         && r.rest[0] == q[k].(remaining := r.rest[0].remaining)
                         && r.rest[0].remaining + HeadTraded(r) == q[k].remaining)
    && (|r.trades| == k + 1 ==> r.left == 0 && 0 < HeadTraded(r) < q[k].remaining)
    && (r.left > 0 && r.rest != [] ==> !Crosses(inc, r.rest[0].price))
  }

  lemma TakesOneMore(inc: Order, q: seq<Order>, r: Outcome, t: Trade, id: nat)
    requires q != [] && TakesPrefix(inc, q[1..], r)
    ensures TakesPrefix(inc, q, Outcome([t] + r.trades, r.rest, r.left, [id] + r.gone))
  {
    var k := |r.gone|;
    assert HeadTraded(Outcome([t] + r.trades, r.rest, r.left, [id] + r.gone)) == HeadTraded(r);
    assert r.rest != [] ==> q[1..][k] == q[k + 1] && q[1..][k + 1..] == q[k + 2..];
  }

  /** A sweep trades with a prefix of the queue, leaves the rest alone, and stops only when it must. */
  lemma {:induction false} SweepRest(inc: Order, qty: nat, q: seq<Order>, now: nat)
    ensures TakesPrefix(inc, q, Sweep(inc, qty, q, now))
  {
    if qty == 0 || q == [] || !Crosses(inc, q[0].price) {
    } else if q[0].remaining <= qty {
      SweepRest(inc, qty - q[0].remaining, q[1..], now + 1);
      var r := Sweep(inc, qty - q[0].remaining, q[1..], now + 1);
      TakesOneMore(inc, q, r, MakeTrade(inc, q[0], q[0].remaining, now), q[0].id);
    }
  }

  /** The i-th trade is with the i-th order of the queue, at its price, and empties it if it is gone. */
  lemma {:induction false} SweepTrade(inc: Order, qty: nat, q: seq<Order>, now: nat, i: nat)
    requires i < |Sweep(inc, qty, q, now).trades|
    ensures var r := Sweep(inc, qty, q, now);
      && i < |q| && Crosses(inc, q[i].price)
      && r.trades[i] == MakeTrade(inc, q[i], r.trades[i].quantity, now + i)
      && (i < |r.gone| ==> r.gone[i] == q[i].id && r.trades[i].quantity == q[i].remaining)
  {
    if i > 0 {
      SweepTrade(inc, qty - q[0].remaining, q[1..], now + 1, i - 1);
    }
  }

  /** The head of what is left is the only order the sweep changed without filling it. */
  lemma SweepRestAt(inc: Order, qty: nat, q: seq<Order>, now: nat, i: nat)
    requires i < |Sweep(inc, qty, q, now).rest|
    ensures var r := Sweep(inc, qty, q, now);
      && i + |r.gone| < |q|
      && r.rest[i] == q[i + |r.gone|].(remaining := r.rest[i].remaining)
      && r.rest[i].remaining <= q[i + |r.gone|].remaining
      && (q[i + |r.gone|].remaining > 0 ==> r.rest[i].remaining > 0)
      && (i > 0 ==> r.rest[i] == q[i + |r.gone|])
  {
  }

  /** Every id in `gone` is that of a swept order. */
  lemma SweepGone(inc: Order, qty: nat, q: seq<Order>, now: nat, i: nat)
    requires i < |Sweep(inc, qty, q, now).gone|
    ensures i < |q| && Sweep(inc, qty, q, now).gone[i] == q[i].id
  {
    SweepRest(inc, qty, q, now);
    SweepTrade(inc, qty, q, now, i);
  }
}
