/** The matching engine (matching_engine.cpp) over the mutable book. */
module MatchingEngines {
  import opened Sequences
  import opened Orders
  import opened PriceLevels
  import opened PriceCollar
  import opened Matching
  import opened Exchange
  import opened OrderBooks

  /** `all` is the trades and fills made so far followed by sweeping the rest. */
  ghost predicate Progress(all: Outcome, trades: seq<Trade>, gone: seq<nat>, inc: Order, qty: nat, q: seq<Order>, now: nat) {
    var r := Sweep(inc, qty, q, now);
    all == Outcome(trades + r.trades, r.rest, r.left, gone + r.gone)
  }

  /** The queue after trading up to `qty` units with its head. */
  ghost function HeadFilled(qty: nat, q: seq<Order>): seq<Order>
    requires q != []
  {
    if q[0].remaining <= qty then q[1..] else [q[0].(remaining := q[0].remaining - qty)] + q[1..]
  }

  ghost function HeadGone(qty: nat, q: seq<Order>): seq<nat>
    requires q != []
  {
    if q[0].remaining <= qty then [q[0].id] else []
  }

  lemma SweepStarts(inc: Order, qty: nat, q: seq<Order>, now: nat)
    ensures Progress(Sweep(inc, qty, q, now), [], [], inc, qty, q, now)
  {
  }

  /** One turn of the loop is one unfolding of the sweep. */
  lemma SweepTurn(all: Outcome, trades: seq<Trade>, gone: seq<nat>, inc: Order, qty: nat, q: seq<Order>, now: nat)
    requires qty > 0 && q != [] && Crosses(inc, q[0].price) && Progress(all, trades, gone, inc, qty, q, now)
    ensures var fill := Min(qty, q[0].remaining);
      && Progress(all, trades + [MakeTrade(inc, q[0], fill, now)], gone + HeadGone(qty, q),
                  inc, qty - fill, HeadFilled(qty, q), now + 1)
      && qty - fill + |HeadFilled(qty, q)| < qty + |q|
  {
  }

  /** When the loop stops, nothing is left to sweep. */
  lemma SweepOver(all: Outcome, trades: seq<Trade>, gone: seq<nat>, inc: Order, qty: nat, q: seq<Order>, now: nat)
    requires Progress(all, trades, gone, inc, qty, q, now) && (qty == 0 || q == [] || !Crosses(inc, q[0].price))
    ensures all == Outcome(trades, q, qty, gone)
  {
  }

  class MatchingEngine {
    const book: OrderBook
    const band: real
    var last: Option<real>
    var nextTs: nat

    ghost predicate Valid()
      reads this, book
    {
      book.Valid()
    }

    ghost function State(): Engine
      reads this, book
    {
      Engine(book.View(), last, nextTs, band)
    }

    constructor (bandPercent: real := 10.0)
      ensures Valid() && fresh(book) && State() == Fresh(bandPercent / 100.0)
    {
      book := new OrderBook();
      band := bandPercent / 100.0;
      last := None;
      nextTs := 1;
    }

    /** The body of the matching loop: trade with the front order of the best level, in place. */
    method FillFront(inc: Order, s: Side, remaining: nat) returns (t: Trade, left: nat)
      requires Valid() && book.LevelsOf(s) != map[]
      modifies this, book
      ensures Valid() && book.LevelsOf(Opposite(s)) == old(book.LevelsOf(Opposite(s)))
      ensures var q := old(Queue(s, book.LevelsOf(s)));
        && q != [] && left == remaining - Min(remaining, q[0].remaining)
        && t == MakeTrade(inc, q[0], Min(remaining, q[0].remaining), old(nextTs))
        && last == Some(q[0].price) && nextTs == old(nextTs) + 1
        && Queue(s, book.LevelsOf(s)) == HeadFilled(remaining, q)
        && book.index == old(book.index) - Elements(HeadGone(remaining, q))
    {
      var p := Best(s, book.LevelsOf(s));
      HeadIsBest(s, book.LevelsOf(s));
      var dq := book.LevelsOf(s)[p];
      var front := dq[0];
      var fill := Min(remaining, front.remaining);
      t := MakeTrade(inc, front, fill, nextTs);
      nextTs := nextTs + 1;
      left := remaining - fill;
      front := front.(remaining := front.remaining - fill);
      last := Some(front.price);
      if front.remaining == 0 {
        DropFront(s, book.LevelsOf(s));
        book.RemoveFromIndex(front.id);
        book.PutLevel(s, p, dq[1..]);
        assert Queue(s, book.LevelsOf(s)) == old(Queue(s, book.LevelsOf(s)))[1..];
      } else {
        PutFront(s, book.LevelsOf(s), front);
        book.PutLevel(s, p, [front] + dq[1..]);
      }
    }

    /** One turn of the loop, as a turn of the sweep `all`. */
    method MatchFront(inc: Order, s: Side, remaining: nat, trades: seq<Trade>,
                      ghost all: Outcome, ghost gone: seq<nat>, ghost index: map<nat, CancelInfo>)
      returns (left: nat, trades': seq<Trade>, ghost gone': seq<nat>)
      requires Valid() && book.LevelsOf(s) != map[] && remaining > 0 && Crosses(inc, Best(s, book.LevelsOf(s)))
      requires Progress(all, trades, gone, inc, remaining, Queue(s, book.LevelsOf(s)), nextTs)
      requires book.index == index - Elements(gone)
      modifies this, book
      ensures Valid() && book.LevelsOf(Opposite(s)) == old(book.LevelsOf(Opposite(s)))
      ensures Progress(all, trades', gone', inc, left, Queue(s, book.LevelsOf(s)), nextTs)
      ensures book.index == index - Elements(gone')
      ensures |trades'| == |trades| + 1 && last == LastPrice(old(last), trades') && nextTs == old(nextTs) + 1
      ensures left + |Queue(s, book.LevelsOf(s))| < remaining + old(|Queue(s, book.LevelsOf(s))|)
    {
      HeadIsBest(s, book.LevelsOf(s));
      ghost var q := Queue(s, book.LevelsOf(s));
      SweepTurn(all, trades, gone, inc, remaining, q, nextTs);
      var t;
      t, left := FillFront(inc, s, remaining);
      AlsoGone(index, gone, HeadGone(remaining, q));
      gone' := gone + HeadGone(remaining, q);
      trades' := trades + [t];
    }

    /** Match `inc` against the levels of side `s`, best first, in place. */
    method MatchAgainst(inc: Order, s: Side) returns (remaining: nat, trades: seq<Trade>)
      requires Valid() && s == Opposite(inc.side)
      modifies this, book
      ensures Valid()
      ensures var r := Sweep(inc, inc.remaining, old(State().book.Resting(s)), old(nextTs));
        && (trades, remaining) == (r.trades, r.left)
        && State() == Engine(SweptBook(old(State().book), s, r), LastPrice(old(last), r.trades), old(nextTs) + |r.trades|, band)
    {
      remaining, trades := inc.remaining, [];
      ghost var gone: seq<nat> := [];
      ghost var all := Sweep(inc, remaining, Queue(s, book.LevelsOf(s)), nextTs);
      SweepStarts(inc, remaining, Queue(s, book.LevelsOf(s)), nextTs);
      while remaining > 0 && book.LevelsOf(s) != map[]
        invariant Valid()
        invariant Progress(all, trades, gone, inc, remaining, Queue(s, book.LevelsOf(s)), nextTs)
        invariant book.LevelsOf(Opposite(s)) == old(book.LevelsOf(Opposite(s)))
        invariant book.index == old(book.index) - Elements(gone)
        invariant last == LastPrice(old(last), trades) && nextTs == old(nextTs) + |trades|
        decreases remaining + |Queue(s, book.LevelsOf(s))|
      {
        var p := Best(s, book.LevelsOf(s));
        if inc.kind == LIMIT && ((inc.side == BUY && inc.price < p) || (inc.side == SELL && inc.price > p)) {
          break;
        }
        remaining, trades, gone := MatchFront(inc, s, remaining, trades, all, gone, old(book.index));
      }
      HeadIsBest(s, book.LevelsOf(s));
      SweepOver(all, trades, gone, inc, remaining, Queue(s, book.LevelsOf(s)), nextTs);
    }

    method SubmitOrder(o: Order) returns (r: Result)
      requires Valid()
      modifies this, book
      ensures Valid() && (State(), r) == Submit(old(State()), o)
    {
      ghost var e := State();
      var incoming := o.(timestamp := nextTs, remaining := o.quantity);
      nextTs := nextTs + 1;
      if incoming.kind == LIMIT {
        var checked := Check(band, incoming.price, last);
        if !checked.accepted {
          return Rejected(incoming.id, checked.reason);
        }
      }
      assert Accepts(e, o) && incoming == Stamped(o, e.nextTs);
      var remaining, trades := MatchAgainst(incoming, Opposite(incoming.side));
      assert book.View() == SweptBook(e.book, Opposite(o.side), SweepOf(e, o));
      if remaining > 0 && incoming.kind == LIMIT {
        book.AddRestingOrder(incoming.(remaining := remaining));
      }
      return Filled(trades);
    }

    /** The consumer thread of the single-process server: submit what is popped, collect the trades. */
    method SubmitEach(orders: seq<Order>) returns (trades: seq<Trade>)
      requires Valid()
      modifies this, book
      ensures Valid() && (State(), trades) == SubmitAll(old(State()), orders)
    {
      trades := [];
      for i := 0 to |orders|
        invariant Valid() && (State(), trades) == SubmitAll(old(State()), orders[..i])
      {
        SubmitAllSnoc(old(State()), orders[..i], orders[i]);
        assert orders[..i + 1] == orders[..i] + [orders[i]];
        var r := SubmitOrder(orders[i]);
        trades := trades + if r.Filled? then r.trades else [];
      }
      assert orders[..|orders|] == orders;
    }

    method CancelOrder(id: nat) returns (found: bool)
      requires Valid()
      modifies this, book
      ensures Valid() && (State(), found) == Cancel(old(State()), id)
    {
      found := book.CancelOrder(id);
    }
  }
}
