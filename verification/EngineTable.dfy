/** The matching engines of one process, one per symbol (the `engines` map of engine_main.cpp). */
module EngineTables {
  import opened Orders
  import opened Exchange
  import opened MatchingEngines
  import opened Shard

  ghost predicate Refines(e: MatchingEngine, value: Engine)
    reads e, e.book
  {
    e.Valid() && e.State() == value
  }

  /** The engine of `sym` took `o` with result `r`, and nothing else changed. */
  ghost predicate Submitted(before: EngineMap, sym: Symbol, o: Order, after: EngineMap, r: Result)
    requires sym in before && sym in after
  {
    (after[sym], r) == Submit(before[sym], o) && after == before[sym := after[sym]]
  }

  /** Making the engine if there is none and then submitting to it is one step of the shard. */
  lemma SubmittedIsServed(engines: EngineMap, o: Order, after: EngineMap, r: Result)
    requires var sym := SymbolOf(o);
      sym in after && Submitted(Emplaced(engines, sym), sym, o, after, r)
    ensures Shard.Serve(engines, o) == (after, if r.Filled? then r.trades else [])
  {
    assert after == engines[SymbolOf(o) := after[SymbolOf(o)]];
  }

  class EngineTable {
    var engines: map<Symbol, MatchingEngine>
    ghost var view: EngineMap
    ghost var parts: set<object>

    ghost predicate Valid()
      reads this, parts
    {
      && this !in parts && engines.Keys == view.Keys
      && (forall sym {:trigger engines[sym]} :: sym in engines ==>
            engines[sym] in parts && engines[sym].book in parts && Refines(engines[sym], view[sym]))
      && (forall a, b {:trigger engines[a], engines[b]} :: a in engines && b in engines && a != b ==>
            engines[a] != engines[b] && engines[a].book != engines[b].book)
    }

    constructor ()
      ensures Valid() && view == map[] && fresh(parts)
    {
      engines := map[];
      view, parts := map[], {};
    }

    method Add(sym: Symbol, e: MatchingEngine)
      requires Valid() && sym !in view && e.Valid() && e !in parts && e.book !in parts
      modifies this
      ensures Valid() && view == old(view)[sym := e.State()]
      ensures parts == old(parts) + {e, e.book}
    {
      engines := engines[sym := e];
      view := view[sym := e.State()];
      parts := parts + {e, e.book};
    }

    /** `try_emplace`: a new engine for a symbol seen for the first time. */
    method TryEmplace(sym: Symbol)
      requires Valid()
      modifies this
      ensures Valid() && sym in view
      ensures view == Emplaced(old(view), sym)
      ensures fresh(parts - old(parts))
    {
      if sym in engines {
        return;
      }
      var e := new MatchingEngine();
      assert e.State() == Fresh(DEFAULT_BAND);
      Add(sym, e);
    }

    method SubmitTo(sym: Symbol, o: Order) returns (r: Result)
      requires Valid() && sym in view
      modifies this, parts
      ensures Valid() && parts == old(parts)
      ensures sym in view && Submitted(old(view), sym, o, view, r)
    {
      r := engines[sym].SubmitOrder(o);
      view := view[sym := engines[sym].State()];
    }

    method Serve(o: Order) returns (trades: seq<Trade>)
      requires Valid()
      modifies this, parts
      ensures Valid() && (view, trades) == Shard.Serve(old(view), o)
      ensures fresh(parts - old(parts))
    {
      var sym := SymbolOf(o);
      TryEmplace(sym);
      var r := SubmitTo(sym, o);
      SubmittedIsServed(old(view), o, view, r);
      trades := if r.Filled? then r.trades else [];
    }
  }
}
