/**
 What one engine process computes from its shard's log (engine_main.cpp): one matching engine per
 symbol, created on first sight, and the trades of each record in turn.
 */
module Shard {
  import opened Orders
  import opened Exchange

  type Symbol = seq<Byte>

  type EngineMap = map<Symbol, Engine>

  /** The collar of an engine made without arguments: ten percent. */
  const DEFAULT_BAND: real := 0.1

  /** The bytes of the symbol field before its first zero byte, or all of them. */
  function SymbolOf(o: Order): (r: Symbol)
    ensures r <= o.symbol && 0 !in r && (r == o.symbol || o.symbol[|r|] == 0)
  {
    SymbolStr(o.symbol)
  }

  /** Two symbol fields that agree up to where both of them end. */
  ghost predicate SameField(a: seq<Byte>, b: seq<Byte>) {
    exists n: nat :: n <= |a| && n <= |b| && a[..n] == b[..n] && EndsAt(a, n) && EndsAt(b, n)
  }

  /** No zero byte before `n`, and one at `n` unless the field is over there. */
  predicate EndsAt(field: seq<Byte>, n: nat)
    requires n <= |field|
  {
    0 !in field[..n] && (n < |field| ==> field[n] == 0)
  }

  lemma EndsOnce(field: seq<Byte>, m: nat, n: nat)
    requires m <= |field| && n <= |field| && EndsAt(field, m) && EndsAt(field, n)
    ensures m == n
  {
    NoZeros(field, m);
    NoZeros(field, n);
  }

  lemma NoZeros(field: seq<Byte>, n: nat)
    requires n <= |field| && 0 !in field[..n]
    ensures forall k :: 0 <= k < n ==> field[k] != 0
  {
    assert forall k :: 0 <= k < n ==> field[k] == field[..n][k];
  }

  /** Orders are of one symbol exactly when their symbol fields agree up to the first zero byte. */
  lemma SameSymbol(a: Order, b: Order)
    ensures SymbolOf(a) == SymbolOf(b) <==> SameField(a.symbol, b.symbol)
  {
    var m, n := |SymbolOf(a)|, |SymbolOf(b)|;
    assert a.symbol[..m] == SymbolOf(a) && b.symbol[..n] == SymbolOf(b);
    assert EndsAt(a.symbol, m) && EndsAt(b.symbol, n);
    if SameField(a.symbol, b.symbol) {
      var k: nat :| k <= |a.symbol| && k <= |b.symbol| && a.symbol[..k] == b.symbol[..k] && EndsAt(a.symbol, k) && EndsAt(b.symbol, k);
      EndsOnce(a.symbol, m, k);
      EndsOnce(b.symbol, n, k);
    }
  }

  /** One byte that differs before both fields end makes two symbols of them. */
  lemma DifferentSymbols(a: Order, b: Order, i: nat)
    requires i < |a.symbol| && i < |b.symbol| && a.symbol[..i] == b.symbol[..i] && 0 !in a.symbol[..i]
    requires a.symbol[i] != b.symbol[i]
    ensures SymbolOf(a) != SymbolOf(b)
  {
    NoZeros(a.symbol, i);
    NoZeros(b.symbol, i);
  }

  /** `try_emplace`: a fresh engine for `sym` unless it has one. */
  function Emplaced(engines: EngineMap, sym: Symbol): EngineMap {
    if sym in engines then engines else engines[sym := Fresh(DEFAULT_BAND)]
  }

  function EngineFor(engines: EngineMap, sym: Symbol): Engine {
    Emplaced(engines, sym)[sym]
  }

  /** `try_emplace` and `submit_order` for one record. */
  function Serve(engines: EngineMap, o: Order): (EngineMap, seq<Trade>) {
    var sym := SymbolOf(o);
    var (e, trades) := Step(EngineFor(engines, sym), SubmitOp(o));
    (engines[sym := e], trades)
  }

  /** The engines after every record of the log. */
  function Engines(log: seq<Order>): EngineMap {
    if log == [] then map[] else Serve(Engines(log[..|log| - 1]), log[|log| - 1]).0
  }

  /** The canonical trade stream: the trades of all records, in order. */
  function Stream(log: seq<Order>): seq<Trade> {
    if log == [] then [] else
      Stream(log[..|log| - 1]) + Serve(Engines(log[..|log| - 1]), log[|log| - 1]).1
  }

  /** The part of the stream that comes from records of one symbol. */
  function SymbolStream(log: seq<Order>, sym: Symbol): seq<Trade> {
    if log == [] then [] else
      var init, o := log[..|log| - 1], log[|log| - 1];
      if SymbolOf(o) == sym then SymbolStream(init, sym) + Serve(Engines(init), o).1 else SymbolStream(init, sym)
  }

  /** The records of one symbol, in order. */
  function OfSymbol(log: seq<Order>, sym: Symbol): seq<Order> {
    if log == [] then [] else
      var init, o := log[..|log| - 1], log[|log| - 1];
      if SymbolOf(o) == sym then OfSymbol(init, sym) + [o] else OfSymbol(init, sym)
  }

  lemma ServeOthers(engines: EngineMap, o: Order, sym: Symbol)
    requires SymbolOf(o) != sym
    ensures EngineFor(Serve(engines, o).0, sym) == EngineFor(engines, sym)
    ensures sym in Serve(engines, o).0 <==> sym in engines
  {
  }

  /**
   A shard that owns many symbols treats each like an engine of its own: its book and its trades are
   those of submitting the records of that symbol alone.
   */
  lemma {:induction false} SymbolsAreIndependent(log: seq<Order>, sym: Symbol)
    ensures (EngineFor(Engines(log), sym), SymbolStream(log, sym)) == SubmitAll(Fresh(DEFAULT_BAND), OfSymbol(log, sym))
    ensures sym in Engines(log) <==> OfSymbol(log, sym) != []
  {
    if log != [] {
      var init, o := log[..|log| - 1], log[|log| - 1];
      SymbolsAreIndependent(init, sym);
      if SymbolOf(o) == sym {
        SubmitAllSnoc(Fresh(DEFAULT_BAND), OfSymbol(init, sym), o);
      } else {
        ServeOthers(Engines(init), o, sym);
      }
    }
  }
}
