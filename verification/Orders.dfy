/** Orders and trades as the exchange passes them around (order.hpp). */
module Orders {

  datatype Option<+T> = None | Some(value: T)

  datatype Side = BUY | SELL

  datatype OrderType = LIMIT | MARKET

  /** The number of values of a 64-bit word. */
  const WORD: nat := 0x1_0000_0000_0000_0000

  type Byte = b: int | 0 <= b < 256

  /** Width of the fixed symbol field; shorter symbols are padded with zero bytes. */
  const SYMBOL_LEN: nat := 8

  datatype Order = Order(
    id: nat,
    client: nat,
    side: Side,
    kind: OrderType,
    symbol: seq<Byte>,
    price: real,       // ignored for MARKET orders
    quantity: nat,
    remaining: nat,
    timestamp: nat)    // sequence number given by the engine, not wall clock

  datatype Trade = Trade(buyId: nat, sellId: nat, price: real, quantity: nat, timestamp: nat)

  function Opposite(s: Side): Side {
    if s == BUY then SELL else BUY
  }

  function Min(a: nat, b: nat): nat {
    if a < b then a else b
  }

  /** The symbol up to its first zero byte, or all of the field when there is none. */
  function SymbolStr(symbol: seq<Byte>): (r: seq<Byte>)
    ensures r <= symbol && 0 !in r
    ensures |r| < |symbol| ==> symbol[|r|] == 0
  {
    if symbol == [] || symbol[0] == 0 then [] else [symbol[0]] + SymbolStr(symbol[1..])
  }
}
