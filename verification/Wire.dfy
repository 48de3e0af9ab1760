/** The wire format of orders (tcp_feed_handler.hpp): 48-byte little-endian frames, back to back. */
module Wire {
  import opened Sequences
  import opened Orders

  const MSG_SIZE: nat := 48

  function Pow256(k: nat): nat {
    if k == 0 then 1 else 256 * Pow256(k - 1)
  }

  function FromLittleEndian(bytes: seq<Byte>): nat {
    if bytes == [] then 0 else bytes[0] + 256 * FromLittleEndian(bytes[1..])
  }

  function ToLittleEndian(n: nat, k: nat): (r: seq<Byte>)
    ensures |r| == k
  {
    if k == 0 then [] else [n % 256] + ToLittleEndian(n / 256, k - 1)
  }

  lemma {:induction false} LittleEndianRoundTrip(n: nat, k: nat)
    requires n < Pow256(k)
    ensures FromLittleEndian(ToLittleEndian(n, k)) == n
  {
    if k > 0 {
      LittleEndianRoundTrip(n / 256, k - 1);
      assert ToLittleEndian(n, k)[1..] == ToLittleEndian(n / 256, k - 1);
    }
  }

  /** `priceBits` is the bit pattern of the price; side and type are raw bytes. */
  datatype WireOrder = WireOrder(
    id: nat, client: nat, side: Byte, kind: Byte, symbol: seq<Byte>, priceBits: nat, quantity: nat)

  predicate Fits(w: WireOrder) {
    && w.id < Pow256(8) && w.client < Pow256(8) && w.priceBits < Pow256(8) && w.quantity < Pow256(8)
    && |w.symbol| == SYMBOL_LEN
  }

  /** The client's packing, with six padding bytes that align the price. */
  function Encode(w: WireOrder, padding: seq<Byte>): seq<Byte> {
    ToLittleEndian(w.id, 8) + ToLittleEndian(w.client, 8) + [w.side] + [w.kind] + w.symbol + padding
      + ToLittleEndian(w.priceBits, 8) + ToLittleEndian(w.quantity, 8)
  }

  /** The server's `memcpy` of a frame into the struct. */
  function Decode(frame: seq<Byte>): WireOrder
    requires |frame| == MSG_SIZE
  {
    WireOrder(
      FromLittleEndian(frame[0..8]), FromLittleEndian(frame[8..16]), frame[16], frame[17], frame[18..26],
      FromLittleEndian(frame[32..40]), FromLittleEndian(frame[40..48]))
  }

  lemma DecodeEncode(w: WireOrder, padding: seq<Byte>)
    requires Fits(w) && |padding| == 6
    ensures |Encode(w, padding)| == MSG_SIZE && Decode(Encode(w, padding)) == w
  {
    var f := Encode(w, padding);
    assert f[0..8] == ToLittleEndian(w.id, 8);
    assert f[8..16] == ToLittleEndian(w.client, 8);
    assert f[18..26] == w.symbol;
    assert f[32..40] == ToLittleEndian(w.priceBits, 8);
    assert f[40..48] == ToLittleEndian(w.quantity, 8);
    LittleEndianRoundTrip(w.id, 8);
    LittleEndianRoundTrip(w.client, 8);
    LittleEndianRoundTrip(w.priceBits, 8);
    LittleEndianRoundTrip(w.quantity, 8);
  }

  /** `toPrice` reads a price off its bit pattern. */
  function WireToOrder(w: WireOrder, toPrice: nat -> real): Order {
    Order(w.id, w.client, if w.side == 0 then BUY else SELL, if w.kind == 0 then LIMIT else MARKET,
          w.symbol, toPrice(w.priceBits), w.quantity, w.quantity, 0)
  }

  /** The word in the eight bytes from `at` on, least significant first. */
  function WordAt(bytes: seq<Byte>, at: nat): nat
    requires at + 8 <= |bytes|
  {
    bytes[at] as nat + 0x100 * bytes[at + 1] as nat + 0x1_0000 * bytes[at + 2] as nat + 0x100_0000 * bytes[at + 3] as nat
      + 0x1_0000_0000 * bytes[at + 4] as nat + 0x100_0000_0000 * bytes[at + 5] as nat
      + 0x1_0000_0000_0000 * bytes[at + 6] as nat + 0x100_0000_0000_0000 * bytes[at + 7] as nat
  }

  lemma LittleEndianTwo(bytes: seq<Byte>, at: nat, end: nat)
    requires at + 2 <= end <= |bytes|
    ensures FromLittleEndian(bytes[at..end])
      == bytes[at] as nat + 0x100 * bytes[at + 1] as nat + 0x1_0000 * FromLittleEndian(bytes[at + 2..end])
  {
    assert bytes[at..end][1..] == bytes[at + 1..end] && bytes[at + 1..end][1..] == bytes[at + 2..end];
  }

  lemma LittleEndianWord(bytes: seq<Byte>, at: nat)
    requires at + 8 <= |bytes|
    ensures FromLittleEndian(bytes[at..at + 8]) == WordAt(bytes, at)
  {
    LittleEndianTwo(bytes, at, at + 8);
    LittleEndianTwo(bytes, at + 2, at + 8);
    LittleEndianTwo(bytes, at + 4, at + 8);
    LittleEndianTwo(bytes, at + 6, at + 8);
  }

  /** What the server makes of any frame, byte by byte: also of side and type codes that no client should send. */
  lemma FrameLayout(frame: seq<Byte>, toPrice: nat -> real)
    requires |frame| == MSG_SIZE
    ensures var o := WireToOrder(Decode(frame), toPrice);
      && o.id == WordAt(frame, 0) && o.client == WordAt(frame, 8)
      && (o.side == BUY <==> frame[16] == 0) && (o.kind == LIMIT <==> frame[17] == 0)
      && o.symbol == frame[18..26] && o.price == toPrice(WordAt(frame, 32))
      && o.quantity == o.remaining == WordAt(frame, 40) && o.timestamp == 0
  {
    LittleEndianWord(frame, 0);
    LittleEndianWord(frame, 8);
    LittleEndianWord(frame, 32);
    LittleEndianWord(frame, 40);
  }

  /** The complete frames of a byte stream, and the bytes behind the last one. */
  function Frames(bytes: seq<Byte>): (r: seq<seq<Byte>>)
    ensures forall i :: 0 <= i < |r| ==> |r[i]| == MSG_SIZE
  {
    if |bytes| < MSG_SIZE then [] else [bytes[..MSG_SIZE]] + Frames(bytes[MSG_SIZE..])
  }

  function Leftover(bytes: seq<Byte>): (r: seq<Byte>)
    ensures |r| < MSG_SIZE
  {
    if |bytes| < MSG_SIZE then bytes else Leftover(bytes[MSG_SIZE..])
  }

  function DecodeFrames(frames: seq<seq<Byte>>, toPrice: nat -> real): seq<Order>
    requires forall i :: 0 <= i < |frames| ==> |frames[i]| == MSG_SIZE
  {
    seq(|frames|, i requires 0 <= i < |frames| => WireToOrder(Decode(frames[i]), toPrice))
  }

  function Decoded(bytes: seq<Byte>, toPrice: nat -> real): seq<Order> {
    DecodeFrames(Frames(bytes), toPrice)
  }

  lemma TakeOff(a: seq<Byte>, b: seq<Byte>)
    requires |a| >= MSG_SIZE
    ensures (a + b)[..MSG_SIZE] == a[..MSG_SIZE] && (a + b)[MSG_SIZE..] == a[MSG_SIZE..] + b
  {
  }

  lemma {:induction false} LeftoverInParts(a: seq<Byte>, b: seq<Byte>)
    ensures Leftover(a + b) == Leftover(Leftover(a) + b)
  {
    if |a| >= MSG_SIZE {
      TakeOff(a, b);
      LeftoverInParts(a[MSG_SIZE..], b);
    }
  }

  lemma {:induction false} FramesInParts(a: seq<Byte>, b: seq<Byte>)
    ensures Frames(a + b) == Frames(a) + Frames(Leftover(a) + b)
  {
    if |a| >= MSG_SIZE {
      var tail := a[MSG_SIZE..];
      TakeOff(a, b);
      FramesInParts(tail, b);
      Assoc([a[..MSG_SIZE]], Frames(tail), Frames(Leftover(tail) + b));
    }
  }

  lemma DecodeConcat(a: seq<seq<Byte>>, b: seq<seq<Byte>>, toPrice: nat -> real)
    requires forall i :: 0 <= i < |a| ==> |a[i]| == MSG_SIZE
    requires forall i :: 0 <= i < |b| ==> |b[i]| == MSG_SIZE
    ensures DecodeFrames(a + b, toPrice) == DecodeFrames(a, toPrice) + DecodeFrames(b, toPrice)
  {
  }

  /** Parsing a stream is parsing a first part and then its leftover followed by the rest. */
  lemma ParseInParts(a: seq<Byte>, b: seq<Byte>, toPrice: nat -> real)
    ensures Decoded(a + b, toPrice) == Decoded(a, toPrice) + Decoded(Leftover(a) + b, toPrice)
    ensures Leftover(a + b) == Leftover(Leftover(a) + b)
  {
    FramesInParts(a, b);
    LeftoverInParts(a, b);
    DecodeConcat(Frames(a), Frames(Leftover(a) + b), toPrice);
  }

  /** The fields a client puts on the wire for an order, with codes 0 and 1 for the two enumerations. */
  function OrderToWire(o: Order, toBits: real -> nat): WireOrder {
    WireOrder(o.id, o.client, if o.side == BUY then 0 else 1, if o.kind == LIMIT then 0 else 1,
              o.symbol, toBits(o.price), o.quantity)
  }

  /** An order that fits the wire and is not yet stamped or traded; its price survives the bit pattern. */
  predicate Sendable(o: Order, toBits: real -> nat, toPrice: nat -> real) {
    && Fits(OrderToWire(o, toBits)) && toPrice(toBits(o.price)) == o.price
    && o.remaining == o.quantity && o.timestamp == 0
  }

  /** One frame: what the client packs is what the server unpacks, whatever the padding holds. */
  lemma FrameRoundTrip(o: Order, toBits: real -> nat, toPrice: nat -> real, padding: seq<Byte>)
    requires Sendable(o, toBits, toPrice) && |padding| == 6
    ensures var frame := Encode(OrderToWire(o, toBits), padding);
      |frame| == MSG_SIZE && WireToOrder(Decode(frame), toPrice) == o
  {
    DecodeEncode(OrderToWire(o, toBits), padding);
  }

  lemma HeadFrame(frame: seq<Byte>, tail: seq<Byte>, toPrice: nat -> real)
    requires |frame| == MSG_SIZE
    ensures Decoded(frame + tail, toPrice) == [WireToOrder(Decode(frame), toPrice)] + Decoded(tail, toPrice)
    ensures Leftover(frame + tail) == Leftover(tail)
  {
  }

  /** The byte stream of a client that sends these orders one after the other. */
  function EncodeAll(orders: seq<Order>, toBits: real -> nat, padding: seq<Byte>): seq<Byte> {
    if orders == [] then [] else
      Encode(OrderToWire(orders[0], toBits), padding) + EncodeAll(orders[1..], toBits, padding)
  }

  predicate AllSendable(orders: seq<Order>, toBits: real -> nat, toPrice: nat -> real) {
    forall i :: 0 <= i < |orders| ==> Sendable(orders[i], toBits, toPrice)
  }

  lemma {:induction false} EncodeAllLength(orders: seq<Order>, toBits: real -> nat, padding: seq<Byte>)
    requires |padding| == 6 && forall i :: 0 <= i < |orders| ==> Fits(OrderToWire(orders[i], toBits))
    ensures |EncodeAll(orders, toBits, padding)| == MSG_SIZE * |orders|
  {
    if orders != [] {
      EncodeAllLength(orders[1..], toBits, padding);
      DecodeEncode(OrderToWire(orders[0], toBits), padding);
    }
  }

  /** What has arrived of a client's stream so far: the orders whose frames are complete. */
  lemma {:induction false} PrefixRoundTrip(orders: seq<Order>, toBits: real -> nat, toPrice: nat -> real,
                                           padding: seq<Byte>, bytes: seq<Byte>)
    requires |padding| == 6 && AllSendable(orders, toBits, toPrice) && bytes <= EncodeAll(orders, toBits, padding)
    ensures var n := |bytes| / MSG_SIZE;
      n <= |orders| && Decoded(bytes, toPrice) == orders[..n]
  {
    EncodeAllLength(orders, toBits, padding);
    if |bytes| >= MSG_SIZE {
      var frame := Encode(OrderToWire(orders[0], toBits), padding);
      FrameRoundTrip(orders[0], toBits, toPrice, padding);
      var tail := bytes[MSG_SIZE..];
      assert bytes == frame + tail && tail <= EncodeAll(orders[1..], toBits, padding);
      PrefixRoundTrip(orders[1..], toBits, toPrice, padding, tail);
      HeadFrame(frame, tail, toPrice);
      Uncons(orders, |tail| / MSG_SIZE);
    }
  }

  lemma Uncons<T>(s: seq<T>, n: nat)
    requires n < |s|
    ensures [s[0]] + s[1..][..n] == s[..n + 1]
  {
  }

  /** All orders have arrived exactly when all bytes have. */
  lemma AllRoundTrip(orders: seq<Order>, toBits: real -> nat, toPrice: nat -> real, padding: seq<Byte>, bytes: seq<Byte>)
    requires |padding| == 6 && AllSendable(orders, toBits, toPrice) && bytes <= EncodeAll(orders, toBits, padding)
    ensures Decoded(bytes, toPrice) == orders <==> bytes == EncodeAll(orders, toBits, padding)
  {
    PrefixRoundTrip(orders, toBits, toPrice, padding, bytes);
    EncodeAllLength(orders, toBits, padding);
    var n := |bytes| / MSG_SIZE;
    assert |orders[..n]| == n && (n == |orders| ==> orders[..n] == orders);
    assert |bytes| == |EncodeAll(orders, toBits, padding)| ==> bytes == EncodeAll(orders, toBits, padding);
  }

  lemma {:induction false} LeftoverLength(bytes: seq<Byte>)
    ensures |Leftover(bytes)| == |bytes| % MSG_SIZE
  {
    if |bytes| >= MSG_SIZE {
      LeftoverLength(bytes[MSG_SIZE..]);
    }
  }

  /** What a client sends is what the server reads, with nothing left over. */
  lemma StreamRoundTrip(orders: seq<Order>, toBits: real -> nat, toPrice: nat -> real, padding: seq<Byte>)
    requires |padding| == 6 && AllSendable(orders, toBits, toPrice)
    ensures Decoded(EncodeAll(orders, toBits, padding), toPrice) == orders
    ensures Leftover(EncodeAll(orders, toBits, padding)) == []
  {
    AllRoundTrip(orders, toBits, toPrice, padding, EncodeAll(orders, toBits, padding));
    EncodeAllLength(orders, toBits, padding);
    LeftoverLength(EncodeAll(orders, toBits, padding));
  }
}
