/** Reassembling orders from TCP reads (tcp_feed_handler.cpp). */
module FeedHandler {
  import opened Sequences
  import opened Orders
  import opened Wire

  /** How a run of reads ended. */
  datatype ReadEnd = WouldBlock | PeerClosed | Failed

  /** What `epoll_wait` reports: a new connection, data to read, or a hang-up. */
  datatype Event = Accepted(fd: int) | Readable(fd: int, chunks: seq<seq<Byte>>, end: ReadEnd) | HungUp(fd: int)

  /** One connection on its own: its buffer while it is open, and the orders it has pushed. */
  datatype Connection = Connection(buf: Option<seq<Byte>>, pushed: seq<Order>)

  function After(c: Connection, e: Event, toPrice: nat -> real): Connection {
    match e
    case Accepted(_) => c.(buf := Some([]))
    case HungUp(_) => c.(buf := None)
    case Readable(_, chunks, end) =>
      if c.buf.None? then c
      else if !end.WouldBlock? then c.(buf := None)
      else
        var bytes := c.buf.value + Joined(chunks);
        Connection(Some(Leftover(bytes)), c.pushed + Decoded(bytes, toPrice))
  }

  /** The connection of descriptor `fd` after the events; those of other descriptors do not concern it. */
  function AfterAll(c: Connection, events: seq<Event>, fd: int, toPrice: nat -> real): Connection {
    if events == [] then c else
      var mid := AfterAll(c, events[..|events| - 1], fd, toPrice);
      if events[|events| - 1].fd == fd then After(mid, events[|events| - 1], toPrice) else mid
  }

  function BufferOf(connections: map<int, seq<Byte>>, fd: int): Option<seq<Byte>> {
    if fd in connections then Some(connections[fd]) else None
  }

  /** An order in the queue, with the descriptor it came from. */
  datatype Arrival = Arrival(fd: int, order: Order)

  function OrdersOf(arrivals: seq<Arrival>): seq<Order> {
    seq(|arrivals|, i requires 0 <= i < |arrivals| => arrivals[i].order)
  }

  function From(arrivals: seq<Arrival>, fd: int): seq<Order> {
    if arrivals == [] then [] else
      var init, a := arrivals[..|arrivals| - 1], arrivals[|arrivals| - 1];
      if a.fd == fd then From(init, fd) + [a.order] else From(init, fd)
  }

  function Tagged(fd: int, orders: seq<Order>): seq<Arrival> {
    seq(|orders|, i requires 0 <= i < |orders| => Arrival(fd, orders[i]))
  }

  lemma {:induction false} FromConcat(a: seq<Arrival>, b: seq<Arrival>, fd: int)
    ensures From(a + b, fd) == From(a, fd) + From(b, fd)
  {
    if b == [] {
      assert a + b == a && From(a, fd) + [] == From(a, fd);
    } else {
      var n := |b| - 1;
      assert (a + b)[..|a| + n] == a + b[..n];
      FromConcat(a, b[..n], fd);
    }
  }

  lemma {:induction false} FromTagged(fd: int, orders: seq<Order>, g: int)
    ensures From(Tagged(fd, orders), g) == if g == fd then orders else []
  {
    if orders != [] {
      var n := |orders| - 1;
      assert Tagged(fd, orders)[..n] == Tagged(fd, orders[..n]);
      FromTagged(fd, orders[..n], g);
      assert orders[..n] + [orders[n]] == orders;
    }
  }

  /** Each connection is where its own events bring it from `start`, and the arrivals from it are what it pushed. */
  ghost predicate Tracks(start: map<int, seq<Byte>>, now: map<int, seq<Byte>>, arrivals: seq<Arrival>,
                         events: seq<Event>, toPrice: nat -> real)
  {
    forall fd ::
      Connection(BufferOf(now, fd), From(arrivals, fd)) == AfterAll(Connection(BufferOf(start, fd), []), events, fd, toPrice)
  }

  /** One event: it concerns one connection, which pushes `more`. */
  ghost predicate Handles(before: map<int, seq<Byte>>, e: Event, after: map<int, seq<Byte>>, more: seq<Order>,
                          toPrice: nat -> real)
  {
    && (forall fd :: fd != e.fd ==> BufferOf(after, fd) == BufferOf(before, fd))
    && Connection(BufferOf(after, e.fd), more) == After(Connection(BufferOf(before, e.fd), []), e, toPrice)
  }

  lemma AfterPushes(c: Connection, e: Event, toPrice: nat -> real)
    ensures var once := After(c.(pushed := []), e, toPrice);
      After(c, e, toPrice) == Connection(once.buf, c.pushed + once.pushed)
  {
    assert c.pushed + [] == c.pushed;
  }

  lemma TracksNext(start: map<int, seq<Byte>>, before: map<int, seq<Byte>>, after: map<int, seq<Byte>>, arrivals: seq<Arrival>,
                   events: seq<Event>, e: Event, more: seq<Order>, toPrice: nat -> real)
    requires Tracks(start, before, arrivals, events, toPrice) && Handles(before, e, after, more, toPrice)
    ensures Tracks(start, after, arrivals + Tagged(e.fd, more), events + [e], toPrice)
  {
    forall fd ensures Connection(BufferOf(after, fd), From(arrivals + Tagged(e.fd, more), fd))
        == AfterAll(Connection(BufferOf(start, fd), []), events + [e], fd, toPrice)
    {
      var c := AfterAll(Connection(BufferOf(start, fd), []), events, fd, toPrice);
      FromConcat(arrivals, Tagged(e.fd, more), fd);
      FromTagged(e.fd, more, fd);
      AfterPushes(c, e, toPrice);
      assert (events + [e])[..|events|] == events;
    }
  }

  class TCPFeedHandler {
    const toPrice: nat -> real
    var connections: map<int, seq<Byte>>
    var queue: seq<Order>

    constructor (toPrice: nat -> real)
      ensures this.toPrice == toPrice && connections == map[] && queue == []
    {
      this.toPrice := toPrice;
      connections, queue := map[], [];
    }

    method Accept(fd: int)
      modifies this`connections
      ensures connections == old(connections)[fd := []]
    {
      connections := connections[fd := []];
    }

    /** Take every complete frame off the front of the connection's buffer. */
    method ProcessBuffer(fd: int)
      modifies this
      ensures fd !in old(connections) ==> connections == old(connections) && queue == old(queue)
      ensures fd in old(connections) ==>
        && connections == old(connections)[fd := Leftover(old(connections)[fd])]
        && queue == old(queue) + Decoded(old(connections)[fd], toPrice)
    {
      if fd !in connections {
        return;
      }
      var buf := connections[fd];
      while |buf| >= MSG_SIZE
        invariant connections == old(connections)
        invariant queue + Decoded(buf, toPrice) == old(queue) + Decoded(old(connections)[fd], toPrice)
        invariant Leftover(buf) == Leftover(old(connections)[fd])
        decreases |buf|
      {
        var o := WireToOrder(Decode(buf[..MSG_SIZE]), toPrice);
        OneFrame(queue, o, buf, toPrice);
        buf := buf[MSG_SIZE..];
        queue := queue + [o];
      }
      assert queue + [] == queue;
      connections := connections[fd := buf];
    }

    /** One wakeup: append what `recv` returned, then parse, unless the connection ended. */
    method HandleClientData(fd: int, chunks: seq<seq<Byte>>, end: ReadEnd)
      modifies this
      ensures fd !in old(connections) ==> connections == old(connections) && queue == old(queue)
      ensures fd in old(connections) && end.WouldBlock? ==>
        var bytes := old(connections)[fd] + Joined(chunks);
        && connections == old(connections)[fd := Leftover(bytes)]
        && queue == old(queue) + Decoded(bytes, toPrice)
      ensures fd in old(connections) && !end.WouldBlock? ==>
        connections == old(connections) - {fd} && queue == old(queue)
    {
      if fd !in connections {
        return;
      }
      var buf := connections[fd];
      assert buf + [] == buf;
      for i := 0 to |chunks|
        invariant queue == old(queue) && connections == old(connections)
        invariant buf == old(connections)[fd] + Joined(chunks[..i])
      {
        assert chunks[..i + 1][..i] == chunks[..i];
        assert old(connections)[fd] + (Joined(chunks[..i]) + chunks[i]) == buf + chunks[i];
        buf := buf + chunks[i];
      }
      assert chunks[..|chunks|] == chunks;
      connections := connections[fd := buf];
      if !end.WouldBlock? {
        connections := connections - {fd};
        return;
      }
      ProcessBuffer(fd);
    }

    method CloseConnection(fd: int)
      modifies this`connections
      ensures connections == old(connections) - {fd}
    {
      connections := connections - {fd};
    }

    /** One event; `more` is what it adds to the queue. */
    method HandleEvent(e: Event) returns (ghost more: seq<Order>)
      modifies this
      ensures queue == old(queue) + more
      ensures Handles(old(connections), e, connections, more, toPrice)
    {
      more := [];
      match e {
        case Accepted(fd) => Accept(fd);
        case HungUp(fd) => CloseConnection(fd);
        case Readable(fd, chunks, end) =>
          HandleClientData(fd, chunks, end);
          if fd in old(connections) && end.WouldBlock? {
            more := Decoded(old(connections)[fd] + Joined(chunks), toPrice);
          }
      }
    }

    /**
     The event loop, on any events of any number of connections: every connection is where its own events
     alone bring it, and its orders among those added to the queue are the ones it pushed, in order.
     */
    method Run(events: seq<Event>) returns (ghost arrivals: seq<Arrival>)
      modifies this
      ensures queue == old(queue) + OrdersOf(arrivals)
      ensures Tracks(old(connections), connections, arrivals, events, toPrice)
    {
      arrivals := [];
      for i := 0 to |events|
        invariant queue == old(queue) + OrdersOf(arrivals)
        invariant Tracks(old(connections), connections, arrivals, events[..i], toPrice)
      {
        ghost var before := connections;
        ghost var more := HandleEvent(events[i]);
        TracksNext(old(connections), before, connections, arrivals, events[..i], events[i], more, toPrice);
        assert events[..i] + [events[i]] == events[..i + 1];
        arrivals := arrivals + Tagged(events[i].fd, more);
      }
      assert events[..|events|] == events;
    }
  }

  lemma OneFrame(queue: seq<Order>, o: Order, buf: seq<Byte>, toPrice: nat -> real)
    requires |buf| >= MSG_SIZE && o == WireToOrder(Decode(buf[..MSG_SIZE]), toPrice)
    ensures queue + Decoded(buf, toPrice) == queue + [o] + Decoded(buf[MSG_SIZE..], toPrice)
  {
    assert buf == buf[..MSG_SIZE] + buf[MSG_SIZE..];
    HeadFrame(buf[..MSG_SIZE], buf[MSG_SIZE..], toPrice);
    Assoc(queue, [o], Decoded(buf[MSG_SIZE..], toPrice));
  }

  /**
   What was read, up to a point where there was nothing more to read, from each connection that was
   accepted on one descriptor, in turn; `open` says whether the last of them still is.
   */
  datatype Reads = Reads(streams: seq<seq<Byte>>, open: bool)

  function Read(r: Reads, e: Event): Reads {
    match e
    case Accepted(_) => Reads(r.streams + [[]], true)
    case HungUp(_) => r.(open := false)
    case Readable(_, chunks, end) =>
      if !r.open || r.streams == [] then r
      else if !end.WouldBlock? then r.(open := false)
      else
        var n := |r.streams| - 1;
        r.(streams := r.streams[..n] + [r.streams[n] + Joined(chunks)])
  }

  function ReadsOf(events: seq<Event>, fd: int): Reads {
    if events == [] then Reads([], false) else
      var mid := ReadsOf(events[..|events| - 1], fd);
      if events[|events| - 1].fd == fd then Read(mid, events[|events| - 1]) else mid
  }

  function DecodedAll(streams: seq<seq<Byte>>, toPrice: nat -> real): seq<Order> {
    if streams == [] then [] else
      DecodedAll(streams[..|streams| - 1], toPrice) + Decoded(streams[|streams| - 1], toPrice)
  }

  lemma DecodedAllSnoc(streams: seq<seq<Byte>>, stream: seq<Byte>, toPrice: nat -> real)
    ensures DecodedAll(streams + [stream], toPrice) == DecodedAll(streams, toPrice) + Decoded(stream, toPrice)
  {
    assert (streams + [stream])[..|streams|] == streams;
  }

  /** The connection that has read `r`. */
  predicate HasRead(c: Connection, r: Reads, toPrice: nat -> real) {
    && (r.open ==> r.streams != [])
    && c.pushed == DecodedAll(r.streams, toPrice)
    && c.buf == if r.open then Some(Leftover(r.streams[|r.streams| - 1])) else None
  }

  lemma ReadMore(c: Connection, r: Reads, e: Event, toPrice: nat -> real)
    requires HasRead(c, r, toPrice)
    ensures HasRead(After(c, e, toPrice), Read(r, e), toPrice)
  {
    if e.Accepted? {
      DecodedAllSnoc(r.streams, [], toPrice);
      assert Decoded([], toPrice) == [];
    } else if e.Readable? && r.open && e.end.WouldBlock? {
      var n := |r.streams| - 1;
      var init, last, more := r.streams[..n], r.streams[n], Joined(e.chunks);
      DecodedAllSnoc(init, last + more, toPrice);
      ParseInParts(last, more, toPrice);
      Assoc(DecodedAll(init, toPrice), Decoded(last, toPrice), Decoded(Leftover(last) + more, toPrice));
    }
  }

  /**
   For every sequence of events: a descriptor has pushed exactly the orders that are complete in what was
   read from each of its connections, one connection after the other. Whatever was read in the wakeup that
   found a connection closed is dropped, and so is an incomplete frame.
   */
  lemma {:induction false} PushesWhatWasRead(events: seq<Event>, fd: int, toPrice: nat -> real)
    ensures HasRead(AfterAll(Connection(None, []), events, fd, toPrice), ReadsOf(events, fd), toPrice)
  {
    if events != [] {
      var init, e := events[..|events| - 1], events[|events| - 1];
      PushesWhatWasRead(init, fd, toPrice);
      ReadMore(AfterAll(Connection(None, []), init, fd, toPrice), ReadsOf(init, fd), e, toPrice);
    }
  }

  /** A connection that is accepted and then woken up, each time until there is nothing more to read. */
  function Session(fd: int, wakeups: seq<seq<seq<Byte>>>): seq<Event> {
    if wakeups == [] then [Accepted(fd)] else
      Session(fd, wakeups[..|wakeups| - 1]) + [Readable(fd, wakeups[|wakeups| - 1], WouldBlock)]
  }

  /** All bytes of all reads, in order. */
  function Bytes(wakeups: seq<seq<seq<Byte>>>): seq<Byte> {
    if wakeups == [] then [] else Bytes(wakeups[..|wakeups| - 1]) + Joined(wakeups[|wakeups| - 1])
  }

  lemma ReadsSnoc(events: seq<Event>, e: Event)
    ensures ReadsOf(events + [e], e.fd) == Read(ReadsOf(events, e.fd), e)
  {
    assert (events + [e])[..|events|] == events;
  }

  lemma {:induction false} SessionReads(fd: int, wakeups: seq<seq<seq<Byte>>>)
    ensures ReadsOf(Session(fd, wakeups), fd) == Reads([Bytes(wakeups)], true)
  {
    if wakeups == [] {
      ReadsSnoc([], Accepted(fd));
    } else {
      var init, last := wakeups[..|wakeups| - 1], wakeups[|wakeups| - 1];
      SessionReads(fd, init);
      ReadsSnoc(Session(fd, init), Readable(fd, last, WouldBlock));
    }
  }

  lemma DecodedOne(stream: seq<Byte>, toPrice: nat -> real)
    ensures DecodedAll([stream], toPrice) == Decoded(stream, toPrice)
  {
    DecodedAllSnoc([], stream, toPrice);
    assert [] + [stream] == [stream] && [] + Decoded(stream, toPrice) == Decoded(stream, toPrice);
  }

  /** However the stream is cut into reads and wakeups, the orders pushed and the leftover are those of the stream. */
  lemma ChunkingDoesNotMatter(fd: int, wakeups: seq<seq<seq<Byte>>>, toPrice: nat -> real)
    ensures AfterAll(Connection(None, []), Session(fd, wakeups), fd, toPrice)
      == Connection(Some(Leftover(Bytes(wakeups))), Decoded(Bytes(wakeups), toPrice))
  {
    SessionReads(fd, wakeups);
    PushesWhatWasRead(Session(fd, wakeups), fd, toPrice);
    DecodedOne(Bytes(wakeups), toPrice);
  }

  /** So a client's orders arrive exactly as sent, whatever the network does to the stream. */
  lemma OrdersArriveAsSent(orders: seq<Order>, toBits: real -> nat, toPrice: nat -> real, padding: seq<Byte>,
                           fd: int, wakeups: seq<seq<seq<Byte>>>)
    requires |padding| == 6 && AllSendable(orders, toBits, toPrice)
    requires Bytes(wakeups) == EncodeAll(orders, toBits, padding)
    ensures AfterAll(Connection(None, []), Session(fd, wakeups), fd, toPrice) == Connection(Some([]), orders)
  {
    ChunkingDoesNotMatter(fd, wakeups, toPrice);
    StreamRoundTrip(orders, toBits, toPrice, padding);
  }

  /** The clients of one descriptor: what each sent, and that each stream is a part of that, from its start. */
  ghost predicate Clients(streams: seq<seq<Byte>>, sent: seq<seq<Order>>, toBits: real -> nat, toPrice: nat -> real,
                          padding: seq<Byte>)
  {
    && |padding| == 6 && |sent| == |streams|
    && forall i :: 0 <= i < |sent| ==> AllSendable(sent[i], toBits, toPrice) && streams[i] <= EncodeAll(sent[i], toBits, padding)
  }

  /** Of each client the orders whose frames are complete in its stream. */
  function Complete(streams: seq<seq<Byte>>, sent: seq<seq<Order>>): seq<Order>
    requires |sent| == |streams| && forall i :: 0 <= i < |sent| ==> |streams[i]| / MSG_SIZE <= |sent[i]|
  {
    if sent == [] then [] else
      var n := |sent| - 1;
      Complete(streams[..n], sent[..n]) + sent[n][..|streams[n]| / MSG_SIZE]
  }

  lemma EachComplete(streams: seq<seq<Byte>>, sent: seq<seq<Order>>, toBits: real -> nat, toPrice: nat -> real, padding: seq<Byte>)
    requires Clients(streams, sent, toBits, toPrice, padding)
    ensures forall i :: 0 <= i < |sent| ==> |streams[i]| / MSG_SIZE <= |sent[i]|
    ensures forall i :: 0 <= i < |sent| ==> Decoded(streams[i], toPrice) == sent[i][..|streams[i]| / MSG_SIZE]
  {
    forall i | 0 <= i < |sent|
      ensures |streams[i]| / MSG_SIZE <= |sent[i]| && Decoded(streams[i], toPrice) == sent[i][..|streams[i]| / MSG_SIZE]
    {
      PrefixRoundTrip(sent[i], toBits, toPrice, padding, streams[i]);
    }
  }

  lemma {:induction false} DecodedAllIsComplete(streams: seq<seq<Byte>>, sent: seq<seq<Order>>, toPrice: nat -> real)
    requires |sent| == |streams| && forall i :: 0 <= i < |sent| ==> |streams[i]| / MSG_SIZE <= |sent[i]|
    requires forall i :: 0 <= i < |sent| ==> Decoded(streams[i], toPrice) == sent[i][..|streams[i]| / MSG_SIZE]
    ensures DecodedAll(streams, toPrice) == Complete(streams, sent)
  {
    if sent != [] {
      DecodedAllIsComplete(streams[..|sent| - 1], sent[..|sent| - 1], toPrice);
    }
  }

  /** Nothing is missing exactly when nothing is missing from any client. */
  lemma {:induction false} CompleteIsAll(streams: seq<seq<Byte>>, sent: seq<seq<Order>>)
    requires |sent| == |streams| && forall i :: 0 <= i < |sent| ==> |streams[i]| / MSG_SIZE <= |sent[i]|
    ensures |Complete(streams, sent)| <= |Joined(sent)|
    ensures |Complete(streams, sent)| == |Joined(sent)| <==> forall i :: 0 <= i < |sent| ==> |streams[i]| / MSG_SIZE == |sent[i]|
    ensures |Complete(streams, sent)| == |Joined(sent)| ==> Complete(streams, sent) == Joined(sent)
  {
    if sent != [] {
      var n := |sent| - 1;
      CompleteIsAll(streams[..n], sent[..n]);
      if |streams[n]| / MSG_SIZE == |sent[n]| {
        assert sent[n][..|sent[n]|] == sent[n];
      }
    }
  }

  /**
   What becomes of clients' orders, among any events of other descriptors, for any number of clients that
   get the same descriptor one after the other: exactly the orders that are complete in what was read from
   each arrive, so all of them if and only if everything that each sent was read.
   */
  lemma ArriveUpToClose(events: seq<Event>, fd: int, sent: seq<seq<Order>>,
                        toBits: real -> nat, toPrice: nat -> real, padding: seq<Byte>)
    requires Clients(ReadsOf(events, fd).streams, sent, toBits, toPrice, padding)
    ensures var streams := ReadsOf(events, fd).streams;
      var pushed := AfterAll(Connection(None, []), events, fd, toPrice).pushed;
      && (forall i :: 0 <= i < |sent| ==> |streams[i]| / MSG_SIZE <= |sent[i]|)
      && pushed == Complete(streams, sent)
      && (pushed == Joined(sent) <==> forall i :: 0 <= i < |sent| ==> streams[i] == EncodeAll(sent[i], toBits, padding))
  {
    var streams := ReadsOf(events, fd).streams;
    PushesWhatWasRead(events, fd, toPrice);
    EachComplete(streams, sent, toBits, toPrice, padding);
    DecodedAllIsComplete(streams, sent, toPrice);
    CompleteIsAll(streams, sent);
    forall i | 0 <= i < |sent|
      ensures |streams[i]| / MSG_SIZE == |sent[i]| <==> streams[i] == EncodeAll(sent[i], toBits, padding)
    {
      WholeStream(sent[i], toBits, padding, streams[i]);
    }
  }

  lemma WholeStream(orders: seq<Order>, toBits: real -> nat, padding: seq<Byte>, stream: seq<Byte>)
    requires |padding| == 6 && stream <= EncodeAll(orders, toBits, padding)
    requires forall i :: 0 <= i < |orders| ==> Fits(OrderToWire(orders[i], toBits))
    ensures |stream| / MSG_SIZE == |orders| <==> stream == EncodeAll(orders, toBits, padding)
  {
    EncodeAllLength(orders, toBits, padding);
    assert |stream| == |EncodeAll(orders, toBits, padding)| ==> stream == EncodeAll(orders, toBits, padding);
  }

  /** A client whose orders and end of stream are read in one wakeup loses all of them. */
  lemma SentAndClosed(fd: int, orders: seq<Order>, toBits: real -> nat, toPrice: nat -> real, padding: seq<Byte>)
    ensures var events := [Accepted(fd), Readable(fd, [EncodeAll(orders, toBits, padding)], PeerClosed)];
      AfterAll(Connection(None, []), events, fd, toPrice).pushed == []
  {
    var events := [Accepted(fd), Readable(fd, [EncodeAll(orders, toBits, padding)], PeerClosed)];
    assert events[..1] == [Accepted(fd)] && events[..1][..0] == [];
    assert AfterAll(Connection(None, []), events[..1], fd, toPrice) == Connection(Some([]), []);
  }
}
