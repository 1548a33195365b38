/**
 * Inbound packet handling of a multiplayer connection (`MultiplayerIO`).
 *
 * A message from the socket starts with the packet's type hash, followed by
 * the payload. The message is classified in a fixed order: too short to hold
 * a type hash, no receiver for the type, receiver failed to decode, or
 * decoded. A decoded packet is handled at once or queued per type, depending
 * on the handling mode; queued packets are later handed to their handlers,
 * type by type, each type's packets in arrival order. A missing handler drops
 * the packet; a handler that throws closes the socket.
 *
 * Receivers and handlers are code this model does not see, so each is a
 * function from its input to an outcome (decoded or threw, returned or threw).
 * Lines written to the error stream, and every call of a handler, are
 * recorded as events in `log`.
 */
module MultiplayerIo {

  newtype Byte = b: int | 0 <= b < 256

  /** A packet type hash, read from the first bytes of a message. */
  type TypeHash = nat

  /** `sizeof(PacketTypeHash)`: the hash is a 64-bit integer. */
  const TypeHashSize: nat := 8

  /** The object a receiver decodes a payload into; never inspected here. */
  datatype Packet = Packet(fields: seq<Byte>)

  /** What a receiver does with a payload. */
  datatype Decoded = Decoded(packet: Packet) | DecodeThrew(message: string)

  /** What a handler does with a packet. */
  datatype HandlerOutcome = HandlerReturned | HandlerThrew(message: string)

  type Receiver = seq<Byte> -> Decoded
  type Handler = Packet -> HandlerOutcome

  datatype PacketHandlingMode = ImmediatelyOnSocketThread | Deferred

  /** How one packet was dispatched by `handlePacket`. */
  datatype Dispatch = NoHandler | Handled | HandlerFailed(message: string)

  /** The observable trace of the connection. */
  datatype Event =
    | TooShort(size: nat)
    | NoReceiver(typeHash: TypeHash)
    | ReceiveFailed(typeHash: TypeHash, message: string)
    | Dispatched(typeHash: TypeHash, packet: Packet, result: Dispatch)
    | LeftoverPackets
    | Ended

  /** The class of an incoming message, in the order the checks are made. */
  datatype Inbound =
    | Short(size: nat)
    | Unregistered(typeHash: TypeHash)
    | Undecodable(typeHash: TypeHash, message: string)
    | Received(typeHash: TypeHash, packet: Packet)

  // ---------------------------------------------------------------------
  // The type hash on the wire (read as a little-endian 64-bit integer)

  function Power256(n: nat): (p: nat)
    ensures p >= 1
  {
    if n == 0 then 1 else 256 * Power256(n - 1)
  }

  /** The unsigned integer stored little-endian in `bytes`. */
  function LittleEndian(bytes: seq<Byte>): (n: nat)
    ensures n < Power256(|bytes|)
  {
    if bytes == [] then 0 else bytes[0] as nat + 256 * LittleEndian(bytes[1..])
  }

  /** The `n` little-endian bytes of `v`, as a sender writes the type hash. */
  function LittleEndianBytes(v: nat, n: nat): (bytes: seq<Byte>)
    requires v < Power256(n)
    ensures |bytes| == n
  {
    if n == 0 then [] else [(v % 256) as Byte] + LittleEndianBytes(v / 256, n - 1)
  }

  /** Reading back the bytes a sender wrote gives the same integer. */
  lemma {:induction false} LittleEndianRoundTrip(v: nat, n: nat)
    requires v < Power256(n)
    ensures LittleEndian(LittleEndianBytes(v, n)) == v
  {
    if n > 0 {
      var rest := LittleEndianBytes(v / 256, n - 1);
      var bytes := [(v % 256) as Byte] + rest;
      assert bytes[1..] == rest;
      LittleEndianRoundTrip(v / 256, n - 1);
      assert LittleEndian(bytes) == v % 256 + 256 * (v / 256);
    }
  }

  // ---------------------------------------------------------------------
  // Classification and dispatch

  function Queue(queues: map<TypeHash, seq<Packet>>, h: TypeHash): seq<Packet> {
    if h in queues then queues[h] else []
  }

  /**
   * `handleInput`'s checks, in order: fewer bytes than a type hash; no
   * receiver registered for the hash; the receiver throws; decoded.
   */
  function Classify(data: seq<Byte>, receivers: map<TypeHash, Receiver>): (c: Inbound)
    ensures c.Short? <==> |data| < TypeHashSize
    ensures c.Short? ==> c.size == |data|
    ensures !c.Short? ==> c.typeHash == LittleEndian(data[..TypeHashSize])
    ensures c.Unregistered? <==> !c.Short? && c.typeHash !in receivers
    ensures c.Undecodable? <==>
              !c.Short? && c.typeHash in receivers && receivers[c.typeHash](data[TypeHashSize..]).DecodeThrew?
    ensures c.Undecodable? ==> receivers[c.typeHash](data[TypeHashSize..]) == DecodeThrew(c.message)
    ensures c.Received? ==> receivers[c.typeHash](data[TypeHashSize..]) == Decoded(c.packet)
  {
    if |data| < TypeHashSize then Short(|data|)
    else
      var h := LittleEndian(data[..TypeHashSize]);
      if h !in receivers then Unregistered(h)
      else match receivers[h](data[TypeHashSize..])
        case DecodeThrew(m) => Undecodable(h, m)
        case Decoded(p) => Received(h, p)
  }

  /** The event `handleInput` logs for a message it drops. */
  function DropEvent(c: Inbound): Event
    requires !c.Received?
  {
    match c
    case Short(n) => TooShort(n)
    case Unregistered(h) => NoReceiver(h)
    case Undecodable(h, m) => ReceiveFailed(h, m)
  }

  /**
   * A message made of a type hash written little-endian and a payload is
   * classified by that very hash: dropped when no receiver is registered,
   * otherwise decoded by that hash's receiver from exactly the payload.
   */
  lemma ClassifyFrame(h: TypeHash, payload: seq<Byte>, receivers: map<TypeHash, Receiver>)
    requires h < Power256(TypeHashSize)
    ensures var c := Classify(LittleEndianBytes(h, TypeHashSize) + payload, receivers);
            && !c.Short? && c.typeHash == h
            && (h !in receivers ==> c == Unregistered(h))
            && (h in receivers && receivers[h](payload).Decoded? ==>
                  c == Received(h, receivers[h](payload).packet))
            && (h in receivers && receivers[h](payload).DecodeThrew? ==>
                  c == Undecodable(h, receivers[h](payload).message))
  {
    var data := LittleEndianBytes(h, TypeHashSize) + payload;
    assert data[..TypeHashSize] == LittleEndianBytes(h, TypeHashSize);
    assert data[TypeHashSize..] == payload;
    LittleEndianRoundTrip(h, TypeHashSize);
  }

  /** `handlePacket`: what happens to a packet of type `h`. */
  function DispatchResult(handlers: map<TypeHash, Handler>, h: TypeHash, p: Packet): (d: Dispatch)
    ensures d.NoHandler? <==> h !in handlers
    ensures d.HandlerFailed? <==> h in handlers && handlers[h](p).HandlerThrew?
  {
    if h !in handlers then NoHandler
    else match handlers[h](p)
      case HandlerReturned => Handled
      case HandlerThrew(m) => HandlerFailed(m)
  }

  // ---------------------------------------------------------------------
  // Reading the trace

  /** The packets of type `h` that were dispatched, in dispatch order. */
  function DispatchedOf(events: seq<Event>, h: TypeHash): seq<Packet> {
    if events == [] then []
    else
      var last := events[|events| - 1];
      DispatchedOf(events[..|events| - 1], h) +
        (if last.Dispatched? && last.typeHash == h then [last.packet] else [])
  }

  /** True when some handler call in the trace threw. */
  predicate AnyHandlerFailed(events: seq<Event>) {
    if events == [] then false
    else
      var last := events[|events| - 1];
      AnyHandlerFailed(events[..|events| - 1]) || (last.Dispatched? && last.result.HandlerFailed?)
  }

  /** Every event of the trace is a dispatch whose result is the handler's. */
  predicate DispatchesBy(events: seq<Event>, handlers: map<TypeHash, Handler>) {
    if events == [] then true
    else
      var last := events[|events| - 1];
      DispatchesBy(events[..|events| - 1], handlers) &&
      last.Dispatched? && last.result == DispatchResult(handlers, last.typeHash, last.packet)
  }

  lemma {:induction false} DispatchTraceAppend(a: seq<Event>, b: seq<Event>, handlers: map<TypeHash, Handler>)
    ensures DispatchesBy(a + b, handlers) <==> DispatchesBy(a, handlers) && DispatchesBy(b, handlers)
    ensures AnyHandlerFailed(a + b) <==> AnyHandlerFailed(a) || AnyHandlerFailed(b)
  {
    if b == [] {
      assert a + b == a;
    } else {
      var b' := b[..|b| - 1];
      assert (a + b)[..|a + b| - 1] == a + b';
      DispatchTraceAppend(a, b', handlers);
    }
  }

  /** A trace that `DispatchesBy` the handlers has the handler's result at every position. */
  lemma {:induction false} DispatchesByAt(events: seq<Event>, handlers: map<TypeHash, Handler>, i: nat)
    requires DispatchesBy(events, handlers) && i < |events|
    ensures events[i].Dispatched?
    ensures events[i].result == DispatchResult(handlers, events[i].typeHash, events[i].packet)
  {
    var n := |events| - 1;
    if i < n {
      assert events[..n][i] == events[i];
      DispatchesByAt(events[..n], handlers, i);
    }
  }

  /** A failed trace has a failed dispatch at some position. */
  lemma {:induction false} FailedAt(events: seq<Event>) returns (i: nat)
    requires AnyHandlerFailed(events)
    ensures i < |events| && events[i].Dispatched? && events[i].result.HandlerFailed?
  {
    var n := |events| - 1;
    if AnyHandlerFailed(events[..n]) {
      i := FailedAt(events[..n]);
      assert events[..n][i] == events[i];
    } else {
      i := n;
    }
  }

  /** Per-type dispatch order is kept when two traces are concatenated. */
  lemma {:induction false} DispatchedOfAppend(a: seq<Event>, b: seq<Event>, h: TypeHash)
    ensures DispatchedOf(a + b, h) == DispatchedOf(a, h) + DispatchedOf(b, h)
  {
    if b != [] {
      var b' := b[..|b| - 1];
      assert (a + b)[..|a + b| - 1] == a + b';
      DispatchedOfAppend(a, b', h);
    } else {
      assert a + b == a;
    }
  }

  lemma AppendAssociative(a: seq<Event>, b: seq<Event>, c: seq<Event>)
    ensures (a + b) + c == a + (b + c)
  {
  }

  /** The events of dispatching the packets `q` of type `h`, in order. */
  function DispatchAll(h: TypeHash, q: seq<Packet>, handlers: map<TypeHash, Handler>): (events: seq<Event>)
    ensures |events| == |q|
  {
    if q == [] then []
    else
      var p := q[|q| - 1];
      DispatchAll(h, q[..|q| - 1], handlers) + [Dispatched(h, p, DispatchResult(handlers, h, p))]
  }

  /** Dispatching one type's queue dispatches exactly its packets, in order, each by its handler. */
  lemma {:induction false} DispatchAllFacts(h: TypeHash, q: seq<Packet>, handlers: map<TypeHash, Handler>)
    ensures forall k :: DispatchedOf(DispatchAll(h, q, handlers), k) == if k == h then q else []
    ensures DispatchesBy(DispatchAll(h, q, handlers), handlers)
  {
    if q != [] {
      var q' := q[..|q| - 1];
      var events := DispatchAll(h, q, handlers);
      DispatchAllFacts(h, q', handlers);
      assert events[..|events| - 1] == DispatchAll(h, q', handlers);
      assert q == q' + [q[|q| - 1]];
    }
  }

  /**
   * One step of draining: the trace so far holds the packets of the types
   * already drained, and the queue of `h` is dispatched after it.
   */
  lemma DrainStep(trace: seq<Event>, queues: map<TypeHash, seq<Packet>>, todo: set<TypeHash>,
                  h: TypeHash, handlers: map<TypeHash, Handler>)
    requires h in todo && todo <= queues.Keys
    requires forall k :: DispatchedOf(trace, k) == if k in todo then [] else Queue(queues, k)
    requires DispatchesBy(trace, handlers)
    ensures var trace' := trace + DispatchAll(h, queues[h], handlers);
            && (forall k :: DispatchedOf(trace', k) == if k in todo - {h} then [] else Queue(queues, k))
            && DispatchesBy(trace', handlers)
            && (AnyHandlerFailed(trace') <==>
                  AnyHandlerFailed(trace) || AnyHandlerFailed(DispatchAll(h, queues[h], handlers)))
  {
    var added := DispatchAll(h, queues[h], handlers);
    DispatchAllFacts(h, queues[h], handlers);
    DispatchTraceAppend(trace, added, handlers);
    forall k
      ensures DispatchedOf(trace + added, k) == if k in todo - {h} then [] else Queue(queues, k)
    {
      DispatchedOfAppend(trace, added, k);
    }
  }

  /** Every dispatch event of type `h` in a trace is one of `DispatchedOf(events, h)`. */
  lemma {:induction false} DispatchedIn(events: seq<Event>, i: nat)
    requires i < |events| && events[i].Dispatched?
    ensures events[i].packet in DispatchedOf(events, events[i].typeHash)
  {
    var n := |events| - 1;
    if i < n {
      assert events[..n][i] == events[i];
      DispatchedIn(events[..n], i);
    }
  }

  /**
   * The socket is closed by a drain only through a handler that throws on a
   * queued packet: when the trace holds exactly the queued packets, each
   * dispatched to its type's handler, and no handler throws on any queued
   * packet, then no dispatch in the trace failed.
   */
  lemma NoFailureWithoutThrowingHandler(events: seq<Event>, queues: map<TypeHash, seq<Packet>>,
                                        handlers: map<TypeHash, Handler>)
    requires DispatchesBy(events, handlers)
    requires forall h :: DispatchedOf(events, h) == Queue(queues, h)
    requires forall h, p :: h in queues && h in handlers && p in queues[h] ==> handlers[h](p).HandlerReturned?
    ensures !AnyHandlerFailed(events)
  {
    if AnyHandlerFailed(events) {
      var i := FailedAt(events);
      DispatchesByAt(events, handlers, i);
      DispatchedIn(events, i);
    }
  }

  /**
   * The converse: a handler that throws on a queued packet makes the drain
   * fail, so `HandlePackets` closes the socket.
   */
  lemma ThrowingHandlerFails(events: seq<Event>, queues: map<TypeHash, seq<Packet>>,
                             handlers: map<TypeHash, Handler>, h: TypeHash, p: Packet)
    requires DispatchesBy(events, handlers)
    requires forall k :: DispatchedOf(events, k) == Queue(queues, k)
    requires h in queues && h in handlers && p in queues[h] && handlers[h](p).HandlerThrew?
    ensures AnyHandlerFailed(events)
  {
    assert p in DispatchedOf(events, h);
    var i := DispatchedAt(events, h, p);
    DispatchesByAt(events, handlers, i);
    FailedEventFails(events, i);
  }

  /** A packet dispatched for type `h` has a dispatch event in the trace. */
  lemma {:induction false} DispatchedAt(events: seq<Event>, h: TypeHash, p: Packet) returns (i: nat)
    requires p in DispatchedOf(events, h)
    ensures i < |events| && events[i].Dispatched? && events[i].typeHash == h && events[i].packet == p
  {
    var n := |events| - 1;
    if p in DispatchedOf(events[..n], h) {
      i := DispatchedAt(events[..n], h, p);
      assert events[..n][i] == events[i];
    } else {
      i := n;
    }
  }

  /** A failed dispatch anywhere in the trace makes the trace fail. */
  lemma {:induction false} FailedEventFails(events: seq<Event>, i: nat)
    requires i < |events| && events[i].Dispatched? && events[i].result.HandlerFailed?
    ensures AnyHandlerFailed(events)
  {
    var n := |events| - 1;
    if i < n {
      assert events[..n][i] == events[i];
      FailedEventFails(events[..n], i);
    }
  }

  /** `n` copies of the event `e`. */
  function Repeat(e: Event, n: nat): seq<Event>
  {
    seq(n, _ => e)
  }

  // ---------------------------------------------------------------------
  // The connection

  class MultiplayerIO {
    const handlingMode: PacketHandlingMode
    const receivers: map<TypeHash, Receiver>
    const handlers: map<TypeHash, Handler>

    /** Decoded packets waiting for `HandlePackets`, per type (`unhandledPackets`). */
    var unhandled: map<TypeHash, seq<Packet>>
    var packetsReceived: nat
    var socketClosed: bool
    var log: seq<Event>

    /** The types whose queue still holds packets. */
    function PendingTypes(): set<TypeHash>
      reads this
    {
      set h | h in unhandled && unhandled[h] != []
    }

    /** A connection over an open socket, with its packet types registered. */
    constructor(mode: PacketHandlingMode, receivers: map<TypeHash, Receiver>,
                handlers: map<TypeHash, Handler>)
      ensures handlingMode == mode && this.receivers == receivers && this.handlers == handlers
      ensures unhandled == map[] && packetsReceived == 0 && !socketClosed && log == []
    {
      handlingMode := mode;
      this.receivers := receivers;
      this.handlers := handlers;
      unhandled := map[];
      packetsReceived := 0;
      socketClosed := false;
      log := [];
    }

    /**
     * `handlePacket`: no handler drops the packet; a handler that throws
     * closes the socket; in every case the dispatch is logged once.
     */
    method HandlePacket(h: TypeHash, p: Packet)
      modifies this`socketClosed, this`log
      ensures log == old(log) + [Dispatched(h, p, DispatchResult(handlers, h, p))]
      ensures socketClosed == (old(socketClosed) || DispatchResult(handlers, h, p).HandlerFailed?)
    {
      if h !in handlers {
        log := log + [Dispatched(h, p, NoHandler)];
        return;
      }
      var outcome := handlers[h](p);
      match outcome {
        case HandlerReturned =>
          log := log + [Dispatched(h, p, Handled)];
        case HandlerThrew(m) =>
          log := log + [Dispatched(h, p, HandlerFailed(m))];
          socketClosed := true;
      }
    }

    /**
     * `handleInput`: a dropped message changes nothing but the log; a
     * decoded packet is counted once, then dispatched at once or appended to
     * its type's queue.
     */
    method HandleInput(data: seq<Byte>)
      modifies this`unhandled, this`packetsReceived, this`socketClosed, this`log
      ensures var c := Classify(data, receivers);
              packetsReceived == old(packetsReceived) + (if c.Received? then 1 else 0)
      ensures var c := Classify(data, receivers);
              unhandled == if c.Received? && handlingMode == Deferred
                           then old(unhandled)[c.typeHash := Queue(old(unhandled), c.typeHash) + [c.packet]]
                           else old(unhandled)
      ensures var c := Classify(data, receivers);
              log == if !c.Received? then old(log) + [DropEvent(c)]
                     else if handlingMode == Deferred then old(log)
                     else old(log) + [Dispatched(c.typeHash, c.packet, DispatchResult(handlers, c.typeHash, c.packet))]
      ensures var c := Classify(data, receivers);
              socketClosed == (old(socketClosed) ||
                               (c.Received? && handlingMode == ImmediatelyOnSocketThread &&
                                DispatchResult(handlers, c.typeHash, c.packet).HandlerFailed?))
    {
      if |data| < TypeHashSize {
        log := log + [TooShort(|data|)];
        return;
      }
      var typeHash := LittleEndian(data[..TypeHashSize]);
      if typeHash !in receivers {
        log := log + [NoReceiver(typeHash)];
        return;
      }
      var decoded := receivers[typeHash](data[TypeHashSize..]);
      if decoded.DecodeThrew? {
        log := log + [ReceiveFailed(typeHash, decoded.message)];
        return;
      }
      packetsReceived := packetsReceived + 1;
      if handlingMode == ImmediatelyOnSocketThread {
        HandlePacket(typeHash, decoded.packet);
      } else {
        unhandled := unhandled[typeHash := Queue(unhandled, typeHash) + [decoded.packet]];
      }
    }

    /** The inner loop of `handlePackets`: dispatch one type's packets in order. */
    method HandleQueue(h: TypeHash, q: seq<Packet>)
      modifies this`socketClosed, this`log
      ensures log == old(log) + DispatchAll(h, q, handlers)
      ensures socketClosed == (old(socketClosed) || AnyHandlerFailed(DispatchAll(h, q, handlers)))
    {
      for j := 0 to |q|
        invariant log == old(log) + DispatchAll(h, q[..j], handlers)
        invariant socketClosed == (old(socketClosed) || AnyHandlerFailed(DispatchAll(h, q[..j], handlers)))
      {
        HandlePacket(h, q[j]);
        assert q[..j + 1][..j] == q[..j];
      }
      assert q[..|q|] == q;
    }

    /**
     * `handlePackets`: every queued packet is dispatched exactly once, each
     * type's packets in arrival order (the order between types is not fixed),
     * and every queue is left empty. The socket ends up closed exactly when it
     * was, or some handler threw.
     */
    method HandlePackets()
      modifies this`unhandled, this`socketClosed, this`log
      ensures unhandled.Keys == old(unhandled).Keys
      ensures forall h :: h in unhandled ==> unhandled[h] == []
      ensures |log| >= |old(log)| && log[..|old(log)|] == old(log)
      ensures forall h :: DispatchedOf(log[|old(log)|..], h) == Queue(old(unhandled), h)
      ensures DispatchesBy(log[|old(log)|..], handlers)
      ensures socketClosed == (old(socketClosed) || AnyHandlerFailed(log[|old(log)|..]))
    {
      ghost var queues := unhandled;
      ghost var trace: seq<Event> := [];
      var todo := unhandled.Keys;
      while todo != {}
        invariant todo <= queues.Keys && unhandled.Keys == queues.Keys
        invariant forall h :: h in unhandled ==> unhandled[h] == if h in todo then queues[h] else []
        invariant log == old(log) + trace
        invariant forall h :: DispatchedOf(trace, h) == if h in todo then [] else Queue(queues, h)
        invariant DispatchesBy(trace, handlers)
        invariant socketClosed == (old(socketClosed) || AnyHandlerFailed(trace))
        decreases todo
      {
        var h :| h in todo;
        var q := unhandled[h];
        assert q == queues[h];
        ghost var before := log;
        assert before == old(log) + trace;
        HandleQueue(h, q);
        ghost var added := DispatchAll(h, q, handlers);
        assert log == before + added;
        AppendAssociative(old(log), trace, added);
        DrainStep(trace, queues, todo, h, handlers);
        trace := trace + added;
        unhandled := unhandled[h := []];
        todo := todo - {h};
      }
      assert log[|old(log)|..] == trace;
    }

    /**
     * The destructor: one warning for every type whose queue still holds
     * packets, then the end of the connection.
     */
    method Destroy()
      modifies this`log
      ensures log == old(log) + Repeat(LeftoverPackets, |PendingTypes()|) + [Ended]
    {
      var todo := unhandled.Keys;
      while todo != {}
        invariant todo <= unhandled.Keys
        invariant log == old(log) + Repeat(LeftoverPackets, |PendingTypes() - todo|)
        decreases todo
      {
        var h :| h in todo;
        if unhandled[h] != [] {
          assert PendingTypes() - (todo - {h}) == (PendingTypes() - todo) + {h};
          log := log + [LeftoverPackets];
        } else {
          assert PendingTypes() - (todo - {h}) == PendingTypes() - todo;
        }
        todo := todo - {h};
      }
      log := log + [Ended];
    }
  }
}
