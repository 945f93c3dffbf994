/**
  TCP_transport: the object that owns one socket and frames chunks onto it.
  Sending goes through a single pending chunk (createChunk, then write).
  Receiving is either one-shot (_install_one_time_message_receiver: the
  first of data, end, error or timeout settles it) or continuous
  (_install_packet_assembler: data is fed to a PacketAssembler). disconnect
  tears the transport down once.

  The socket, the timer, setImmediate and the EventEmitter are not modelled
  as such. Each socket or timer event is a method the environment calls
  (OnSocketData, OnSocketEnd, OnSocketError, OnTimeout, RunScheduledClose).
  What the object hands to the outside world is recorded in ghost logs:
  the chunks written to the socket, the data fed to the assembler, the
  one-shot callback deliveries, the disconnect calls and callbacks run,
  and the emitted "close" events.
*/
module TcpTransport {
  import opened Wrappers
  import opened LittleEndian
  import opened ChunkHeader

  /** What one of the three handler slots (_on_data_received, _on_socket_ended, _on_socket_error) holds. */
  datatype Handler = NoHandler | OneShotReceiver | PacketAssemblerHandler

  /** The events a socket or the receive timer delivers; an Error is reduced to its optional message. */
  datatype SocketEvent = Data(data: seq<bv8>) | End(endError: Option<string>) | SocketError(error: Option<string>) | Timeout

  /** What the one-shot receiver passes to its callback: `(null, data)`, or an Error whose message is given. */
  datatype ReceiveOutcome = Received(data: seq<bv8>) | Failed(message: string)

  /** One invocation of a one-shot receiver's callback: which receiver (counted from 0) and with what. */
  datatype Delivery = Delivery(receiver: nat, outcome: ReceiveOutcome)

  const DefaultTimeout: nat := 3000
  const TimeoutMessage: string := "Timeout in waiting for data on socket"
  const EndedPrefix: string := "Connection aborted - ended by server : "
  const SocketErrorPrefix: string := "Connection aborted - error on socket : "
  const PeerDisconnectedMessage: string := "_socket has been disconnected by third party"

  /** The result the one-shot receiver reports for the event that settles it. */
  function OneShotOutcome(e: SocketEvent): (r: ReceiveOutcome)
    ensures r.Received? <==> e.Data?
    ensures e.Data? ==> r.data == e.data
  {
    match e
    case Data(data) => Received(data)
    case End(err) => Failed(EndedPrefix + err.GetOr(""))
    case SocketError(err) => Failed(SocketErrorPrefix + err.GetOr(""))
    case Timeout => Failed(TimeoutMessage)
  }

  /**
    Timeout, end-by-peer and socket error reach the callback as distinct
    failures: whatever the errors' messages, the outcome tells which one happened.
  */
  lemma FailuresDistinguishable(e1: SocketEvent, e2: SocketEvent)
    requires !e1.Data? && !e2.Data?
    requires OneShotOutcome(e1) == OneShotOutcome(e2)
    ensures e1.End? <==> e2.End?
    ensures e1.SocketError? <==> e2.SocketError?
    ensures e1.Timeout? <==> e2.Timeout?
  {
    var m1 := OneShotOutcome(e1).message;
    var m2 := OneShotOutcome(e2).message;
    assert KindMark(e1) == m1[22] by { MarkAt(e1); }
    assert KindMark(e2) == m2[22] by { MarkAt(e2); }
  }

  /** The character at position 22 of each failure message: 'n' (ended), 'r' (error) or ' ' (timeout). */
  function KindMark(e: SocketEvent): char
    requires !e.Data?
  {
    match e
    case End(_) => 'n'
    case SocketError(_) => 'r'
    case Timeout => ' '
  }

  lemma MarkAt(e: SocketEvent)
    requires !e.Data?
    ensures |OneShotOutcome(e).message| > 22 && OneShotOutcome(e).message[22] == KindMark(e)
  {
    match e
    case End(err) =>
      assert EndedPrefix[22] == 'n';
    case SocketError(err) =>
      assert SocketErrorPrefix[22] == 'r';
    case Timeout =>
      assert TimeoutMessage[22] == ' ';
  }

  /** The three slots are set and cleared together (the assembler leaves the error slot empty), and the timer runs exactly while a one-shot receiver waits. */
  predicate SlotsValid(onData: Handler, onEnded: Handler, onError: Handler, timerArmed: bool) {
    && onEnded == onData
    && onError == (if onData == OneShotReceiver then OneShotReceiver else NoHandler)
    && (timerArmed <==> onData == OneShotReceiver)
  }

  /** The receivers named in `deliveries` strictly increase and stay below `bound`. */
  predicate Ascending(deliveries: seq<Delivery>, bound: nat)
    decreases |deliveries|
  {
    deliveries == [] ||
    (deliveries[|deliveries| - 1].receiver < bound && Ascending(deliveries[..|deliveries| - 1], deliveries[|deliveries| - 1].receiver))
  }

  /**
    Each receiver's callback has run at most once, and the waiting receiver's
    (the last one installed) not yet: deliveries name receivers in increasing
    order, below the waiting one.
  */
  predicate DeliveriesValid(deliveries: seq<Delivery>, receivers: nat, waiting: bool) {
    && (waiting ==> receivers > 0)
    && Ascending(deliveries, if waiting && receivers > 0 then receivers - 1 else receivers)
  }

  /**
    One "close" has been emitted or is queued once the transport is
    disconnecting, none before; every disconnect call's callback has either
    run or is the one queued, so none is lost and none runs twice.
  */
  predicate TeardownValid(disconnecting: bool, scheduledClose: Option<nat>, closes: seq<Option<string>>,
                          callbacksRun: seq<nat>, calls: seq<nat>) {
    var queued := if scheduledClose.Some? then 1 else 0;
    && |closes| + queued == (if disconnecting then 1 else 0)
    && |callbacksRun| + queued == |calls|
  }

  /** Ascending deliveries name every receiver at most once, each below the bound. */
  lemma {:induction false} AscendingAtMostOnce(deliveries: seq<Delivery>, bound: nat)
    requires Ascending(deliveries, bound)
    ensures forall i, j | 0 <= i < j < |deliveries| :: deliveries[i].receiver < deliveries[j].receiver
    ensures forall i | 0 <= i < |deliveries| :: deliveries[i].receiver < bound
  {
    if deliveries != [] {
      var n := |deliveries| - 1;
      var init := deliveries[..n];
      AscendingAtMostOnce(init, deliveries[n].receiver);
      assert forall i | 0 <= i < n :: init[i] == deliveries[i];
    }
  }

  lemma AscendingWeaken(deliveries: seq<Delivery>, bound: nat, bound': nat)
    requires Ascending(deliveries, bound) && bound <= bound'
    ensures Ascending(deliveries, bound')
  {
  }

  /** Settling the waiting receiver records at most one delivery for it, and it stops waiting. */
  lemma SettleKeepsDeliveries(deliveries: seq<Delivery>, receivers: nat, called: bool, outcome: ReceiveOutcome)
    requires DeliveriesValid(deliveries, receivers, true)
    ensures receivers > 0
    ensures DeliveriesValid(deliveries + (if called then [Delivery(receivers - 1, outcome)] else []), receivers, false)
  {
    if called {
      var d := deliveries + [Delivery(receivers - 1, outcome)];
      assert d[..|d| - 1] == deliveries;
    } else {
      assert deliveries + [] == deliveries;
      AscendingWeaken(deliveries, receivers - 1, receivers);
    }
  }

  /** Under the teardown invariant at most one "close" is ever emitted, only once disconnecting, and no callback runs for a call that was not made. */
  lemma TeardownAtMostOneClose(disconnecting: bool, scheduledClose: Option<nat>, closes: seq<Option<string>>,
                               callbacksRun: seq<nat>, calls: seq<nat>)
    requires TeardownValid(disconnecting, scheduledClose, closes, callbacksRun, calls)
    ensures |closes| <= 1 && (|closes| == 1 ==> disconnecting)
    ensures |callbacksRun| <= |calls|
    ensures scheduledClose.None? ==> |callbacksRun| == |calls| && (disconnecting <==> |closes| == 1)
  {
  }

  class Transport {
    const headerSize: nat := HeaderSize
    const protocolVersion: nat := 1
    /** Receive timeout in milliseconds; timers are not modelled, so it only configures. */
    var timeout: nat
    /** `_socket != null` */
    var hasSocket: bool
    /** `_pending_buffer`: the chunk handed out by CreateChunk and not yet written. */
    var pendingBuffer: array?<bv8>
    /** `__disconnecting__` */
    var disconnecting: bool
    var bytesWritten: nat
    var bytesRead: nat
    var onDataReceived: Handler
    var onSocketEnded: Handler
    var onSocketError: Handler
    /** `_timerId` is set */
    var timerArmed: bool
    /** The current one-shot receiver's captured `the_callback` is still set. */
    var callbackLive: bool
    /** `packetAssembler` is set */
    var hasPacketAssembler: bool
    /** The setImmediate queued by the first disconnect, with that call's callback. */
    var scheduledClose: Option<nat>

    /** Chunks passed to socket.write. */
    ghost var sent: seq<seq<bv8>>
    /** Data passed to packetAssembler.feed. */
    ghost var fed: seq<seq<bv8>>
    /** One-shot receivers installed so far. */
    ghost var receivers: nat
    ghost var deliveries: seq<Delivery>
    /** The "close" events emitted, each with its error (None for null). */
    ghost var closes: seq<Option<string>>
    /** The callers of disconnect (one id per call), in call order, and those whose callback has run. */
    ghost var disconnectCalls: seq<nat>
    ghost var callbacksRun: seq<nat>

    /** The receiving side's invariant: slots, timer and deliveries agree. */
    ghost predicate ReceiverValid()
      reads this`onDataReceived, this`onSocketEnded, this`onSocketError, this`timerArmed, this`deliveries, this`receivers
    {
      && SlotsValid(onDataReceived, onSocketEnded, onSocketError, timerArmed)
      && DeliveriesValid(deliveries, receivers, onDataReceived == OneShotReceiver)
    }

    /** The teardown invariant: one "close", and each disconnect callback once. */
    ghost predicate TeardownInvariant()
      reads this`disconnecting, this`scheduledClose, this`closes, this`callbacksRun, this`disconnectCalls
    {
      TeardownValid(disconnecting, scheduledClose, closes, callbacksRun, disconnectCalls)
    }

    ghost predicate Valid()
      reads this
    {
      ReceiverValid() && TeardownInvariant()
    }

    constructor ()
      ensures Valid()
      ensures timeout == DefaultTimeout && !hasSocket && pendingBuffer == null && !disconnecting
      ensures bytesWritten == 0 && bytesRead == 0
      ensures onDataReceived == NoHandler && !timerArmed && !hasPacketAssembler && scheduledClose == None
      ensures sent == [] && fed == [] && receivers == 0 && deliveries == []
      ensures closes == [] && disconnectCalls == [] && callbacksRun == []
    {
      timeout := DefaultTimeout;
      hasSocket := false;
      pendingBuffer := null;
      disconnecting := false;
      bytesWritten := 0;
      bytesRead := 0;
      onDataReceived := NoHandler;
      onSocketEnded := NoHandler;
      onSocketError := NoHandler;
      timerArmed := false;
      callbackLive := false;
      hasPacketAssembler := false;
      scheduledClose := None;
      sent := [];
      fed := [];
      receivers := 0;
      deliveries := [];
      closes := [];
      disconnectCalls := [];
      callbacksRun := [];
    }

    // -------------------------------------------------------------------------
    // Sending
    // -------------------------------------------------------------------------

    /** Copies the eight header bytes to the front of a fresh chunk. */
    static method FillHeader(buffer: array<bv8>, header: seq<bv8>)
      requires |header| == HeaderSize <= buffer.Length
      modifies buffer
      ensures buffer[..HeaderSize] == header
    {
      for i := 0 to HeaderSize
        invariant buffer[..i] == header[..i]
      {
        buffer[i] := header[i];
      }
    }

    /**
      createChunk: a fresh buffer of `length` payload bytes behind an 8-byte
      header announcing the whole size; it becomes the pending chunk. The
      payload bytes are left for the caller to fill.
    */
    method CreateChunk(msgType: string, chunkType: bv8, length: nat) returns (buffer: array<bv8>)
      requires Valid()
      requires msgType == "MSG"
      requires pendingBuffer == null
      requires length + headerSize <= MaxUInt32
      modifies this`pendingBuffer
      ensures Valid()
      ensures fresh(buffer) && buffer.Length == length + HeaderSize
      ensures buffer[..HeaderSize] == WriteTcpMessageHeader(MessageTypeMsg, chunkType, buffer.Length)
      ensures ReadRawMessageHeader(buffer[..]) == Some(MessageHeader(MessageTypeMsg, chunkType, buffer.Length))
      ensures pendingBuffer == buffer
    {
      var total := length + headerSize;
      var header := WriteTcpMessageHeader(MessageTypeMsg, chunkType, total);
      buffer := new bv8[total];
      FillHeader(buffer, header);
      assert buffer[..] == header + buffer[HeaderSize..];
      HeaderRoundTrip(MessageTypeMsg, chunkType, total, buffer[HeaderSize..]);
      pendingBuffer := buffer;
    }

    /** _write_chunk: the chunk goes to the socket, and is counted, only when there is one. */
    method WriteChunk(chunk: seq<bv8>)
      requires Valid()
      modifies this`bytesWritten, this`sent
      ensures Valid()
      ensures bytesWritten == old(bytesWritten) + (if hasSocket then |chunk| else 0)
      ensures sent == old(sent) + (if hasSocket then [chunk] else [])
    {
      if hasSocket {
        bytesWritten := bytesWritten + |chunk|;
        sent := sent + [chunk];
      }
    }

    /**
      write: commits the pending chunk (or any chunk when none is pending)
      whose header is consistent, then frees the pending slot.
    */
    method Write(chunk: array<bv8>)
      requires Valid()
      requires pendingBuffer == null || pendingBuffer == chunk
      requires var h := ReadRawMessageHeader(chunk[..]);
        h.Some? && h.value.length == chunk.Length && IsChunkType(h.value.isFinal)
      modifies this`pendingBuffer, this`bytesWritten, this`sent
      ensures Valid()
      ensures pendingBuffer == null
      ensures bytesWritten == old(bytesWritten) + (if hasSocket then chunk.Length else 0)
      ensures sent == old(sent) + (if hasSocket then [chunk[..]] else [])
    {
      WriteChunk(chunk[..]);
      pendingBuffer := null;
    }

    // -------------------------------------------------------------------------
    // Receiving
    // -------------------------------------------------------------------------

    /** _install_socket: a new socket, and no packet assembler until one is installed. */
    method InstallSocket()
      requires Valid()
      modifies this`hasSocket, this`hasPacketAssembler
      ensures Valid()
      ensures hasSocket && !hasPacketAssembler
    {
      hasSocket := true;
      hasPacketAssembler := false;
    }

    /**
      _install_one_time_message_receiver: arms the timer and fills the three
      slots with a new receiver; `withCallback` says whether a callback was given.
    */
    method InstallOneTimeMessageReceiver(withCallback: bool)
      requires Valid()
      requires !timerArmed
      requires onDataReceived == NoHandler && onSocketEnded == NoHandler && onSocketError == NoHandler
      modifies this`receivers, this`callbackLive, this`timerArmed, this`onDataReceived, this`onSocketEnded, this`onSocketError
      ensures Valid()
      ensures timerArmed && onDataReceived == OneShotReceiver && onSocketEnded == OneShotReceiver && onSocketError == OneShotReceiver
      ensures callbackLive == withCallback && receivers == old(receivers) + 1
    {
      receivers := receivers + 1;
      callbackLive := withCallback;
      timerArmed := true;
      onDataReceived := OneShotReceiver;
      onSocketEnded := OneShotReceiver;
      onSocketError := OneShotReceiver;
    }

    /**
      _fulfill_pending_promises: whichever event settles the receiver clears
      all three slots and the timer; the callback, if still set, runs once.
    */
    method FulfillPendingPromises(outcome: ReceiveOutcome)
      requires Valid()
      requires onDataReceived == OneShotReceiver
      modifies this`onDataReceived, this`onSocketEnded, this`onSocketError, this`timerArmed, this`callbackLive, this`deliveries
      ensures Valid()
      ensures onDataReceived == NoHandler && onSocketEnded == NoHandler && onSocketError == NoHandler && !timerArmed
      ensures !callbackLive
      ensures deliveries == old(deliveries) + (if old(callbackLive) then [Delivery(old(receivers) - 1, outcome)] else [])
    {
      onSocketError := NoHandler;
      onDataReceived := NoHandler;
      onSocketEnded := NoHandler;
      timerArmed := false;
      SettleKeepsDeliveries(deliveries, receivers, callbackLive, outcome);
      if callbackLive {
        deliveries := deliveries + [Delivery(receivers - 1, outcome)];
      }
      callbackLive := false;
    }

    /** _install_packet_assembler: from now on data goes to a new assembler and the peer's end closes the transport. */
    method InstallPacketAssembler()
      requires Valid()
      requires onDataReceived == NoHandler && onSocketEnded == NoHandler && onSocketError == NoHandler
      modifies this`hasPacketAssembler, this`onDataReceived, this`onSocketEnded
      ensures Valid()
      ensures onDataReceived == PacketAssemblerHandler && onSocketEnded == PacketAssemblerHandler && onSocketError == NoHandler
      ensures hasPacketAssembler && !timerArmed
    {
      hasPacketAssembler := true;
      onDataReceived := PacketAssemblerHandler;
      onSocketEnded := PacketAssemblerHandler;
    }

    /**
      The socket's "data" listener: the bytes are counted first, whatever
      handler is installed; a one-shot receiver is settled with the data,
      the assembler is fed the data unless it is empty.
    */
    method OnSocketData(data: seq<bv8>)
      requires Valid()
      requires onDataReceived == PacketAssemblerHandler ==> hasPacketAssembler
      modifies this`bytesRead, this`fed,
        this`onDataReceived, this`onSocketEnded, this`onSocketError, this`timerArmed, this`callbackLive, this`deliveries
      ensures Valid()
      ensures bytesRead == old(bytesRead) + |data|
      ensures old(onDataReceived) == OneShotReceiver ==>
        onDataReceived == NoHandler && !timerArmed && !callbackLive &&
        deliveries == old(deliveries) + (if old(callbackLive) then [Delivery(old(receivers) - 1, OneShotOutcome(Data(data)))] else [])
      ensures old(onDataReceived) != OneShotReceiver ==>
        unchanged(this`onDataReceived, this`onSocketEnded, this`onSocketError, this`timerArmed, this`callbackLive, this`deliveries)
      ensures fed == old(fed) + (if old(onDataReceived) == PacketAssemblerHandler && |data| > 0 then [data] else [])
    {
      bytesRead := bytesRead + |data|;
      match onDataReceived
      case NoHandler =>
      case OneShotReceiver =>
        FulfillPendingPromises(OneShotOutcome(Data(data)));
      case PacketAssemblerHandler =>
        if |data| > 0 {
          fed := fed + [data];
        }
    }

    /**
      The socket's "end" listener (the peer sent FIN): a one-shot receiver
      fails with "ended by server"; in assembler mode the transport closes
      itself, which the source asserts happens before any teardown.
    */
    method OnSocketEnd(err: Option<string>)
      requires Valid()
      requires onSocketEnded == PacketAssemblerHandler ==> !disconnecting
      modifies this`onDataReceived, this`onSocketEnded, this`onSocketError, this`timerArmed, this`callbackLive, this`deliveries,
        this`closes, this`disconnecting
      ensures Valid()
      ensures old(onSocketEnded) == OneShotReceiver ==>
        onDataReceived == NoHandler && !timerArmed && !callbackLive &&
        deliveries == old(deliveries) + (if old(callbackLive) then [Delivery(old(receivers) - 1, OneShotOutcome(End(err)))] else []) &&
        unchanged(this`disconnecting, this`closes)
      ensures old(onSocketEnded) == PacketAssemblerHandler ==>
        onDataReceived == NoHandler && onSocketEnded == NoHandler && onSocketError == NoHandler && disconnecting &&
        closes == old(closes) + [Some(err.GetOr(PeerDisconnectedMessage))] &&
        unchanged(this`timerArmed, this`callbackLive, this`deliveries)
      ensures old(onSocketEnded) == NoHandler ==>
        unchanged(this`onDataReceived, this`onSocketEnded, this`onSocketError, this`timerArmed, this`callbackLive, this`deliveries) &&
        unchanged(this`disconnecting, this`closes)
    {
      match onSocketEnded
      case NoHandler =>
      case OneShotReceiver =>
        FulfillPendingPromises(OneShotOutcome(End(err)));
      case PacketAssemblerHandler =>
        PeerEnded(err);
    }

    /**
      The assembler's on_socket_ended_by_external_source: clears the slots,
      emits "close" with the peer's error or a default one, and marks the
      transport as disconnecting, so a later disconnect only calls back.
      The "close" is logged, not dispatched: no listener runs before the flag
      is set, which the source does not guarantee.
    */
    method PeerEnded(err: Option<string>)
      requires Valid()
      requires onSocketEnded == PacketAssemblerHandler
      requires !disconnecting
      modifies this`onDataReceived, this`onSocketEnded, this`onSocketError, this`closes, this`disconnecting
      ensures Valid()
      ensures onDataReceived == NoHandler && onSocketEnded == NoHandler && onSocketError == NoHandler
      ensures disconnecting
      ensures closes == old(closes) + [Some(err.GetOr(PeerDisconnectedMessage))]
      ensures |closes| == 1
    {
      onSocketEnded := NoHandler;
      onDataReceived := NoHandler;
      onSocketError := NoHandler;
      closes := closes + [Some(err.GetOr(PeerDisconnectedMessage))];
      disconnecting := true;
    }

    /** The socket's "error" listener: only a one-shot receiver listens, and fails with "error on socket". */
    method OnSocketError(err: Option<string>)
      requires Valid()
      modifies this`onDataReceived, this`onSocketEnded, this`onSocketError, this`timerArmed, this`callbackLive, this`deliveries
      ensures Valid()
      ensures old(onSocketError) == OneShotReceiver ==>
        onDataReceived == NoHandler && !timerArmed && !callbackLive &&
        deliveries == old(deliveries) + (if old(callbackLive) then [Delivery(old(receivers) - 1, OneShotOutcome(SocketError(err)))] else [])
      ensures old(onSocketError) == NoHandler ==>
        unchanged(this`onDataReceived, this`onSocketEnded, this`onSocketError, this`timerArmed, this`callbackLive, this`deliveries)
    {
      if onSocketError == OneShotReceiver {
        FulfillPendingPromises(OneShotOutcome(SocketError(err)));
      }
    }

    /** The receive timer fires (it is only ever armed for a waiting one-shot receiver). */
    method OnTimeout()
      requires Valid()
      requires timerArmed
      modifies this`onDataReceived, this`onSocketEnded, this`onSocketError, this`timerArmed, this`callbackLive, this`deliveries
      ensures Valid()
      ensures onDataReceived == NoHandler && onSocketEnded == NoHandler && onSocketError == NoHandler && !timerArmed && !callbackLive
      ensures deliveries == old(deliveries) + (if old(callbackLive) then [Delivery(old(receivers) - 1, OneShotOutcome(Timeout))] else [])
    {
      FulfillPendingPromises(OneShotOutcome(Timeout));
    }

    // -------------------------------------------------------------------------
    // Teardown
    // -------------------------------------------------------------------------

    /**
      disconnect: a call while already disconnecting just runs its callback.
      The first call stops the timer, empties the slots, drops the socket and
      queues the "close" event and its callback.
    */
    method Disconnect(caller: nat)
      requires Valid()
      modifies this`disconnectCalls, this`callbacksRun, this`disconnecting, this`timerArmed,
        this`onDataReceived, this`onSocketEnded, this`onSocketError, this`hasSocket, this`scheduledClose
      ensures Valid()
      ensures disconnecting
      ensures disconnectCalls == old(disconnectCalls) + [caller]
      ensures old(disconnecting) ==>
        callbacksRun == old(callbacksRun) + [caller] &&
        unchanged(this`onDataReceived, this`onSocketEnded, this`onSocketError, this`timerArmed, this`hasSocket, this`scheduledClose)
      ensures !old(disconnecting) ==>
        scheduledClose == Some(caller) && !hasSocket && !timerArmed &&
        onDataReceived == NoHandler && onSocketEnded == NoHandler && onSocketError == NoHandler &&
        unchanged(this`callbacksRun)
    {
      if disconnecting {
        disconnectCalls := disconnectCalls + [caller];
        callbacksRun := callbacksRun + [caller];
        return;
      }
      disconnectCalls := disconnectCalls + [caller];
      disconnecting := true;
      timerArmed := false;
      onDataReceived := NoHandler;
      onSocketEnded := NoHandler;
      onSocketError := NoHandler;
      hasSocket := false;
      scheduledClose := Some(caller);
    }

    /** The callback queued by the first disconnect: emits "close" with no error, then calls back. */
    method RunScheduledClose()
      requires Valid()
      requires scheduledClose.Some?
      modifies this`disconnecting, this`closes, this`callbacksRun, this`scheduledClose
      ensures Valid()
      ensures disconnecting && scheduledClose == None
      ensures closes == old(closes) + [None] && |closes| == 1
      ensures callbacksRun == old(callbacksRun) + [old(scheduledClose).value]
    {
      var caller := scheduledClose.value;
      disconnecting := true;
      closes := closes + [None];
      callbacksRun := callbacksRun + [caller];
      scheduledClose := None;
    }
  }

  /**
    Two disconnect calls on a live transport, then the queued callback:
    exactly one "close" (with no error), and each caller called back once,
    the second caller first since its callback runs at once.
  */
  method DisconnectTwice(t: Transport, first: nat, second: nat)
    requires t.Valid() && !t.disconnecting
    modifies t
    ensures t.Valid() && t.disconnecting && t.scheduledClose == None
    ensures t.closes == [None]
    ensures t.callbacksRun == old(t.callbacksRun) + [second, first]
    ensures t.disconnectCalls == old(t.disconnectCalls) + [first, second]
  {
    t.Disconnect(first);
    t.Disconnect(second);
    t.RunScheduledClose();
  }
}
