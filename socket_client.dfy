/**
 * The browser's socket wrapper: a current socket (or none), a connected flag that
 * only the socket's own events change, and the rule for each emit: sent, dropped,
 * or replaced by a reconnect. A socket is named by a handle; `emitted` records
 * every emit with the socket it went to (the transport buffers emits made before
 * the socket has connected), and `closed` the sockets torn down, in order.
 */
module SocketClient {
  import opened Wrappers
  import opened Events

  /** The argument of one emit. */
  datatype EmitArg = UserIdArg(userId: string) | RoomArg(roomId: string) | MessageArg(data: OutgoingMessage)

  datatype Emit = Emit(socket: nat, name: string, arg: EmitArg)

  /** The events the wrapper listens to on its socket. */
  datatype TransportEvent = ConnectEvent | DisconnectEvent | ErrorEvent | ConnectErrorEvent

  class ClientSocketService {
    /** The current socket, by handle. */
    var socket: Option<nat>
    var isConnected: bool
    /** The callback bound to `new_message` on the current socket. */
    var handler: Option<nat>
    /** The handle the next socket receives. */
    var nextHandle: nat
    var emitted: seq<Emit>
    var closed: seq<nat>

    /** Connected only with a socket; handles are only ever given out once. */
    ghost predicate Valid()
      reads this
    {
      && (isConnected ==> socket.Some?)
      && (socket.None? ==> handler.None?)
      && (socket.Some? ==> socket.value < nextHandle)
      && (forall i :: 0 <= i < |closed| ==> closed[i] < nextHandle && Some(closed[i]) != socket)
    }

    constructor()
      ensures Valid()
      ensures socket == None && !isConnected && handler == None && emitted == [] && closed == []
    {
      socket := None;
      isConnected := false;
      handler := None;
      nextHandle := 0;
      emitted := [];
      closed := [];
    }

    /**
     * Tears down any existing socket (whose 'disconnect' event clears the flag),
     * then creates a fresh one; the new socket has no `new_message` handler and is
     * not yet connected. Nothing is emitted.
     */
    method Connect()
      requires Valid()
      modifies this
      ensures Valid()
      ensures socket == Some(old(nextHandle)) && nextHandle == old(nextHandle) + 1
      ensures !isConnected && handler == None && emitted == old(emitted)
      ensures closed == old(closed) + if old(socket).Some? then [old(socket).value] else []
    {
      if socket.Some? {
        closed := closed + [socket.value];
        isConnected := false;
      }
      socket := Some(nextHandle);
      nextHandle := nextHandle + 1;
      handler := None;
    }

    /** The socket's own events: only 'connect' sets the flag; the other three clear it. */
    method OnTransportEvent(ev: TransportEvent)
      requires Valid() && socket.Some?
      modifies this`isConnected
      ensures Valid()
      ensures isConnected == (ev == ConnectEvent)
    {
      isConnected := ev == ConnectEvent;
    }

    /** Reconnects first when not connected, and then emits `authenticate` on the (possibly new) socket. */
    method Authenticate(userId: string)
      requires Valid()
      modifies this
      ensures Valid()
      ensures old(socket).Some? && old(isConnected) ==>
                && socket == old(socket) && isConnected && handler == old(handler)
                && closed == old(closed) && nextHandle == old(nextHandle)
      // a stale, half-open socket is torn down before the new one is made
      ensures !(old(socket).Some? && old(isConnected)) ==>
                && socket == Some(old(nextHandle)) && !isConnected && handler == None
                && closed == old(closed) + (if old(socket).Some? then [old(socket).value] else [])
                && nextHandle == old(nextHandle) + 1
      ensures emitted == old(emitted) + [Emit(socket.value, "authenticate", UserIdArg(userId))]
    {
      if socket.None? || !isConnected {
        Connect();
      }
      emitted := emitted + [Emit(socket.value, "authenticate", UserIdArg(userId))];
    }

    /** Emits `join_room` when connected; otherwise reconnects and returns without emitting. */
    method JoinRoom(roomId: string)
      requires Valid()
      modifies this
      ensures Valid()
      ensures old(socket).Some? && old(isConnected) ==>
                && socket == old(socket) && isConnected && handler == old(handler)
                && closed == old(closed) && nextHandle == old(nextHandle)
                && emitted == old(emitted) + [Emit(socket.value, "join_room", RoomArg(roomId))]
      ensures !(old(socket).Some? && old(isConnected)) ==>
                && emitted == old(emitted)
                && socket == Some(old(nextHandle)) && !isConnected && handler == None
                && closed == old(closed) + (if old(socket).Some? then [old(socket).value] else [])
                && nextHandle == old(nextHandle) + 1
    {
      if socket.None? || !isConnected {
        Connect();
        return;
      }
      emitted := emitted + [Emit(socket.value, "join_room", RoomArg(roomId))];
    }

    /** Emits `leave_room` when connected; otherwise does nothing. */
    method LeaveRoom(roomId: string)
      requires Valid()
      modifies this`emitted
      ensures Valid()
      ensures emitted == old(emitted) + if socket.Some? && isConnected then [Emit(socket.value, "leave_room", RoomArg(roomId))] else []
    {
      if socket.None? || !isConnected {
        return;
      }
      emitted := emitted + [Emit(socket.value, "leave_room", RoomArg(roomId))];
    }

    /** Emits `send_message` when connected; otherwise the message is dropped. */
    method SendMessage(data: OutgoingMessage)
      requires Valid()
      modifies this`emitted
      ensures Valid()
      ensures emitted == old(emitted) + if socket.Some? && isConnected then [Emit(socket.value, "send_message", MessageArg(data))] else []
    {
      if socket.None? || !isConnected {
        return;
      }
      emitted := emitted + [Emit(socket.value, "send_message", MessageArg(data))];
    }

    /** Replaces the `new_message` handler of the current socket by `callback`; nothing without a socket. */
    method OnNewMessage(callback: nat)
      requires Valid()
      modifies this`handler
      ensures Valid()
      ensures handler == if socket.Some? then Some(callback) else old(handler)
    {
      if socket.None? {
        return;
      }
      handler := Some(callback);
    }

    /** Tears down the socket and leaves none; nothing without a socket. */
    method Disconnect()
      requires Valid()
      modifies this
      ensures Valid()
      ensures socket == None && !isConnected && handler == None
      ensures emitted == old(emitted) && nextHandle == old(nextHandle)
      ensures closed == old(closed) + if old(socket).Some? then [old(socket).value] else []
    {
      if socket.Some? {
        closed := closed + [socket.value];
        socket := None;
        isConnected := false;
        handler := None;
      }
    }
  }
}
