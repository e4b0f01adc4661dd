/** What travels over the socket connection and the cross-instance channel. */
module Events {
  import opened Wrappers
  import opened Models

  /** The `send_message` payload a client emits. */
  datatype OutgoingMessage = OutgoingMessage(
    receiverId: string,
    body: string,
    roomId: string,
    tempId: Option<string>)

  /** Payloads the server emits or publishes. */
  datatype Payload =
    | ErrorNotice(text: string)
      /** The saved message fields plus the client's `tempId`, together with the room. */
    | NewMessage(message: MessageDoc, tempId: Option<string>, roomId: string)
    | StatusUpdate(messageId: string, status: MessageStatus)
      /** Caller-supplied data, forwarded without inspection. */
    | Opaque(content: string)

  /** One observable effect of the server, in the order it happened. */
  datatype Event =
    | ToSocket(socketId: string, name: string, payload: Payload)
    | ToRoom(roomId: string, name: string, payload: Payload)
    | Published(channel: string, payload: Payload)

  /** An append-only record of everything emitted to sockets, rooms and the publish channel. */
  class EventLog {
    var events: seq<Event>

    constructor()
      ensures events == []
    {
      events := [];
    }
  }
}
