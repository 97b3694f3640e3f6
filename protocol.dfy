/**
  What travels over the two WebSocket endpoints, seen above the WebSocket layer:
  JSON control messages in TEXT frames and raw byte buffers in BINARY frames.
  JSON text itself is not modelled; a received message is the record of the
  fields the programs look at, and a sent message is one of the shapes the
  programs build.
 */
module Protocol {
  import opened Bytes

  /** An opaque identity for one WebSocket connection (a socket pointer). */
  type SocketId = nat

  /** One member of a received JSON object, as far as the programs inspect it. */
  datatype Field = Missing | Str(s: string) | NonStr

  /** A received TEXT frame after JSON parsing. */
  datatype ControlMessage =
    | Unparsable   // not JSON at all: the parser reports an error
    | NonObject    // JSON, but not an object, so it has no "type" member
    | Object(kind: Field, uuid: Field, channel: Field, chatMessage: Field)

  /** The JSON objects the programs build and send. */
  datatype OutMessage =
    | JoinMsg(uuid: string, channel: string)   // {"type":"join","uuid":..,"channel":..}
    | RequestMsg                               // {"type":"request"}
    | ChatMsg(text: string)                    // {"type":"chat","chat_message":..}
    | CurUsersMsg                              // {"type":"curUsers"}

  /** A WebSocket message: TEXT carries a JSON object, BINARY raw bytes. */
  datatype Frame = Text(msg: OutMessage) | Binary(bytes: seq<byte>)

  /** One call of `send` on a socket. */
  datatype Send = Send(socket: SocketId, frame: Frame)

  /** What the receiving side's parser makes of a message that was sent. */
  function Parsed(m: OutMessage): (c: ControlMessage)
    ensures c.Object? && c.kind.Str?
  {
    match m
    case JoinMsg(u, ch) => Object(Str("join"), Str(u), Str(ch), Missing)
    case RequestMsg => Object(Str("request"), Missing, Missing, Missing)
    case ChatMsg(t) => Object(Str("chat"), Missing, Missing, Str(t))
    case CurUsersMsg => Object(Str("curUsers"), Missing, Missing, Missing)
  }
}
