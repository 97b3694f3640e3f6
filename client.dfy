/**
  The two-socket client window: it opens a binary and a text WebSocket to the
  server, joins on each once connected, sends requests and chat, shows the
  chat it receives and registers the snapshots it receives with its scene.
 */
module Client {
  import opened Wrappers
  import opened Bytes
  import opened Protocol
  import opened Qt
  import Snapshot

  /** What the client shows for a received text frame: the chat text of a chat message. */
  function ChatLine(m: ControlMessage): (line: Option<string>)
    ensures line.Some? <==> m.Object? && m.kind == Str("chat")
    ensures line.Some? && m.chatMessage.Str? ==> line.value == m.chatMessage.s
    ensures line.Some? && !m.chatMessage.Str? ==> line.value == ""
  {
    match m
    case Object(kind, _, _, chat) =>
      if kind == Str("chat") then Some(if chat.Str? then chat.s else "") else None
    case _ => None
  }

  /** The server's echo of a chat message shows the same text. */
  lemma ChatEchoShown(text: string)
    ensures ChatLine(Parsed(ChatMsg(text))) == Some(text)
  {
  }

  /** What the window does with a received snapshot. */
  datatype SceneUpdate = Register | Replace(objectId: int)

  const NoObject: (int, int) := (-1, -1)

  class Client {
    const userUuid: string
    var binarySocket: Option<Socket>
    var textSocket: Option<Socket>
    var connectEnabled: bool
    var disconnectEnabled: bool
    var addressInput: string
    var chatInput: string
    var chatLog: seq<string>
    var objectIds: (int, int)
    /** Every message sent, in order. */
    var sent: seq<Send>
    /** The sockets closed by the window, in order. */
    var closed: seq<SocketId>

    /** The window starts with no socket and no registered object; the buttons start as the form sets them. */
    constructor (userUuid: string, connectEnabled: bool, disconnectEnabled: bool)
      ensures this.userUuid == userUuid
      ensures binarySocket == None && textSocket == None
      ensures this.connectEnabled == connectEnabled && this.disconnectEnabled == disconnectEnabled
      ensures addressInput == "" && chatInput == "" && chatLog == []
      ensures objectIds == NoObject && sent == [] && closed == []
    {
      this.userUuid := userUuid;
      binarySocket, textSocket := None, None;
      this.connectEnabled, this.disconnectEnabled := connectEnabled, disconnectEnabled;
      addressInput, chatInput, chatLog := "", "", [];
      objectIds := NoObject;
      sent, closed := [], [];
    }

    /** Both sockets exist and are connected. */
    predicate AreSocketsConnected()
      reads this
      ensures AreSocketsConnected() ==> binarySocket.Some? && textSocket.Some?
    {
      && binarySocket.Some? && textSocket.Some?
      && binarySocket.value.state == Connected
      && textSocket.value.state == Connected
    }

    /** At least one socket exists and is valid. */
    predicate AnyConnected()
      reads this
    {
      (binarySocket.Some? && binarySocket.value.valid) || (textSocket.Some? && textSocket.value.valid)
    }

    /** Connect is enabled exactly when disconnect is not. */
    method UpdateButtons()
      modifies this
      ensures connectEnabled == !AnyConnected() && disconnectEnabled == AnyConnected()
      ensures connectEnabled != disconnectEnabled
      ensures binarySocket == old(binarySocket) && textSocket == old(textSocket)
      ensures chatInput == old(chatInput) && chatLog == old(chatLog) && objectIds == old(objectIds)
      ensures sent == old(sent) && closed == old(closed) && addressInput == old(addressInput)
    {
      var anyConnected := AnyConnected();
      connectEnabled := !anyConnected;
      disconnectEnabled := anyConnected;
    }

    /**
      Connect: nothing happens for a blank address; otherwise two new sockets
      (identities chosen by the environment) start connecting.
     */
    method OnConnect(binaryId: SocketId, textId: SocketId)
      modifies this
      ensures Trim(old(addressInput)) == [] ==>
        binarySocket == old(binarySocket) && textSocket == old(textSocket)
      ensures Trim(old(addressInput)) != [] ==>
        binarySocket == Some(Socket(binaryId, Connecting, false)) &&
        textSocket == Some(Socket(textId, Connecting, false))
      ensures Trim(old(addressInput)) != [] ==> !AreSocketsConnected()
      ensures sent == old(sent) && closed == old(closed) && chatInput == old(chatInput)
      ensures chatLog == old(chatLog) && objectIds == old(objectIds) && addressInput == old(addressInput)
      ensures connectEnabled == old(connectEnabled) && disconnectEnabled == old(disconnectEnabled)
    {
      var address := Trim(addressInput);
      if address == [] {
        return;
      }
      binarySocket := Some(Socket(binaryId, Connecting, false));
      textSocket := Some(Socket(textId, Connecting, false));
    }

    /** Disconnect: each valid socket is closed, and both pointers become null. */
    method OnDisconnect()
      modifies this
      ensures binarySocket == None && textSocket == None
      ensures !AreSocketsConnected()
      ensures closed == old(closed)
        + (if old(binarySocket).Some? && old(binarySocket).value.valid then [old(binarySocket).value.id] else [])
        + (if old(textSocket).Some? && old(textSocket).value.valid then [old(textSocket).value.id] else [])
      ensures sent == old(sent) && chatInput == old(chatInput) && chatLog == old(chatLog)
      ensures objectIds == old(objectIds) && addressInput == old(addressInput)
      ensures connectEnabled == old(connectEnabled) && disconnectEnabled == old(disconnectEnabled)
    {
      if binarySocket.Some? {
        if binarySocket.value.valid {
          closed := closed + [binarySocket.value.id];
        }
        binarySocket := None;
      }
      if textSocket.Some? {
        if textSocket.value.valid {
          closed := closed + [textSocket.value.id];
        }
        textSocket := None;
      }
    }

    /** Request: one request message on the binary socket, only when both sockets are connected. */
    method OnRequest()
      modifies this
      ensures old(AreSocketsConnected()) ==> sent == old(sent) + [Send(old(binarySocket).value.id, Text(RequestMsg))]
      ensures !old(AreSocketsConnected()) ==> sent == old(sent)
      ensures binarySocket == old(binarySocket) && textSocket == old(textSocket)
      ensures closed == old(closed) && chatInput == old(chatInput) && chatLog == old(chatLog)
      ensures objectIds == old(objectIds) && addressInput == old(addressInput)
      ensures connectEnabled == old(connectEnabled) && disconnectEnabled == old(disconnectEnabled)
    {
      if !AreSocketsConnected() {
        return;
      }
      sent := sent + [Send(binarySocket.value.id, Text(RequestMsg))];
    }

    /**
      Chat: when both sockets are connected and the trimmed input is not empty,
      the trimmed text goes out on the text socket and the input is cleared.
     */
    method OnChat()
      modifies this
      ensures old(AreSocketsConnected()) && Trim(old(chatInput)) != [] ==>
        && sent == old(sent) + [Send(old(textSocket).value.id, Text(ChatMsg(Trim(old(chatInput)))))]
        && chatInput == ""
      ensures !(old(AreSocketsConnected()) && Trim(old(chatInput)) != []) ==>
        sent == old(sent) && chatInput == old(chatInput)
      ensures binarySocket == old(binarySocket) && textSocket == old(textSocket)
      ensures closed == old(closed) && chatLog == old(chatLog)
      ensures objectIds == old(objectIds) && addressInput == old(addressInput)
      ensures connectEnabled == old(connectEnabled) && disconnectEnabled == old(disconnectEnabled)
    {
      var connected := AreSocketsConnected();
      var text := Trim(chatInput);
      if connected && text != [] {
        sent := sent + [Send(textSocket.value.id, Text(ChatMsg(text)))];
        chatInput := "";
      }
    }

    /**
      Debug: a curUsers message on the text socket, with no check that the
      socket exists. `ok` is false when the pointer is null, where the source
      dereferences it (undefined behaviour); nothing is sent then.
     */
    method OnDebug() returns (ok: bool)
      modifies this
      ensures ok <==> old(textSocket).Some?
      ensures ok ==> sent == old(sent) + [Send(old(textSocket).value.id, Text(CurUsersMsg))]
      ensures !ok ==> sent == old(sent)
      ensures binarySocket == old(binarySocket) && textSocket == old(textSocket)
      ensures closed == old(closed) && chatInput == old(chatInput) && chatLog == old(chatLog)
      ensures objectIds == old(objectIds) && addressInput == old(addressInput)
      ensures connectEnabled == old(connectEnabled) && disconnectEnabled == old(disconnectEnabled)
    {
      ok := textSocket.Some?;
      if ok {
        sent := sent + [Send(textSocket.value.id, Text(CurUsersMsg))];
      }
    }

    /**
      The binary socket connected (Qt now reports `state` and `valid` for it): the
      same socket object sends a join for the binary channel, then the buttons
      are updated. `ok` is false
      when the pointer is already null (undefined behaviour in the source).
     */
    method BinaryWebsocketConnected(state: SocketState, valid: bool) returns (ok: bool)
      modifies this
      ensures ok <==> old(binarySocket).Some?
      ensures ok ==> binarySocket == Some(old(binarySocket).value.(state := state, valid := valid))
      ensures ok ==> sent == old(sent) + [Send(old(binarySocket).value.id, Text(JoinMsg(userUuid, "binary")))]
      ensures ok ==> connectEnabled == !AnyConnected() && disconnectEnabled == AnyConnected()
      ensures !ok ==> binarySocket == None && sent == old(sent)
      ensures !ok ==> connectEnabled == old(connectEnabled) && disconnectEnabled == old(disconnectEnabled)
      ensures textSocket == old(textSocket) && closed == old(closed) && chatInput == old(chatInput)
      ensures chatLog == old(chatLog) && objectIds == old(objectIds) && addressInput == old(addressInput)
    {
      ok := binarySocket.Some?;
      if !ok {
        return;
      }
      binarySocket := Some(binarySocket.value.(state := state, valid := valid));
      sent := sent + [Send(binarySocket.value.id, Text(JoinMsg(userUuid, "binary")))];
      UpdateButtons();
    }

    /** The text socket connected: as for the binary socket, with a join for the text channel. */
    method TextWebsocketConnected(state: SocketState, valid: bool) returns (ok: bool)
      modifies this
      ensures ok <==> old(textSocket).Some?
      ensures ok ==> textSocket == Some(old(textSocket).value.(state := state, valid := valid))
      ensures ok ==> sent == old(sent) + [Send(old(textSocket).value.id, Text(JoinMsg(userUuid, "text")))]
      ensures ok ==> connectEnabled == !AnyConnected() && disconnectEnabled == AnyConnected()
      ensures !ok ==> textSocket == None && sent == old(sent)
      ensures !ok ==> connectEnabled == old(connectEnabled) && disconnectEnabled == old(disconnectEnabled)
      ensures binarySocket == old(binarySocket) && closed == old(closed) && chatInput == old(chatInput)
      ensures chatLog == old(chatLog) && objectIds == old(objectIds) && addressInput == old(addressInput)
    {
      ok := textSocket.Some?;
      if !ok {
        return;
      }
      textSocket := Some(textSocket.value.(state := state, valid := valid));
      sent := sent + [Send(textSocket.value.id, Text(JoinMsg(userUuid, "text")))];
      UpdateButtons();
    }

    /** A received text frame: a chat message is appended to the chat view, anything else ignored. */
    method WebsocketTextMessageReceived(m: ControlMessage)
      modifies this
      ensures chatLog == old(chatLog) + (if ChatLine(m).Some? then [ChatLine(m).value] else [])
      ensures binarySocket == old(binarySocket) && textSocket == old(textSocket)
      ensures sent == old(sent) && closed == old(closed) && chatInput == old(chatInput)
      ensures objectIds == old(objectIds) && addressInput == old(addressInput)
      ensures connectEnabled == old(connectEnabled) && disconnectEnabled == old(disconnectEnabled)
    {
      var line := ChatLine(m);
      if line.Some? {
        chatLog := chatLog + [line.value];
      }
    }

    /**
      A received snapshot frame: decoded, then registered with the scene while no
      object is registered (the id pair is (-1, -1)), replacing it afterwards.
      `sceneIds` is what the scene returns when an object is registered.
     */
    method WebsocketBinaryMessageReceived(msg: seq<byte>, sceneIds: (int, int))
      returns (pc: Snapshot.PointCloud, update: SceneUpdate)
      requires Snapshot.Readable(msg)
      modifies this
      ensures pc == Snapshot.Parse(msg)
      ensures old(objectIds) == NoObject ==> update == Register && objectIds == sceneIds
      ensures old(objectIds) != NoObject ==> update == Replace(old(objectIds).0) && objectIds == old(objectIds)
      ensures binarySocket == old(binarySocket) && textSocket == old(textSocket)
      ensures sent == old(sent) && closed == old(closed) && chatInput == old(chatInput) && chatLog == old(chatLog)
      ensures addressInput == old(addressInput)
      ensures connectEnabled == old(connectEnabled) && disconnectEnabled == old(disconnectEnabled)
    {
      var offset;
      pc, offset := Snapshot.Decode(msg);
      if objectIds == NoObject {
        objectIds := sceneIds;
        update := Register;
      } else {
        update := Replace(objectIds.0);
      }
    }
  }
}
