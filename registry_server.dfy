/**
  The server with two endpoints ("/binary" and "/text") that keeps one session
  per client uuid. Messages from either endpoint go to the same dispatcher.
 */
module RegistryServer {
  import opened Wrappers
  import opened Bytes
  import opened Protocol
  import Registry
  import Snapshot

  /** What the dispatcher does with one received text frame. */
  datatype Decision =
    | JoinSession(uuid: string, channel: string)
    | ListUsers          // curUsers: the roster goes to the log, nothing is sent
    | SendSnapshot       // request: one BINARY snapshot frame back
    | EchoChat(text: string)
    | WarnChat           // chat without a string chat_message: a warning is logged
    | Ignore
    | Throws             // the JSON library throws; nothing catches it

  /**
    The branch taken for a message. A missing "type", or a value that is not a
    JSON object, falls through every branch and nothing happens.
    A "type" that is not a string passes the join and curUsers comparisons,
    but the string conversion in the request test throws. In a join, the
    string conversion of a missing or non-string uuid or channel throws.
   */
  function Decide(m: ControlMessage): (d: Decision)
    ensures d.EchoChat? <==> m.Object? && m.kind == Str("chat") && m.chatMessage.Str?
    ensures d.EchoChat? ==> d.text == m.chatMessage.s
    ensures d.JoinSession? <==> m.Object? && m.kind == Str("join") && m.uuid.Str? && m.channel.Str?
    ensures d.JoinSession? ==> d.uuid == m.uuid.s && d.channel == m.channel.s
    ensures d == Throws <==>
      m.Unparsable?
      || (m.Object? && m.kind == Str("join") && !(m.uuid.Str? && m.channel.Str?))
      || (m.Object? && m.kind == NonStr)
    ensures d == SendSnapshot <==> m.Object? && m.kind == Str("request")
    ensures d == ListUsers <==> m.Object? && m.kind == Str("curUsers")
    ensures d == WarnChat <==> m.Object? && m.kind == Str("chat") && !m.chatMessage.Str?
    ensures d == Ignore <==>
      m.NonObject?
      || (m.Object? && m.kind == Missing)
      || (m.Object? && m.kind.Str? && m.kind.s !in {"join", "curUsers", "request", "chat"})
  {
    match m
    case Unparsable => Throws
    case NonObject => Ignore
    case Object(kind, uuid, channel, chat) =>
      if kind == Str("join") then
        if uuid.Str? && channel.Str? then JoinSession(uuid.s, channel.s) else Throws
      else if kind == Str("curUsers") then ListUsers
      else if kind == Missing then Ignore
      else if kind == NonStr then Throws
      else if kind.s == "request" then SendSnapshot
      else if kind.s == "chat" then (if chat.Str? then EchoChat(chat.s) else WarnChat)
      else Ignore
  }

  /** Each message the client builds is taken by the branch made for it. */
  lemma DecideClientMessages(uuid: string, channel: string, text: string)
    ensures Decide(Parsed(JoinMsg(uuid, channel))) == JoinSession(uuid, channel)
    ensures Decide(Parsed(RequestMsg)) == SendSnapshot
    ensures Decide(Parsed(ChatMsg(text))) == EchoChat(text)
    ensures Decide(Parsed(CurUsersMsg)) == ListUsers
  {
  }

  /** The map part-way through a close: sessions still `pending` are untouched, the others are detached. */
  ghost function Visited(before: map<string, Registry.ClientSession>, pending: set<string>, ws: SocketId)
    : map<string, Registry.ClientSession>
  {
    map u | u in before && (u in pending || !Registry.Orphaned(Registry.Cleared(before[u], ws))) ::
      if u in pending then before[u] else Registry.Cleared(before[u], ws)
  }

  /** Visiting one more session detaches it and leaves the others as they were. */
  lemma VisitOne(before: map<string, Registry.ClientSession>, pending: set<string>, u: string, ws: SocketId)
    requires u in pending && pending <= before.Keys
    ensures u in Visited(before, pending, ws) && Visited(before, pending, ws)[u] == before[u]
    ensures var s := Registry.Cleared(before[u], ws);
      Visited(before, pending - {u}, ws) ==
        if Registry.Orphaned(s) then Visited(before, pending, ws) - {u}
        else Visited(before, pending, ws)[u := s]
  {
  }

  /** Once every session is visited, the map is the detached registry's. */
  lemma VisitedAll(before: map<string, Registry.ClientSession>, next: int, ws: SocketId)
    ensures Visited(before, {}, ws) == Registry.Detach(Registry.State(before, next), ws).users
  {
  }

  class Server {
    const port: int
    var users: map<string, Registry.ClientSession>
    var nextUserNumber: int

    /** The registry this server holds. */
    function State(): Registry.State
      reads this
    {
      Registry.State(users, nextUserNumber)
    }

    ghost predicate Valid()
      reads this
    {
      Registry.Inv(State())
    }

    /** Listening and the event loop are not modelled; the registry starts empty. */
    constructor (port: int)
      ensures this.port == port
      ensures State() == Registry.Initial && Valid()
    {
      this.port := port;
      users := map[];
      nextUserNumber := 0;
    }

    /** The join branch of the dispatcher. */
    method Join(ws: SocketId, uuid: string, channel: string)
      requires Valid()
      modifies this
      ensures Valid()
      ensures State() == Registry.Join(old(State()), ws, uuid, channel)
    {
      Registry.JoinPreservesInv(State(), ws, uuid, channel);
      if uuid !in users {
        var session := Registry.DefaultSession;
        session := session.(uuid := uuid);
        session := session.(userNumber := nextUserNumber);
        nextUserNumber := nextUserNumber + 1;
        if channel == "binary" {
          session := session.(binaryWs := Some(ws));
        } else if channel == "text" {
          session := session.(textWs := Some(ws));
        }
        users := users[uuid := session];
      } else {
        if channel == "binary" {
          users := users[uuid := users[uuid].(binaryWs := Some(ws))];
        } else if channel == "text" {
          users := users[uuid := users[uuid].(textWs := Some(ws))];
        }
      }
    }

    /**
      A socket closed: every session is visited once, its handles equal to the
      socket are cleared, and it is erased when both handles are null.
     */
    method OnClose(ws: SocketId)
      requires Valid()
      modifies this
      ensures Valid()
      ensures State() == Registry.Detach(old(State()), ws)
    {
      ghost var before := users;
      Registry.DetachPreservesInv(State(), ws);
      var pending := users.Keys;
      while pending != {}
        invariant pending <= before.Keys
        invariant nextUserNumber == old(nextUserNumber)
        invariant users == Visited(before, pending, ws)
        decreases pending
      {
        var u :| u in pending;
        VisitOne(before, pending, u, ws);
        var session := users[u];
        if session.binaryWs == Some(ws) {
          session := session.(binaryWs := None);
        }
        if session.textWs == Some(ws) {
          session := session.(textWs := None);
        }
        if session.binaryWs.None? && session.textWs.None? {
          users := users - {u};
        } else {
          users := users[u := session];
        }
        assert session == Registry.Cleared(before[u], ws);
        pending := pending - {u};
      }
      VisitedAll(before, old(nextUserNumber), ws);
    }

    /**
      One received text frame. The point cloud the request branch sends is the
      external generator's output, given here as `cloud`.
     */
    method OnMessage(ws: SocketId, m: ControlMessage, cloud: Snapshot.PointCloud)
      returns (sent: seq<Send>, thrown: bool)
      requires Valid() && Snapshot.WellFormed(cloud)
      modifies this
      ensures Valid()
      ensures thrown <==> Decide(m) == Throws
      ensures Decide(m).JoinSession? ==>
        sent == [] && State() == Registry.Join(old(State()), ws, Decide(m).uuid, Decide(m).channel)
      ensures !Decide(m).JoinSession? ==> State() == old(State())
      ensures Decide(m) == SendSnapshot ==> sent == [Send(ws, Binary(Snapshot.Layout(cloud)))]
      ensures Decide(m).EchoChat? ==> sent == [Send(ws, Text(ChatMsg(Decide(m).text)))]
      ensures !Decide(m).EchoChat? && Decide(m) != SendSnapshot ==> sent == []
    {
      sent, thrown := [], false;
      var d := Decide(m);
      match d
      case Throws =>
        thrown := true;
      case JoinSession(uuid, channel) =>
        Join(ws, uuid, channel);
      case ListUsers =>
      case SendSnapshot =>
        var frame, _ := Snapshot.Encode(cloud);
        sent := [Send(ws, Binary(frame))];
      case EchoChat(text) =>
        sent := [Send(ws, Text(ChatMsg(text)))];
      case WarnChat =>
      case Ignore =>
    }
  }
}
