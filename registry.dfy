/**
  The server's session registry as a value: the `m_users` map from a client's
  uuid to its `ClientSession`, and the `m_next_user_number` counter. The class
  in module RegistryServer updates this state in place; the functions here say
  what each update produces, and the lemmas what the updates keep.
 */
module Registry {
  import opened Wrappers
  import opened Protocol

  /** One user's record: a handle per channel (None is a null pointer). */
  datatype ClientSession = ClientSession(
    binaryWs: Option<SocketId>,
    textWs: Option<SocketId>,
    userNumber: int,
    uuid: string,
    isOperator: bool)

  /** A default-initialised session: no handles, user number -1, empty uuid. */
  const DefaultSession := ClientSession(None, None, -1, "", false)

  datatype State = State(users: map<string, ClientSession>, nextUserNumber: int)

  /** The registry of a freshly constructed server. */
  const Initial := State(map[], 0)

  /** Sessions are filed under their own uuid, and user numbers are distinct and already handed out. */
  ghost predicate Inv(st: State)
  {
    && st.nextUserNumber >= 0
    && (forall u :: u in st.users ==> st.users[u].uuid == u)
    && (forall u :: u in st.users ==> 0 <= st.users[u].userNumber < st.nextUserNumber)
    && (forall u, v :: u in st.users && v in st.users && u != v ==>
          st.users[u].userNumber != st.users[v].userNumber)
  }

  /** A session has no handle left. */
  predicate Orphaned(s: ClientSession)
  {
    s.binaryWs == None && s.textWs == None
  }

  /** Sets the handle of the named channel; any other channel name sets nothing. */
  function Attach(s: ClientSession, channel: string, ws: SocketId): (r: ClientSession)
    ensures r.binaryWs == if channel == "binary" then Some(ws) else s.binaryWs
    ensures r.textWs == if channel == "text" then Some(ws) else s.textWs
    ensures r.uuid == s.uuid && r.userNumber == s.userNumber && r.isOperator == s.isOperator
  {
    if channel == "binary" then s.(binaryWs := Some(ws))
    else if channel == "text" then s.(textWs := Some(ws))
    else s
  }

  /** A join message from `ws` naming `uuid` and `channel`. */
  function Join(st: State, ws: SocketId, uuid: string, channel: string): (r: State)
    ensures r.users.Keys == st.users.Keys + {uuid}
    ensures forall u :: u in st.users && u != uuid ==> r.users[u] == st.users[u]
    // an unseen uuid gets a new session holding the next user number
    ensures uuid !in st.users ==>
      && r.nextUserNumber == st.nextUserNumber + 1
      && r.users[uuid].uuid == uuid
      && r.users[uuid].userNumber == st.nextUserNumber
      && !r.users[uuid].isOperator
      && r.users[uuid].binaryWs == (if channel == "binary" then Some(ws) else None)
      && r.users[uuid].textWs == (if channel == "text" then Some(ws) else None)
    // a known uuid only has the named channel's handle overwritten
    ensures uuid in st.users ==>
      && r.nextUserNumber == st.nextUserNumber
      && r.users[uuid] == Attach(st.users[uuid], channel, ws)
  {
    if uuid in st.users then
      State(st.users[uuid := Attach(st.users[uuid], channel, ws)], st.nextUserNumber)
    else
      var session := DefaultSession.(uuid := uuid, userNumber := st.nextUserNumber);
      State(st.users[uuid := Attach(session, channel, ws)], st.nextUserNumber + 1)
  }

  /** Clears every handle of `s` equal to the closing socket. */
  function Cleared(s: ClientSession, ws: SocketId): (r: ClientSession)
    ensures r.binaryWs != Some(ws) && r.textWs != Some(ws)
    ensures s.binaryWs != Some(ws) ==> r.binaryWs == s.binaryWs
    ensures s.textWs != Some(ws) ==> r.textWs == s.textWs
    ensures r.uuid == s.uuid && r.userNumber == s.userNumber && r.isOperator == s.isOperator
  {
    s.(binaryWs := if s.binaryWs == Some(ws) then None else s.binaryWs,
       textWs := if s.textWs == Some(ws) then None else s.textWs)
  }

  /** `s` holds a handle other than `ws`. */
  predicate HoldsOther(s: ClientSession, ws: SocketId)
  {
    (s.binaryWs.Some? && s.binaryWs != Some(ws)) || (s.textWs.Some? && s.textWs != Some(ws))
  }

  /** The socket `ws` closed: its handles are cleared and sessions left with none are erased. */
  function Detach(st: State, ws: SocketId): (r: State)
    ensures r.nextUserNumber == st.nextUserNumber
    ensures forall u :: u in r.users <==> u in st.users && HoldsOther(st.users[u], ws)
    ensures forall u :: u in r.users ==> !Orphaned(r.users[u])
    ensures forall u :: u in r.users ==>
      && r.users[u].binaryWs == (if st.users[u].binaryWs == Some(ws) then None else st.users[u].binaryWs)
      && r.users[u].textWs == (if st.users[u].textWs == Some(ws) then None else st.users[u].textWs)
      && r.users[u].uuid == st.users[u].uuid
      && r.users[u].userNumber == st.users[u].userNumber
      && r.users[u].isOperator == st.users[u].isOperator
  {
    State(map u | u in st.users && !Orphaned(Cleared(st.users[u], ws)) :: Cleared(st.users[u], ws),
          st.nextUserNumber)
  }

  /** The (userNumber, uuid) pairs that a curUsers message lists, read from each session. */
  function Roster(st: State): set<(int, string)>
  {
    set u | u in st.users :: (st.users[u].userNumber, st.users[u].uuid)
  }

  lemma JoinPreservesInv(st: State, ws: SocketId, uuid: string, channel: string)
    requires Inv(st)
    ensures Inv(Join(st, ws, uuid, channel))
  {
  }

  lemma DetachPreservesInv(st: State, ws: SocketId)
    requires Inv(st)
    ensures Inv(Detach(st, ws))
  {
  }

  /** Joining twice on the same channel is the same as joining once. */
  lemma {:induction false} JoinIdempotent(st: State, ws: SocketId, uuid: string, channel: string)
    ensures Join(Join(st, ws, uuid, channel), ws, uuid, channel) == Join(st, ws, uuid, channel)
  {
    var once := Join(st, ws, uuid, channel);
    var twice := Join(once, ws, uuid, channel);
    assert twice.users == once.users;
  }

  /** Closing the same socket a second time changes nothing. */
  lemma {:induction false} DetachIdempotent(st: State, ws: SocketId)
    ensures Detach(Detach(st, ws), ws) == Detach(st, ws)
  {
    var once := Detach(st, ws);
    var twice := Detach(once, ws);
    assert twice.users.Keys == once.users.Keys;
    assert twice.users == once.users;
  }

  /** A default session holds no handle and has no user number, uuid or operator flag yet. */
  lemma DefaultSessionIsEmpty()
    ensures Orphaned(DefaultSession)
    ensures DefaultSession.userNumber == -1 && DefaultSession.uuid == "" && !DefaultSession.isOperator
  {
  }

  /**
    A join naming neither "binary" nor "text" sets no handle; for an unseen uuid
    it still files a session with both handles null and uses up a user number.
   */
  lemma UnknownChannelJoin(st: State, ws: SocketId, uuid: string, channel: string)
    requires channel != "binary" && channel != "text"
    ensures uuid in st.users ==> Join(st, ws, uuid, channel) == st
    ensures uuid !in st.users ==>
      && Orphaned(Join(st, ws, uuid, channel).users[uuid])
      && Join(st, ws, uuid, channel).nextUserNumber == st.nextUserNumber + 1
  {
    if uuid in st.users {
      assert Join(st, ws, uuid, channel).users == st.users;
    }
  }

  /** The first uuid ever registered gets user number 0. */
  lemma FirstJoinGetsZero(ws: SocketId, uuid: string, channel: string)
    ensures Join(Initial, ws, uuid, channel).users[uuid].userNumber == 0
    ensures Join(Initial, ws, uuid, channel).nextUserNumber == 1
  {
  }

  /**
    In a well-formed registry the curUsers listing names every session by its
    own uuid, once, and no user number appears on two lines.
   */
  lemma {:induction false} RosterSize(st: State)
    requires Inv(st)
    ensures |Roster(st)| == |st.users|
    ensures forall u :: u in st.users ==> (st.users[u].userNumber, u) in Roster(st)
    ensures forall x, y :: x in Roster(st) && y in Roster(st) && x.0 == y.0 ==> x == y
    decreases |st.users|
  {
    forall u | u in st.users ensures (st.users[u].userNumber, u) in Roster(st) {
      RosterLine(st, u);
    }
    RosterNumbersDistinct(st);
    if st.users != map[] {
      var u :| u in st.users;
      RosterRemove(st, u);
      RosterSize(State(st.users - {u}, st.nextUserNumber));
    }
  }

  /** Each session's line names it by its own uuid. */
  lemma RosterLine(st: State, u: string)
    requires Inv(st) && u in st.users
    ensures (st.users[u].userNumber, u) in Roster(st)
  {
    assert st.users[u].uuid == u;
  }

  /** Removing one session from a well-formed registry removes exactly its line. */
  lemma RosterRemove(st: State, u: string)
    requires Inv(st) && u in st.users
    ensures var rest := State(st.users - {u}, st.nextUserNumber);
      && Inv(rest)
      && Roster(st) == Roster(rest) + {(st.users[u].userNumber, u)}
      && (st.users[u].userNumber, u) !in Roster(rest)
      && |st.users| == |rest.users| + 1
  {
    var rest := State(st.users - {u}, st.nextUserNumber);
    var line := (st.users[u].userNumber, u);
    RosterLine(st, u);
    forall x | x in Roster(st) ensures x in Roster(rest) + {line} {
      var v :| v in st.users && x == (st.users[v].userNumber, st.users[v].uuid);
      if v != u {
        assert v in rest.users && rest.users[v] == st.users[v];
      }
    }
    forall x | x in Roster(rest) ensures x in Roster(st) && x.1 != u {
      var v :| v in rest.users && x == (rest.users[v].userNumber, rest.users[v].uuid);
      assert v in st.users && rest.users[v] == st.users[v];
    }
  }

  /** In a well-formed registry no two lines of the roster share a user number. */
  lemma RosterNumbersDistinct(st: State)
    requires Inv(st)
    ensures forall x, y :: x in Roster(st) && y in Roster(st) && x.0 == y.0 ==> x == y
  {
    forall x, y | x in Roster(st) && y in Roster(st) && x.0 == y.0 ensures x == y {
      var u :| u in st.users && x == (st.users[u].userNumber, st.users[u].uuid);
      var v :| v in st.users && y == (st.users[v].userNumber, st.users[v].uuid);
    }
  }

  /**
    A client joins on "binary" and then on "text": one session with both handles
    and one user number. Closing the binary socket keeps the session with the
    text handle only; closing the text socket then erases it.
   */
  lemma {:induction false} TwoChannelLifecycle(st: State, uuid: string, b: SocketId, t: SocketId)
    requires uuid !in st.users && b != t
    ensures var s1 := Join(Join(st, b, uuid, "binary"), t, uuid, "text");
      && s1.users.Keys == st.users.Keys + {uuid}
      && s1.users[uuid].binaryWs == Some(b) && s1.users[uuid].textWs == Some(t)
      && s1.users[uuid].userNumber == st.nextUserNumber
      && s1.nextUserNumber == st.nextUserNumber + 1
      && var s2 := Detach(s1, b);
      && uuid in s2.users
      && s2.users[uuid].binaryWs == None && s2.users[uuid].textWs == Some(t)
      && uuid !in Detach(s2, t).users
  {
    var s0 := Join(st, b, uuid, "binary");
    var s1 := Join(s0, t, uuid, "text");
    assert s1.users[uuid].binaryWs == Some(b);
    var s2 := Detach(s1, b);
    assert HoldsOther(s1.users[uuid], b);
    assert !HoldsOther(s2.users[uuid], t);
  }
}
