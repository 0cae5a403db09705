// The whole live-meeting system as a transition system: the server and one browser per session socket.
module Room {
  import opened Outcomes
  import opened Wire
  import Hub
  import Meeting
  import Chat
  import Client
  import opened Server

  /**
    The browser behind a session socket: the participant id it was opened with, what it shows, and whether
    it has been sent a roster on this socket.
  */
  datatype Peer = Peer(pid: string, view: Client.View, synced: bool)

  datatype System = System(server: State, peers: map<Conn, Peer>)

  /**
    Handlers run one at a time, except that the attach and detach of an analysis connection are two steps each.
    `roster` is what ParticipantSnapshot returned, where a join asks for it.
  */
  datatype Action =
    | Connect(c: Conn, sid: int, user: int, pid: string, shown: Client.View)
    | Receive(c: Conn, m: Envelope, at: int, roster: seq<Hub.JoinMeta>)
    | Disconnect(c: Conn, at: int)
    | Deliver(c: Conn)
    | AttachLock(c: Conn)
    | AttachConn(c: Conn)
    | DetachConn(c: Conn)
    | DetachLock(c: Conn)
    | FeedReceive(c: Conn, m: Envelope, at: int, roster: seq<Hub.JoinMeta>)

  ghost predicate RosterFits(s: State, sid: int, c: Conn, m: Envelope, roster: seq<Hub.JoinMeta>) {
    m.typ == "join" ==> Hub.IsSnapshot(Get(MetaAfterJoin(s.hub, sid, c, m), sid, map[]), roster)
  }

  predicate Unused(s: State, c: Conn) {
    c !in s.loops && c !in s.feeds && c !in s.hub.wire
  }

  predicate FeedIs(s: State, c: Conn, phase: FeedPhase) {
    c in s.feeds && s.feeds[c] == phase
  }

  /** When an action can happen at all. */
  ghost predicate Enabled(s: System, a: Action) {
    match a
    case Connect(c, _, _, _, _) => Unused(s.server, c)
    case Receive(c, m, _, roster) =>
      c in s.server.loops && c in s.peers && m.WSMessage? && RosterFits(s.server, s.server.loops[c].sid, c, m, roster)
    case Disconnect(c, _) => c in s.server.loops
    case Deliver(c) => c in s.peers && Hub.Unread(s.server.hub, c) != []
    case AttachLock(c) => Unused(s.server, c)
    case AttachConn(c) => FeedIs(s.server, c, Attaching)
    case DetachConn(c) => FeedIs(s.server, c, Attached)
    case DetachLock(c) => FeedIs(s.server, c, Detaching)
    case FeedReceive(c, m, _, roster) => FeedIs(s.server, c, Attached) && m.WSMessage? && RosterFits(s.server, m.sid, c, m, roster)
  }

  function Served(s: State, a: Action): State
    requires a.Receive? || a.Disconnect? ==> a.c in s.loops
  {
    match a
    case Connect(c, sid, user, _, _) => Connected(s, c, sid, user)
    case Receive(c, m, at, roster) => Received(s, c, m, at, roster)
    case Disconnect(c, at) => Disconnected(s, c, at)
    case Deliver(c) => s.(hub := Read(s.hub, c))
    case AttachLock(c) => LockAttached(s, c)
    case AttachConn(c) => ConnAttached(s, c)
    case DetachConn(c) => ConnDetached(s, c)
    case DetachLock(c) => LockDetached(s, c)
    case FeedReceive(c, m, at, roster) => FeedReceived(s, c, m, at, roster)
  }

  /** The browser takes the oldest message off its socket. */
  function Read(h: Hub.Tables, c: Conn): Hub.Tables {
    var unread := Hub.Unread(h, c);
    if unread == [] then h else h.(wire := h.wire[c := unread[1..]])
  }

  function Step(s: System, a: Action): System
    requires a.Receive? || a.Disconnect? ==> a.c in s.server.loops
    requires a.Receive? || a.Deliver? ==> a.c in s.peers
  {
    var server := Served(s.server, a);
    match a
    case Connect(c, _, _, pid, shown) => System(server, s.peers[c := Peer(pid, shown, false)])
    case Receive(c, m, _, roster) =>
      System(server, if m.typ == "join" && roster != [] then s.peers[c := s.peers[c].(synced := true)] else s.peers)
    case Disconnect(c, _) => System(server, s.peers - {c})
    case Deliver(c) =>
      var unread := Hub.Unread(s.server.hub, c);
      System(server, if unread == [] then s.peers else s.peers[c := s.peers[c].(view := Client.Reduced(s.peers[c].view, unread[0]))])
    case _ => System(server, s.peers)
  }

  /** Nobody connected, nothing recorded; the sessions and their statuses are given. */
  function Start(status: map<int, Meeting.Status>): System {
    System(State(Hub.Tables(map[], {}, map[], {}, map[], []), map[], map[],
                 Meeting.Tables(status, map[], map[], [], []), Chat.Table([], 1), map[], map[]),
           map[])
  }

  /** The state after a sequence of actions, provided each was possible in its turn. */
  ghost function Run(s: System, acts: seq<Action>): Option<System> {
    if acts == [] then Some(s)
    else
      var before := Run(s, acts[..|acts| - 1]);
      if before.Some? && Enabled(before.value, acts[|acts| - 1]) then Some(Step(before.value, acts[|acts| - 1])) else None
  }

  /** Every action of the run satisfied `ok` in the state it was taken in. */
  ghost predicate Throughout(s: System, acts: seq<Action>, ok: (System, Action) -> bool) {
    acts == [] || (Throughout(s, acts[..|acts| - 1], ok)
                   && (Run(s, acts[..|acts| - 1]).Some? ==> ok(Run(s, acts[..|acts| - 1]).value, acts[|acts| - 1])))
  }

  // ---------- which parts of the server a handler touches ----------

  function MetaAfter(h: Hub.Tables, sid: int, c: Conn, m: Envelope): map<int, map<Conn, Hub.JoinMeta>> {
    if m.typ == "join" then MetaAfterJoin(h, sid, c, m)
    else if m.typ == "leave" then Hub.Without(h.meta, sid, c)
    else h.meta
  }

  /** Apart from join metadata, messages leave the connection tables alone; they write only to sockets that have a lock. */
  ghost predicate SameConnections(s: State, t: State) {
    && t.roles == s.roles && t.auth == s.auth && t.loops == s.loops && t.feeds == s.feeds
    && t.hub.sessions == s.hub.sessions && t.hub.locks == s.hub.locks && t.hub.analysis == s.hub.analysis
    && s.hub.wire.Keys <= t.hub.wire.Keys <= s.hub.wire.Keys + s.hub.locks
  }

  lemma CastTouches(s: State, sid: int, m: Envelope)
    ensures SameConnections(s, Broadcasted(s, sid, m))
    ensures Broadcasted(s, sid, m).hub.meta == s.hub.meta
  {
  }

  lemma SameConnectionsTrans(s: State, t: State, u: State)
    requires SameConnections(s, t) && SameConnections(t, u)
    ensures SameConnections(s, u)
  {
  }

  lemma MeetingJoinTouches(s: State, sid: int, c: Conn, name: string, role: Meeting.Role, at: int)
    ensures SameConnections(s, MeetingJoined(s, sid, c, name, role, at))
    ensures MeetingJoined(s, sid, c, name, role, at).hub.meta == s.hub.meta
  {
    hide Meeting.AfterJoin, Meeting.AfterStart;
  }

  lemma MeetingCloseTouches(s: State, sid: int, c: Conn, at: int)
    ensures SameConnections(s, MeetingClosed(s, sid, at)) && MeetingClosed(s, sid, at).hub.meta == s.hub.meta
    ensures SameConnections(s, MeetingEnded(s, sid, c, at)) && MeetingEnded(s, sid, c, at).hub.meta == s.hub.meta
  {
    hide Meeting.AfterEnd, Meeting.CheckRole;
  }

  lemma ChatTouches(s: State, sid: int, m: Envelope)
    ensures SameConnections(s, Chatted(s, sid, m)) && Chatted(s, sid, m).hub.meta == s.hub.meta
  {
    hide ChatStored, ChatPayload;
  }

  lemma JoinTouches(s: State, sid: int, c: Conn, m: Envelope, at: int, roster: seq<Hub.JoinMeta>)
    ensures SameConnections(s, Joined(s, sid, c, m, at, roster))
    ensures Joined(s, sid, c, m, at, roster).hub.meta == MetaAfterJoin(s.hub, sid, c, m)
  {
    hide MeetingJoined, FieldOr, MeetingRole, Trim;
    var s1 := JoinAnnounced(s, sid, c, m);
    assert SameConnections(s, s1) && s1.hub.meta == MetaAfterJoin(s.hub, sid, c, m);
    var name, role := FieldOr(m.payload, "name", ""), MeetingRole(FieldOr(m.payload, "role", ""));
    MeetingJoinTouches(s1, sid, c, name, role, at);
    SameConnectionsTrans(s, s1, MeetingJoined(s1, sid, c, name, role, at));
  }

  lemma LeaveTouches(s: State, sid: int, c: Conn, m: Envelope, at: int)
    ensures SameConnections(s, Left(s, sid, c, m, at))
    ensures Left(s, sid, c, m, at).hub.meta == Hub.Without(s.hub.meta, sid, c)
  {
    hide Meeting.AfterLeave, FieldOr, ParticipantOf;
  }

  lemma DispatchTouches(s: State, sid: int, c: Conn, m: Envelope, at: int, roster: seq<Hub.JoinMeta>)
    ensures SameConnections(s, Dispatched(s, sid, c, m, at, roster))
    ensures Dispatched(s, sid, c, m, at, roster).hub.meta == MetaAfter(s.hub, sid, c, m)
  {
    hide Joined, Left, MeetingEnded, Chatted, MetaAfterJoin, Hub.Without;
    if m.typ == "join" { JoinTouches(s, sid, c, m, at, roster); }
    else if m.typ == "leave" { LeaveTouches(s, sid, c, m, at); }
    else if m.typ == "end_meeting" { MeetingCloseTouches(s, sid, c, at); }
    else if m.typ == "chat_message" { ChatTouches(s, sid, m); }
    else { CastTouches(s, sid, m); }
  }

  lemma FarewellTouches(s: State, c: Conn, at: int)
    requires c in s.loops
    ensures SameConnections(s, Farewell(s, c, at))
    ensures Farewell(s, c, at).hub.meta == s.hub.meta
  {
    hide Meeting.AfterLeave, MeetingClosed, CoHostRemains, Hub.AfterBroadcast;
    var l := s.loops[c];
    if l.pid != "" {
      var goodbye, note := LeaveNotice(l), Announcement("user_left", l.pid, l.name);
      var s1 := Broadcasted(s, l.sid, goodbye);
      CastTouches(s, l.sid, goodbye);
      CastTouches(s1, l.sid, note);
      var s3 := MeetingLeft(Broadcasted(s1, l.sid, note), l.sid, c, at);
      MeetingCloseTouches(s3, l.sid, c, at);
    }
  }
}
