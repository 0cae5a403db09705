// The websocket handler: what the server does on connect, on each message, and on disconnect.
module Server {
  import opened Outcomes
  import opened Wire
  import Hub
  import Meeting
  import Chat

  type Conn = Hub.Conn

  /** The variables of one running socket loop. */
  datatype Loop = Loop(sid: int, pid: string, name: string, role: string)

  /** How far an analysis connection has come through its attach and detach, whose halves lock separately. */
  datatype FeedPhase = Attaching | Attached | Detaching

  datatype State = State(
    hub: Hub.Tables,
    roles: map<int, map<Conn, string>>,
    auth: map<Conn, int>,
    meeting: Meeting.Tables,
    chat: Chat.Table,
    loops: map<Conn, Loop>,
    feeds: map<Conn, FeedPhase>)

  // ---------- roles ----------

  function LowerChar(c: char): char {
    if 'A' <= c <= 'Z' then (c as int + 32) as char else c
  }

  function Lower(s: string): string {
    seq(|s|, i requires 0 <= i < |s| => LowerChar(s[i]))
  }

  function MeetingRole(role: string): Meeting.Role {
    var r := Trim(Lower(role));
    if r == "host" then Meeting.Host
    else if r == "co-host" || r == "cohost" then Meeting.CoHost
    else if r == "guest" then Meeting.Guest
    else Meeting.Participant
  }

  // ---------- messages of the server's own ----------

  function Event(typ: string): Envelope {
    WSEvent(typ, Record(map[], None))
  }

  function Announcement(typ: string, pid: string, name: string): Envelope {
    WSEvent(typ, Record(map["participant_id" := pid, "name" := name], None))
  }

  /** An empty roster is sent as null, which is not an array. */
  function Snapshot(roster: seq<Hub.JoinMeta>): Envelope {
    WSEvent("participants_snapshot", Record(map[], if roster == [] then None else Some(Items(roster))))
  }

  function Items(roster: seq<Hub.JoinMeta>): seq<map<string, string>> {
    seq(|roster|, i requires 0 <= i < |roster| => map["participant_id" := roster[i].pid, "name" := roster[i].name])
  }

  // ---------- what each handler does to the state ----------

  function Broadcasted(s: State, sid: int, m: Envelope): State {
    s.(hub := Hub.AfterBroadcast(s.hub, sid, m))
  }

  function UserOf(s: State, c: Conn): int { Get(s.auth, c, 0) }

  function DisplayName(name: string): Option<string> {
    if Trim(name) == "" then None else Some(Trim(name))
  }

  function MeetingJoined(s: State, sid: int, c: Conn, name: string, role: Meeting.Role, at: int): State {
    var user := UserOf(s, c);
    var joined := Meeting.AfterJoin(s.meeting, sid, user, DisplayName(name), role, at);
    if user <= 0 || joined.Err? then s
    else
      var s1 := s.(meeting := joined.result);
      var started := Meeting.AfterStart(s1.meeting, sid, at);
      if role == Meeting.Host && sid in s.meeting.status && s.meeting.status[sid] == Meeting.Created && started.Ok?
      then Broadcasted(s1.(meeting := started.result), sid, Event("host_started"))
      else s1
  }

  function MeetingLeft(s: State, sid: int, c: Conn, at: int): State {
    if UserOf(s, c) <= 0 then s
    else s.(meeting := Meeting.Settle(s.meeting, Meeting.AfterLeave(s.meeting, sid, UserOf(s, c), at)))
  }

  function MeetingClosed(s: State, sid: int, at: int): State {
    var ended := Meeting.AfterEnd(s.meeting, sid, at);
    if ended.Err? then s else Broadcasted(s.(meeting := ended.result), sid, Event("meeting_ended"))
  }

  function MeetingEnded(s: State, sid: int, c: Conn, at: int): State {
    if UserOf(s, c) <= 0 || Meeting.CheckRole(s.meeting, sid, UserOf(s, c), {Meeting.Host, Meeting.CoHost}).Some? then s
    else MeetingClosed(s, sid, at)
  }

  function MetaAfterJoin(h: Hub.Tables, sid: int, c: Conn, m: Envelope): map<int, map<Conn, Hub.JoinMeta>> {
    var pid := Trim(ParticipantOf(m));
    if pid == "" then h.meta else Hub.With(h.meta, sid, c, Hub.JoinMeta(pid, FieldOr(m.payload, "name", "")))
  }

  /** The state once join metadata is set and both announcements are out. */
  function JoinAnnounced(s: State, sid: int, c: Conn, m: Envelope): State {
    var s1 := s.(hub := s.hub.(meta := MetaAfterJoin(s.hub, sid, c, m)));
    var s2 := Broadcasted(s1, sid, m);
    Broadcasted(s2, sid, Announcement("user_joined", ParticipantOf(m), FieldOr(m.payload, "name", "")))
  }

  /** `roster` is the outcome of ParticipantSnapshot, which scans a map in no fixed order. */
  function Joined(s: State, sid: int, c: Conn, m: Envelope, at: int, roster: seq<Hub.JoinMeta>): State {
    var name := FieldOr(m.payload, "name", "");
    var s1 := MeetingJoined(JoinAnnounced(s, sid, c, m), sid, c, name, MeetingRole(FieldOr(m.payload, "role", "")), at);
    s1.(hub := Hub.Sent(s1.hub, c, Snapshot(roster)))
  }

  function Left(s: State, sid: int, c: Conn, m: Envelope, at: int): State {
    var s1 := s.(hub := s.hub.(meta := Hub.Without(s.hub.meta, sid, c)));
    var s2 := Broadcasted(MeetingLeft(s1, sid, c, at), sid, m);
    Broadcasted(s2, sid, Announcement("user_left", ParticipantOf(m), FieldOr(m.payload, "name", "")))
  }

  function ChatPayload(m: Envelope): Payload {
    var text := map["text" := Trim(FieldOr(m.payload, "text", "")), "name" := Trim(FieldOr(m.payload, "name", ""))];
    var cid := Trim(FieldOr(m.payload, "client_id", ""));
    Record(if cid == "" then text else text["client_id" := cid], None)
  }

  /** What the chat table makes of a message; messages without text or sender never reach it. */
  function ChatStored(chat: Chat.Table, sessionExists: bool, sid: int, m: Envelope): (Chat.Table, Chat.Insert) {
    var text := Trim(FieldOr(m.payload, "text", ""));
    var pid := Trim(ParticipantOf(m));
    if m.WSEvent? || !m.payload.Record? || text == "" || pid == "" then (chat, Chat.Failed)
    else Chat.AfterAppend(chat, sessionExists, sid, pid,
                          Trim(FieldOr(m.payload, "client_id", "")), Trim(FieldOr(m.payload, "name", "")), text)
  }

  /** A stored line is relayed; a duplicate or a refused one is not. */
  function Chatted(s: State, sid: int, m: Envelope): State {
    var (chat, res) := ChatStored(s.chat, sid in s.meeting.status, sid, m);
    var s1 := s.(chat := chat);
    if res.Inserted? then Broadcasted(s1, sid, m.(payload := ChatPayload(m))) else s1
  }

  function Dispatched(s: State, sid: int, c: Conn, m: Envelope, at: int, roster: seq<Hub.JoinMeta>): State {
    if m.typ == "join" then Joined(s, sid, c, m, at, roster)
    else if m.typ == "leave" then Left(s, sid, c, m, at)
    else if m.typ == "end_meeting" then MeetingEnded(s, sid, c, at)
    else if m.typ == "chat_message" then Chatted(s, sid, m)
    else Broadcasted(s, sid, m)
  }

  function Connected(s: State, c: Conn, sid: int, user: int): State {
    s.(auth := if user > 0 then s.auth[c := user] else s.auth,
       hub := Hub.Added(s.hub, sid, c),
       roles := Hub.With(s.roles, sid, c, ""),
       loops := s.loops[c := Loop(sid, "", "", "")])
  }

  /** The loop variables after a message has been read, before it is dispatched. */
  function Tracked(l: Loop, m: Envelope): Loop {
    var l1 := if ParticipantOf(m) != "" then l.(pid := ParticipantOf(m)) else l;
    if m.typ == "join" then l1.(name := FieldOr(m.payload, "name", l1.name), role := FieldOr(m.payload, "role", l1.role))
    else if m.typ == "leave" then l1.(pid := "", name := "")
    else l1
  }

  function Noted(s: State, c: Conn, m: Envelope): State
    requires c in s.loops
  {
    var l := Tracked(s.loops[c], m);
    s.(loops := s.loops[c := l],
       roles := if m.typ == "join" && TextField(m.payload, "role").Some? then Hub.With(s.roles, l.sid, c, l.role) else s.roles)
  }

  function Received(s: State, c: Conn, m: Envelope, at: int, roster: seq<Hub.JoinMeta>): State
    requires c in s.loops
  {
    Dispatched(Noted(s, c, m), s.loops[c].sid, c, m, at, roster)
  }

  function LeaveNotice(l: Loop): Envelope {
    WSMessage("leave", l.sid, l.pid, Record(map["name" := l.name, "role" := l.role], None))
  }

  predicate CoHostRemains(s: State, sid: int) {
    "co-host" in Get(s.roles, sid, map[]).Values
  }

  /** Goodbye messages, the participant row, and perhaps the end of the meeting. */
  function Farewell(s: State, c: Conn, at: int): State
    requires c in s.loops
  {
    var l := s.loops[c];
    if l.pid == "" then s
    else
      var s1 := Broadcasted(s, l.sid, LeaveNotice(l));
      var s2 := Broadcasted(s1, l.sid, Announcement("user_left", l.pid, l.name));
      var s3 := MeetingLeft(s2, l.sid, c, at);
      if l.role == "host" && !CoHostRemains(s3, l.sid) then MeetingClosed(s3, l.sid, at) else s3
  }

  /** Deferred cleanup, in order: role, farewell, hub tables, user binding; the socket's unread messages go with it. */
  function Disconnected(s: State, c: Conn, at: int): State
    requires c in s.loops
  {
    var sid := s.loops[c].sid;
    var s1 := Farewell(s.(roles := Hub.Without(s.roles, sid, c)), c, at);
    var hub := Hub.Removed(s1.hub, sid, c);
    s1.(hub := hub.(wire := hub.wire - {c}), auth := s1.auth - {c}, loops := s1.loops - {c})
  }

  function FeedReceived(s: State, c: Conn, m: Envelope, at: int, roster: seq<Hub.JoinMeta>): State {
    if m.WSEvent? || m.sid <= 0 then s else Dispatched(s, m.sid, c, m, at, roster)
  }

  // ---------- analysis connections, whose attach and detach lock twice each ----------

  function LockAttached(s: State, c: Conn): State {
    s.(hub := s.hub.(locks := s.hub.locks + {c}), feeds := s.feeds[c := Attaching])
  }

  function ConnAttached(s: State, c: Conn): State {
    s.(hub := s.hub.(analysis := s.hub.analysis + {c}), feeds := s.feeds[c := Attached])
  }

  function ConnDetached(s: State, c: Conn): State {
    s.(hub := s.hub.(analysis := s.hub.analysis - {c}), feeds := s.feeds[c := Detaching])
  }

  /** The socket's unread messages go with its lock. */
  function LockDetached(s: State, c: Conn): State {
    s.(hub := s.hub.(locks := s.hub.locks - {c}, wire := s.hub.wire - {c}), feeds := s.feeds - {c})
  }

  // ---------- the handler, updating its tables in place ----------

  class Handler {
    const hub: Hub.SessionHub
    const meetings: Meeting.Service
    const chat: Chat.Repository
    var connRoles: map<int, map<Conn, string>>
    var connAuth: map<Conn, int>
    var loops: map<Conn, Loop>
    var feeds: map<Conn, FeedPhase>

    ghost function View(): State
      reads this, hub, meetings.repo, chat
    {
      State(hub.View(), connRoles, connAuth, meetings.repo.View(), chat.View(), loops, feeds)
    }

    constructor (hub: Hub.SessionHub, meetings: Meeting.Service, chat: Chat.Repository)
      ensures this.hub == hub && this.meetings == meetings && this.chat == chat
      ensures View() == State(hub.View(), map[], map[], meetings.repo.View(), chat.View(), map[], map[])
    {
      this.hub, this.meetings, this.chat := hub, meetings, chat;
      connRoles, connAuth, loops, feeds := map[], map[], map[], map[];
    }

    method MeetingJoin(sid: int, c: Conn, name: string, wsRole: string, at: int)
      modifies hub, meetings.repo
      ensures View() == MeetingJoined(old(View()), sid, c, name, MeetingRole(wsRole), at)
    {
      var user := Get(connAuth, c, 0);
      if user <= 0 { return; }
      var role := MeetingRole(wsRole);
      var statusBefore := if sid in meetings.repo.status then Some(meetings.repo.status[sid]) else None;
      var err := meetings.Join(sid, user, DisplayName(name), role, at);
      if err.Some? { return; }
      if role == Meeting.Host && statusBefore == Some(Meeting.Created) {
        err := meetings.StartMeeting(sid, at);
        if err.None? {
          hub.Broadcast(sid, Event("host_started"));
        }
      }
    }

    method MeetingLeave(sid: int, c: Conn, at: int)
      modifies meetings.repo
      ensures View() == MeetingLeft(old(View()), sid, c, at)
    {
      var user := Get(connAuth, c, 0);
      if user <= 0 { return; }
      var _ := meetings.Leave(sid, user, at);
    }

    method CloseMeeting(sid: int, at: int)
      modifies hub, meetings.repo
      ensures View() == MeetingClosed(old(View()), sid, at)
    {
      var err := meetings.EndMeeting(sid, at);
      if err.Some? { return; }
      hub.Broadcast(sid, Event("meeting_ended"));
    }

    method MeetingEnd(sid: int, c: Conn, at: int)
      modifies hub, meetings.repo
      ensures View() == MeetingEnded(old(View()), sid, c, at)
    {
      var user := Get(connAuth, c, 0);
      if user <= 0 { return; }
      var err := meetings.RequireRole(sid, user, {Meeting.Host, Meeting.CoHost});
      if err.Some? { return; }
      CloseMeeting(sid, at);
    }

    method Join(sid: int, c: Conn, m: Envelope, at: int) returns (roster: seq<Hub.JoinMeta>)
      modifies hub, meetings.repo
      ensures Hub.IsSnapshot(Hub.MetaOf(hub.View(), sid), roster)
      ensures View() == Joined(old(View()), sid, c, m, at, roster)
    {
      var name := FieldOr(m.payload, "name", "");
      var wsRole := FieldOr(m.payload, "role", "");
      var pid := Trim(ParticipantOf(m));
      if pid != "" { hub.SetJoinMeta(sid, c, pid, name); }
      hub.Broadcast(sid, m);
      hub.Broadcast(sid, Announcement("user_joined", ParticipantOf(m), name));
      MeetingJoin(sid, c, name, wsRole, at);
      roster := hub.ParticipantSnapshot(sid);
      hub.SendJSON(c, Snapshot(roster));
    }

    method Leave(sid: int, c: Conn, m: Envelope, at: int)
      modifies hub, meetings.repo
      ensures View() == Left(old(View()), sid, c, m, at)
    {
      hub.RemoveConnJoinMeta(sid, c);
      MeetingLeave(sid, c, at);
      hub.Broadcast(sid, m);
      hub.Broadcast(sid, Announcement("user_left", ParticipantOf(m), FieldOr(m.payload, "name", "")));
    }

    method ChatMessage(sid: int, m: Envelope)
      modifies hub, chat
      ensures View() == Chatted(old(View()), sid, m)
    {
      var text := Trim(FieldOr(m.payload, "text", ""));
      var pid := Trim(ParticipantOf(m));
      if m.WSEvent? || !m.payload.Record? || text == "" || pid == "" { return; }
      var name, cid := Trim(FieldOr(m.payload, "name", "")), Trim(FieldOr(m.payload, "client_id", ""));
      var res := chat.AppendMessage(sid in meetings.repo.status, sid, pid, cid, name, text);
      if !res.Inserted? { return; }
      hub.Broadcast(sid, m.(payload := ChatPayload(m)));
    }

    method Dispatch(sid: int, c: Conn, m: Envelope, at: int) returns (roster: seq<Hub.JoinMeta>)
      modifies hub, meetings.repo, chat
      ensures m.typ == "join" ==> Hub.IsSnapshot(Hub.MetaOf(hub.View(), sid), roster)
      ensures View() == Dispatched(old(View()), sid, c, m, at, roster)
    {
      roster := [];
      match m.typ
      case "join" => roster := Join(sid, c, m, at);
      case "leave" => Leave(sid, c, m, at);
      case "end_meeting" => MeetingEnd(sid, c, at);
      case "chat_message" => ChatMessage(sid, m);
      case _ => hub.Broadcast(sid, m);
    }

    method Connect(c: Conn, sid: int, user: int)
      modifies this, hub
      ensures View() == Connected(old(View()), c, sid, user)
    {
      if user > 0 { connAuth := connAuth[c := user]; }
      hub.Add(sid, c);
      SetRole(sid, c, "");
      loops := loops[c := Loop(sid, "", "", "")];
    }

    /** The socket loop's own bookkeeping for one message. */
    method Note(c: Conn, m: Envelope)
      requires c in loops
      modifies this
      ensures View() == Noted(old(View()), c, m)
    {
      var l := loops[c];
      if ParticipantOf(m) != "" { l := l.(pid := ParticipantOf(m)); }
      if m.typ == "join" && m.payload.Record? {
        if "name" in m.payload.text { l := l.(name := m.payload.text["name"]); }
        if "role" in m.payload.text {
          l := l.(role := m.payload.text["role"]);
          SetRole(l.sid, c, l.role);
        }
      }
      if m.typ == "leave" { l := l.(pid := "", name := ""); }
      loops := loops[c := l];
    }

    method SetRole(sid: int, c: Conn, role: string)
      modifies this`connRoles
      ensures connRoles == Hub.With(old(connRoles), sid, c, role)
    {
      if sid !in connRoles { connRoles := connRoles[sid := map[]]; }
      connRoles := connRoles[sid := connRoles[sid][c := role]];
    }

    method Receive(c: Conn, m: Envelope, at: int) returns (roster: seq<Hub.JoinMeta>)
      requires c in loops
      modifies this, hub, meetings.repo, chat
      ensures m.typ == "join" ==> Hub.IsSnapshot(Hub.MetaOf(hub.View(), old(loops[c].sid)), roster)
      ensures View() == Received(old(View()), c, m, at, roster)
    {
      var sid := loops[c].sid;
      Note(c, m);
      roster := Dispatch(sid, c, m, at);
    }

    method ForgetRole(sid: int, c: Conn)
      modifies this`connRoles
      ensures connRoles == Hub.Without(old(connRoles), sid, c)
    {
      if sid in connRoles {
        var inner := connRoles[sid] - {c};
        connRoles := connRoles[sid := inner];
        if |inner| == 0 { connRoles := connRoles - {sid}; }
      }
      assert connRoles == Hub.Without(old(connRoles), sid, c);
    }

    method SayFarewell(c: Conn, at: int)
      requires c in loops
      modifies hub, meetings.repo
      ensures View() == Farewell(old(View()), c, at)
    {
      var l := loops[c];
      if l.pid == "" { return; }
      var remainingRoles := Get(connRoles, l.sid, map[]).Values;
      hub.Broadcast(l.sid, LeaveNotice(l));
      hub.Broadcast(l.sid, Announcement("user_left", l.pid, l.name));
      MeetingLeave(l.sid, c, at);
      if l.role == "host" && "co-host" !in remainingRoles {
        CloseMeeting(l.sid, at);
      }
    }

    method Disconnect(c: Conn, at: int)
      requires c in loops
      modifies this, hub, meetings.repo
      ensures View() == Disconnected(old(View()), c, at)
    {
      var sid := loops[c].sid;
      ForgetRole(sid, c);
      SayFarewell(c, at);
      hub.Remove(sid, c);
      hub.wire := hub.wire - {c};
      connAuth := connAuth - {c};
      loops := loops - {c};
    }

    method AttachLock(c: Conn)
      modifies this, hub
      ensures View() == LockAttached(old(View()), c)
    {
      hub.AddAnalysisLock(c);
      feeds := feeds[c := Attaching];
    }

    method AttachConn(c: Conn)
      modifies this, hub
      ensures View() == ConnAttached(old(View()), c)
    {
      hub.AddAnalysisConn(c);
      feeds := feeds[c := Attached];
    }

    method DetachConn(c: Conn)
      modifies this, hub
      ensures View() == ConnDetached(old(View()), c)
    {
      hub.RemoveAnalysisConn(c);
      feeds := feeds[c := Detaching];
    }

    method DetachLock(c: Conn)
      modifies this, hub
      ensures View() == LockDetached(old(View()), c)
    {
      hub.RemoveAnalysisLock(c);
      hub.wire := hub.wire - {c};
      feeds := feeds - {c};
    }

    /** The socket loop of an analysis connection. */
    method FeedReceive(c: Conn, m: Envelope, at: int) returns (roster: seq<Hub.JoinMeta>)
      modifies hub, meetings.repo, chat
      ensures m.WSMessage? && m.sid > 0 && m.typ == "join" ==> Hub.IsSnapshot(Hub.MetaOf(hub.View(), m.sid), roster)
      ensures View() == FeedReceived(old(View()), c, m, at, roster)
    {
      roster := [];
      if m.WSEvent? || m.sid <= 0 { return; }
      roster := Dispatch(m.sid, c, m, at);
    }
  }
}
