// Which steps of the room start and end meetings, announce it, and open and close participant rows.
module MeetingSteps {
  import opened Outcomes
  import opened Wire
  import opened Tally
  import Hub
  import Client
  import Meeting
  import opened MeetingLife
  import Bookkeeping
  import opened Server
  import opened Room

  type Status = Meeting.Status

  /** One session's status is set, or none is, and exactly that is announced. */
  ghost predicate Moved(s: State, t: State, sid: int, to: Option<Status>) {
    && t.meeting.status == (if to.Some? then s.meeting.status[sid := to.value] else s.meeting.status)
    && forall k :: Announced(t.hub.casts, k) == Announced(s.hub.casts, k) + if to.Some? && k == sid then [to.value] else []
  }

  lemma StillThenMoved(s: State, t: State, u: State, sid: int, to: Option<Status>)
    requires Moved(s, t, sid, None) && Moved(t, u, sid, to)
    ensures Moved(s, u, sid, to)
  {
    hide Announced;
    forall k ensures Announced(t.hub.casts, k) == Announced(s.hub.casts, k) { assert Announced(s.hub.casts, k) + [] == Announced(s.hub.casts, k); }
  }

  lemma MovedThenStill(s: State, t: State, u: State, sid: int, to: Option<Status>)
    requires Moved(s, t, sid, to) && Moved(t, u, sid, None)
    ensures Moved(s, u, sid, to)
  {
    hide Announced;
    forall k ensures Announced(u.hub.casts, k) == Announced(t.hub.casts, k) { assert Announced(t.hub.casts, k) + [] == Announced(t.hub.casts, k); }
  }

  lemma Still(s: State, t: State, sid: int)
    requires t.meeting.status == s.meeting.status && t.hub.casts == s.hub.casts
    ensures Moved(s, t, sid, None)
  {
    hide Announced;
    forall k ensures Announced(s.hub.casts, k) + [] == Announced(s.hub.casts, k) { }
  }

  /** Broadcasting an announcement once the status is set, or anything else while it is not. */
  lemma CastMoves(s: State, meeting: Meeting.Tables, sid: int, m: Envelope, to: Option<Status>)
    requires meeting.status == if to.Some? then s.meeting.status[sid := to.value] else s.meeting.status
    requires Announces(Hub.Cast(sid, m), sid) == if to.Some? then [to.value] else []
    ensures Moved(s, Broadcasted(s.(meeting := meeting), sid, m), sid, to)
  {
    hide Hub.Appended;
    var t := Broadcasted(s.(meeting := meeting), sid, m);
    assert t.hub.casts == s.hub.casts + [Hub.Cast(sid, m)];
    assert t.hub.casts[..|s.hub.casts|] == s.hub.casts;
    forall k ensures Announced(t.hub.casts, k) == Announced(s.hub.casts, k) + if to.Some? && k == sid then [to.value] else [] {
    }
  }

  lemma RelayStill(s: State, sid: int, m: Envelope)
    requires m.WSEvent? ==> m.typ != "host_started" && m.typ != "meeting_ended"
    ensures Moved(s, Broadcasted(s, sid, m), sid, None)
  {
    CastMoves(s, s.meeting, sid, m, None);
    hide Moved, Hub.AfterBroadcast;
    assert s.(meeting := s.meeting) == s;
  }

  // ---------- the handlers ----------

  function StatusOf(s: State, sid: int): Option<Status> {
    if sid in s.meeting.status then Some(s.meeting.status[sid]) else None
  }

  function Started(s: State, sid: int, user: int, host: bool): Option<Status> {
    if user > 0 && host && StatusOf(s, sid) == Some(Meeting.Created) then Some(Meeting.Active) else None
  }

  function Stopped(s: State, sid: int, allowed: bool): Option<Status> {
    if allowed && StatusOf(s, sid) in {Some(Meeting.Created), Some(Meeting.Active), Some(Meeting.Paused)} then Some(Meeting.Ended) else None
  }

  lemma MeetingJoinedMoves(s: State, sid: int, c: Conn, name: string, role: Meeting.Role, at: int)
    ensures Moved(s, MeetingJoined(s, sid, c, name, role, at), sid, Started(s, sid, UserOf(s, c), role == Meeting.Host))
  {
    hide Hub.AfterBroadcast, Announced, Moved, Meeting.HasActive, DisplayName;
    var user := UserOf(s, c);
    var joined := Meeting.AfterJoin(s.meeting, sid, user, DisplayName(name), role, at);
    Still(s, s, sid);
    if user > 0 && joined.Ok? {
      var s1 := s.(meeting := joined.result);
      Still(s, s1, sid);
      var started := Meeting.AfterStart(s1.meeting, sid, at);
      if started.Ok? { CastMoves(s, started.result, sid, Event("host_started"), Some(Meeting.Active)); }
      assert s1.(meeting := Meeting.Settle(s1.meeting, started)) == s.(meeting := Meeting.Settle(s1.meeting, started));
    }
  }

  lemma MeetingClosedMoves(s: State, sid: int, at: int)
    ensures Moved(s, MeetingClosed(s, sid, at), sid, Stopped(s, sid, true))
  {
    hide Hub.AfterBroadcast, Announced, Moved;
    var ended := Meeting.AfterEnd(s.meeting, sid, at);
    Still(s, s, sid);
    if ended.Ok? { CastMoves(s, ended.result, sid, Event("meeting_ended"), Some(Meeting.Ended)); }
  }

  lemma JoinedMoves(s: State, sid: int, c: Conn, m: Envelope, at: int, roster: seq<Hub.JoinMeta>)
    requires m.WSMessage?
    ensures Moved(s, Joined(s, sid, c, m, at, roster), sid,
      Started(s, sid, UserOf(s, c), MeetingRole(FieldOr(m.payload, "role", "")) == Meeting.Host))
  {
    hide Moved, Hub.AfterBroadcast, MetaAfterJoin, Trim, FieldOr, MeetingRole, MeetingJoined, Snapshot;
    var name, role := FieldOr(m.payload, "name", ""), MeetingRole(FieldOr(m.payload, "role", ""));
    var s1 := s.(hub := s.hub.(meta := MetaAfterJoin(s.hub, sid, c, m)));
    var s2 := Broadcasted(s1, sid, m);
    var s3 := JoinAnnounced(s, sid, c, m);
    var s4 := MeetingJoined(s3, sid, c, name, role, at);
    var to := Started(s, sid, UserOf(s, c), role == Meeting.Host);
    Still(s, s1, sid);
    RelayStill(s1, sid, m);
    RelayStill(s2, sid, Announcement("user_joined", ParticipantOf(m), name));
    MeetingJoinedMoves(s3, sid, c, name, role, at);
    Still(s4, Joined(s, sid, c, m, at, roster), sid);
    StillThenMoved(s, s1, s2, sid, None);
    StillThenMoved(s, s2, s3, sid, None);
    StillThenMoved(s, s3, s4, sid, to);
    MovedThenStill(s, s4, Joined(s, sid, c, m, at, roster), sid, to);
  }

  lemma LeftStill(s: State, sid: int, c: Conn, m: Envelope, at: int)
    requires m.WSMessage?
    ensures Moved(s, Left(s, sid, c, m, at), sid, None)
  {
    hide Moved, Hub.AfterBroadcast, Hub.Without, FieldOr, Meeting.CloseRows, Meeting.HasActive;
    var s1 := s.(hub := s.hub.(meta := Hub.Without(s.hub.meta, sid, c)));
    var s2 := MeetingLeft(s1, sid, c, at);
    var s3 := Broadcasted(s2, sid, m);
    Still(s, s2, sid);
    hide MeetingLeft;
    RelayStill(s2, sid, m);
    RelayStill(s3, sid, Announcement("user_left", ParticipantOf(m), FieldOr(m.payload, "name", "")));
    StillThenMoved(s, s2, s3, sid, None);
    StillThenMoved(s, s3, Left(s, sid, c, m, at), sid, None);
  }

  lemma ChattedStill(s: State, sid: int, m: Envelope)
    requires m.WSMessage?
    ensures Moved(s, Chatted(s, sid, m), sid, None)
  {
    hide Moved, Hub.AfterBroadcast, ChatStored, ChatPayload;
    var s1 := s.(chat := ChatStored(s.chat, sid in s.meeting.status, sid, m).0);
    Still(s, s1, sid);
    RelayStill(s1, sid, m.(payload := ChatPayload(m)));
    StillThenMoved(s, s1, Broadcasted(s1, sid, m.(payload := ChatPayload(m))), sid, None);
  }

  /** A known user asks to join as host. */
  predicate HostJoins(s: State, c: Conn, m: Envelope) {
    && m.typ == "join" && c in s.auth && s.auth[c] > 0
    && TextField(m.payload, "role").Some? && Trim(Lower(TextField(m.payload, "role").value)) == "host"
  }

  /** The sender of this is a known user with an active host or co-host row. */
  ghost predicate HostEnds(s: State, sid: int, c: Conn, m: Envelope) {
    && m.typ == "end_meeting" && c in s.auth && s.auth[c] > 0
    && exists r :: r in s.meeting.rows && r.sid == sid && r.user == s.auth[c] && r.active
                && (r.role == Meeting.Host || r.role == Meeting.CoHost)
  }

  ghost function Verdict(s: State, sid: int, c: Conn, m: Envelope): Option<Status> {
    if HostJoins(s, c, m) then Started(s, sid, 1, true) else Stopped(s, sid, HostEnds(s, sid, c, m))
  }

  lemma HostRole(p: Payload)
    ensures MeetingRole(FieldOr(p, "role", "")) == Meeting.Host <==>
      TextField(p, "role").Some? && Trim(Lower(TextField(p, "role").value)) == "host"
  {
    assert Lower("") == "";
    assert Trim("") == "";
    hide Lower, Trim;
  }

  lemma EndedMoves(s: State, sid: int, c: Conn, m: Envelope, at: int)
    requires m.typ == "end_meeting" && Meeting.Sound(s.meeting)
    ensures Moved(s, MeetingEnded(s, sid, c, at), sid, Stopped(s, sid, HostEnds(s, sid, c, m)))
  {
    Meeting.RoleExactly(s.meeting, sid, UserOf(s, c), {Meeting.Host, Meeting.CoHost});
    hide Moved, MeetingClosed, Meeting.CheckRole, Meeting.Sound;
    MeetingClosedMoves(s, sid, at);
    Still(s, s, sid);
  }

  lemma DispatchedMoves(s: State, sid: int, c: Conn, m: Envelope, at: int, roster: seq<Hub.JoinMeta>)
    requires m.WSMessage? && Meeting.Sound(s.meeting)
    ensures Moved(s, Dispatched(s, sid, c, m, at, roster), sid, Verdict(s, sid, c, m))
  {
    HostRole(m.payload);
    hide Moved, Joined, Left, MeetingEnded, Chatted, Broadcasted, Lower, Trim, Meeting.Sound, MeetingRole, FieldOr;
    if m.typ == "join" { JoinedMoves(s, sid, c, m, at, roster); }
    else if m.typ == "leave" { LeftStill(s, sid, c, m, at); }
    else if m.typ == "end_meeting" { EndedMoves(s, sid, c, m, at); }
    else if m.typ == "chat_message" { ChattedStill(s, sid, m); }
    else { RelayStill(s, sid, m); }
  }

  /** A host's socket goes while it is tracked under an id, and no other socket of the session is a co-host's. */
  predicate HostGone(s: State, c: Conn)
    requires c in s.loops
  {
    var l := s.loops[c];
    && l.pid != "" && l.role == "host"
    && forall d :: d in Get(s.roles, l.sid, map[]) && d != c ==> Get(s.roles, l.sid, map[])[d] != "co-host"
  }

  lemma CoHostsLeft(s: State, c: Conn, sid: int)
    ensures CoHostRemains(s.(roles := Hub.Without(s.roles, sid, c)), sid) <==>
      exists d :: d in Get(s.roles, sid, map[]) && d != c && Get(s.roles, sid, map[])[d] == "co-host"
  {
    var inner := Get(s.roles, sid, map[]);
    var after := Get(Hub.Without(s.roles, sid, c), sid, map[]);
    assert after == inner - {c};
    forall d | d in inner && d != c ensures d in after && after[d] == inner[d] && after[d] in after.Values { }
  }

  lemma FarewellMoves(s: State, c: Conn, at: int)
    requires c in s.loops
    ensures var l := s.loops[c];
      Moved(s, Farewell(s, c, at), l.sid, Stopped(s, l.sid, l.pid != "" && l.role == "host" && !CoHostRemains(s, l.sid)))
  {
    hide Moved, Hub.AfterBroadcast, MeetingClosed, CoHostRemains, Meeting.CloseRows, Meeting.HasActive;
    var l := s.loops[c];
    Still(s, s, l.sid);
    if l.pid != "" {
      var s1 := Broadcasted(s, l.sid, LeaveNotice(l));
      var s2 := Broadcasted(s1, l.sid, Announcement("user_left", l.pid, l.name));
      var s3 := MeetingLeft(s2, l.sid, c, at);
      RelayStill(s, l.sid, LeaveNotice(l));
      RelayStill(s1, l.sid, Announcement("user_left", l.pid, l.name));
      Still(s2, s3, l.sid);
      MeetingClosedMoves(s3, l.sid, at);
      SameRoles(s, s3, l.sid);
      hide MeetingLeft;
      StillThenMoved(s, s1, s2, l.sid, None);
      StillThenMoved(s, s2, s3, l.sid, None);
      StillThenMoved(s, s3, MeetingClosed(s3, l.sid, at), l.sid, Stopped(s3, l.sid, true));
    }
  }

  lemma SameRoles(s: State, t: State, sid: int)
    requires s.roles == t.roles
    ensures CoHostRemains(s, sid) == CoHostRemains(t, sid)
  {
  }

  /** The session a step is about: that of the socket, or the one an analysis message names. */
  function About(s: State, a: Action): Option<int> {
    if (a.Receive? || a.Disconnect?) && a.c in s.loops then Some(s.loops[a.c].sid)
    else if a.FeedReceive? && a.m.WSMessage? && a.m.sid > 0 then Some(a.m.sid)
    else None
  }

  /** The step starts the session's meeting, if it has only been created. */
  predicate Starts(s: State, a: Action, sid: int) {
    About(s, a) == Some(sid) && !a.Disconnect? && HostJoins(s, a.c, a.m)
  }

  /** The step ends the session's meeting, unless it is over. */
  ghost predicate Ends(s: State, a: Action, sid: int) {
    About(s, a) == Some(sid) && if a.Disconnect? then HostGone(s, a.c) else HostEnds(s, sid, a.c, a.m)
  }

  ghost function Target(s: State, a: Action, sid: int): Option<Status> {
    if Starts(s, a, sid) then Started(s, sid, 1, true) else Stopped(s, sid, Ends(s, a, sid))
  }

  lemma ReceivedMoves(s: State, c: Conn, m: Envelope, at: int, roster: seq<Hub.JoinMeta>)
    requires c in s.loops && m.WSMessage? && Meeting.Sound(s.meeting)
    ensures Moved(s, Received(s, c, m, at, roster), s.loops[c].sid, Verdict(s, s.loops[c].sid, c, m))
  {
    var sid, s0 := s.loops[c].sid, Noted(s, c, m);
    assert s0.meeting == s.meeting && s0.auth == s.auth && s0.hub == s.hub;
    Still(s, s0, sid);
    hide Moved, Dispatched, Noted, Lower, Trim, Meeting.Sound;
    DispatchedMoves(s0, sid, c, m, at, roster);
    assert Verdict(s0, sid, c, m) == Verdict(s, sid, c, m);
    hide Verdict;
    StillThenMoved(s, s0, Received(s, c, m, at, roster), sid, Verdict(s, sid, c, m));
  }

  lemma DisconnectedMoves(s: State, c: Conn, at: int)
    requires c in s.loops
    ensures Moved(s, Disconnected(s, c, at), s.loops[c].sid, Stopped(s, s.loops[c].sid, HostGone(s, c)))
  {
    var sid := s.loops[c].sid;
    var s0 := s.(roles := Hub.Without(s.roles, sid, c));
    Still(s, s0, sid);
    CoHostsLeft(s, c, sid);
    FarewellMoves(s0, c, at);
    Still(Farewell(s0, c, at), Disconnected(s, c, at), sid);
    var to := Stopped(s, sid, HostGone(s, c));
    assert to == Stopped(s0, sid, s.loops[c].pid != "" && s.loops[c].role == "host" && !CoHostRemains(s0, sid));
    hide *;
    StillThenMoved(s, s0, Farewell(s0, c, at), sid, to);
    MovedThenStill(s, Farewell(s0, c, at), Disconnected(s, c, at), sid, to);
  }

  lemma StepMoves(s: System, a: Action, sid: int)
    requires Enabled(s, a) && Meeting.Sound(s.server.meeting) && About(s.server, a) in {None, Some(sid)}
    ensures Moved(s.server, Step(s, a).server, sid, Target(s.server, a, sid))
  {
    hide Moved, Dispatched, Received, Disconnected, Client.Reduced, RosterFits, Meeting.Sound, Lower, Trim, Hub.With;
    if a.Receive? { ReceivedMoves(s.server, a.c, a.m, a.at, a.roster); }
    else if a.FeedReceive? && a.m.sid > 0 { DispatchedMoves(s.server, sid, a.c, a.m, a.at, a.roster); }
    else if a.Disconnect? { DisconnectedMoves(s.server, a.c, a.at); }
    else { Still(s.server, Step(s, a).server, sid); }
  }

  /**
    The step sets the session's status if and only if it is a known user's join as host to a created session, which
    makes it active, or the end of one that is created, active or paused, by a host or co-host or because the last
    host's socket has gone; and exactly such a change is announced.
  */
  ghost predicate ChangesExactly(s: State, t: State, a: Action, sid: int)
    requires sid in s.meeting.status
  {
    && sid in t.meeting.status
    && var before, after := s.meeting.status[sid], t.meeting.status[sid];
    && (before == Meeting.Created && Starts(s, a, sid) ==> after == Meeting.Active)
    && (before in {Meeting.Created, Meeting.Active, Meeting.Paused} && Ends(s, a, sid) ==> after == Meeting.Ended)
    && (after != before ==>
         (before == Meeting.Created && Starts(s, a, sid)) || (before in {Meeting.Created, Meeting.Active, Meeting.Paused} && Ends(s, a, sid)))
    && Announced(t.hub.casts, sid) == Announced(s.hub.casts, sid) + if after != before then [after] else []
  }

  lemma TargetMeans(s: State, t: State, a: Action, sid: int, k: int)
    requires sid in s.meeting.status && About(s, a) in {None, Some(k)} && (About(s, a) == None ==> k == sid)
    requires Moved(s, t, k, Target(s, a, k))
    ensures ChangesExactly(s, t, a, sid)
  {
    assert !(Starts(s, a, sid) && Ends(s, a, sid));
    hide Announced, HostJoins, HostEnds, HostGone;
  }

  /** What a step does to a session's status, in any state of any run. */
  lemma StatusExactly(status: map<int, Status>, acts: seq<Action>, a: Action, sid: int)
    requires Run(Start(status), acts).Some? && Enabled(Run(Start(status), acts).value, a) && sid in status
    ensures var s := Run(Start(status), acts).value;
      sid in s.server.meeting.status && ChangesExactly(s.server, Step(s, a).server, a, sid)
  {
    var s := Run(Start(status), acts).value;
    RunKeeps(Start(status), acts);
    assert Meeting.Sound(Start(status).server.meeting);
    assert Meeting.Evolves(Start(status).server.meeting, s.server.meeting);
    assert Meeting.Sound(s.server.meeting) && sid in s.server.meeting.status;
    var about := About(s.server, a);
    var k := if about.Some? then about.value else sid;
    hide *;
    StepMoves(s, a, k);
    TargetMeans(s.server, Step(s, a).server, a, sid, k);
  }

  // ---------- participant rows ----------

  /** The row of a user who has just joined by this message. */
  ghost predicate Fresh(r: Meeting.Row, sid: int, user: int, m: Envelope, at: int) {
    var name, role := Trim(FieldOr(m.payload, "name", "")), Trim(Lower(FieldOr(m.payload, "role", "")));
    && r.sid == sid && r.user == user && r.joinedAt == at && r.leftAt.None? && r.active
    && r.displayName == (if name == "" then None else Some(name))
    && (r.role == Meeting.Host <==> role == "host")
    && (r.role == Meeting.CoHost <==> role == "co-host" || role == "cohost")
    && (r.role == Meeting.Guest <==> role == "guest")
  }

  /** The user has a row added, unless active already or in no session. */
  ghost predicate RowsJoined(s: State, t: State, sid: int, user: int, m: Envelope, at: int) {
    if user <= 0 || Meeting.Present(s.meeting.rows, sid, user) || sid !in s.meeting.status then t.meeting.rows == s.meeting.rows
    else
      && |t.meeting.rows| == |s.meeting.rows| + 1 && t.meeting.rows[..|s.meeting.rows|] == s.meeting.rows
      && Fresh(t.meeting.rows[|s.meeting.rows|], sid, user, m, at)
  }

  ghost predicate RowsLeft(s: State, t: State, sid: int, user: int, at: int) {
    if user <= 0 then t.meeting.rows == s.meeting.rows else Meeting.Closed(s.meeting.rows, t.meeting.rows, sid, user, at)
  }

  /** A join by a known user opens a row, a leave or the going of a tracked socket closes it, and nothing else touches the rows. */
  ghost predicate RowsChanged(s: State, t: State, a: Action) {
    var user := if a.Deliver? then 0 else Get(s.auth, a.c, 0);
    match About(s, a)
    case None => t.meeting.rows == s.meeting.rows
    case Some(sid) =>
      if a.Disconnect? then
        if s.loops[a.c].pid == "" then t.meeting.rows == s.meeting.rows else RowsLeft(s, t, sid, user, a.at)
      else if a.m.typ == "join" then RowsJoined(s, t, sid, user, a.m, a.at)
      else if a.m.typ == "leave" then RowsLeft(s, t, sid, user, a.at)
      else t.meeting.rows == s.meeting.rows
  }

  lemma FreshRow(sid: int, user: int, m: Envelope, at: int)
    ensures Fresh(Meeting.Row(sid, user, DisplayName(FieldOr(m.payload, "name", "")), MeetingRole(FieldOr(m.payload, "role", "")), at, None, true),
      sid, user, m, at)
  {
    hide Trim, Lower, FieldOr;
  }

  lemma JoinedRows(s: State, sid: int, c: Conn, m: Envelope, at: int, roster: seq<Hub.JoinMeta>)
    ensures RowsJoined(s, Joined(s, sid, c, m, at, roster), sid, UserOf(s, c), m, at)
  {
    hide Fresh, Hub.AfterBroadcast, Trim, Lower, FieldOr, Meeting.AfterJoin, Meeting.AfterStart, Meeting.Present, DisplayName, MeetingRole, Snapshot, MetaAfterJoin;
    var name, role := FieldOr(m.payload, "name", ""), MeetingRole(FieldOr(m.payload, "role", ""));
    var s1 := JoinAnnounced(s, sid, c, m);
    assert s1.meeting == s.meeting && s1.auth == s.auth;
    hide JoinAnnounced;
    MeetingJoinedRows(s1, sid, c, name, role, at);
    Meeting.JoinExactly(s.meeting, sid, UserOf(s, c), DisplayName(name), role, at);
    FreshRow(sid, UserOf(s, c), m, at);
    hide MeetingJoined;
  }

  lemma MeetingJoinedRows(s: State, sid: int, c: Conn, name: string, role: Meeting.Role, at: int)
    ensures MeetingJoined(s, sid, c, name, role, at).meeting.rows ==
      if UserOf(s, c) <= 0 then s.meeting.rows
      else Meeting.Settle(s.meeting, Meeting.AfterJoin(s.meeting, sid, UserOf(s, c), DisplayName(name), role, at)).rows
  {
    hide Hub.AfterBroadcast, Meeting.AfterJoin, DisplayName;
  }

  lemma LeftRows(s: State, sid: int, c: Conn, at: int)
    ensures RowsLeft(s, MeetingLeft(s, sid, c, at), sid, UserOf(s, c), at)
  {
    Meeting.LeaveExactly(s.meeting, sid, UserOf(s, c), at);
    hide Meeting.AfterLeave, Meeting.Closed;
  }

  lemma LeaveRows(s: State, sid: int, c: Conn, m: Envelope, at: int)
    ensures RowsLeft(s, Left(s, sid, c, m, at), sid, UserOf(s, c), at)
  {
    hide Hub.AfterBroadcast, Meeting.AfterLeave, Meeting.Closed, FieldOr, ParticipantOf, Hub.Without;
    var s1 := s.(hub := s.hub.(meta := Hub.Without(s.hub.meta, sid, c)));
    LeftRows(s1, sid, c, at);
    hide MeetingLeft;
  }

  lemma EndedRows(s: State, sid: int, c: Conn, at: int)
    ensures MeetingEnded(s, sid, c, at).meeting.rows == MeetingClosed(s, sid, at).meeting.rows == s.meeting.rows
  {
    hide Hub.AfterBroadcast, Meeting.CheckRole;
  }

  lemma ChattedRows(s: State, sid: int, m: Envelope)
    ensures Chatted(s, sid, m).meeting == s.meeting
  {
    hide Hub.AfterBroadcast, ChatStored, ChatPayload;
  }

  lemma DispatchedRows(s: State, sid: int, c: Conn, m: Envelope, at: int, roster: seq<Hub.JoinMeta>)
    ensures var t := Dispatched(s, sid, c, m, at, roster);
      if m.typ == "join" then RowsJoined(s, t, sid, UserOf(s, c), m, at)
      else if m.typ == "leave" then RowsLeft(s, t, sid, UserOf(s, c), at)
      else t.meeting.rows == s.meeting.rows
  {
    hide Hub.AfterBroadcast, Joined, Left, MeetingEnded, Chatted, RowsJoined, RowsLeft;
    JoinedRows(s, sid, c, m, at, roster);
    LeaveRows(s, sid, c, m, at);
    EndedRows(s, sid, c, at);
    ChattedRows(s, sid, m);
  }

  /** What a step does to the participant rows. */
  lemma RowsExactly(s: System, a: Action)
    requires Enabled(s, a)
    ensures RowsChanged(s.server, Step(s, a).server, a)
  {
    if a.Receive? {
      var s0 := Noted(s.server, a.c, a.m);
      assert s0.meeting == s.server.meeting && s0.auth == s.server.auth;
      DispatchedRows(s0, s.server.loops[a.c].sid, a.c, a.m, a.at, a.roster);
    } else if a.FeedReceive? && a.m.WSMessage? {
      DispatchedRows(s.server, a.m.sid, a.c, a.m, a.at, a.roster);
    } else if a.Disconnect? {
      FarewellRows(s.server.(roles := Hub.Without(s.server.roles, s.server.loops[a.c].sid, a.c)), a.c, a.at);
    }
    hide Dispatched, Farewell, Noted, Client.Reduced, RosterFits, Hub.Removed, Fresh, Meeting.Closed, Meeting.Present;
  }

  lemma FarewellRows(s: State, c: Conn, at: int)
    requires c in s.loops
    ensures var l, t := s.loops[c], Farewell(s, c, at);
      if l.pid == "" then t.meeting.rows == s.meeting.rows else RowsLeft(s, t, l.sid, UserOf(s, c), at)
  {
    hide Hub.AfterBroadcast, CoHostRemains, Meeting.Closed, Meeting.CloseRows;
    var l := s.loops[c];
    var s2 := Broadcasted(Broadcasted(s, l.sid, LeaveNotice(l)), l.sid, Announcement("user_left", l.pid, l.name));
    assert s2.meeting == s.meeting && s2.auth == s.auth;
    LeftRows(s2, l.sid, c, at);
  }

  // ---------- what a socket loop tracks ----------

  /** The id a socket has last named, unless it has left since. */
  function LastId(ms: seq<Envelope>): string {
    if ms == [] then "" else
      var m := ms[|ms| - 1];
      if m.typ == "leave" then "" else if ParticipantOf(m) != "" then ParticipantOf(m) else LastId(ms[..|ms| - 1])
  }

  /** The role given by the last join that gave one. */
  function LastRole(ms: seq<Envelope>): string {
    if ms == [] then "" else
      var m := ms[|ms| - 1];
      if m.typ == "join" && TextField(m.payload, "role").Some? then TextField(m.payload, "role").value else LastRole(ms[..|ms| - 1])
  }

  /** The name given by the last join that gave one, unless the socket has left since. */
  function LastName(ms: seq<Envelope>): string {
    if ms == [] then "" else
      var m := ms[|ms| - 1];
      if m.typ == "leave" then ""
      else if m.typ == "join" && TextField(m.payload, "name").Some? then TextField(m.payload, "name").value
      else LastName(ms[..|ms| - 1])
  }

  /** What a socket has sent since it was opened, in a run of the room. */
  function SentBy(acts: seq<Action>, c: Conn): seq<Envelope> {
    if acts == [] then [] else
      var a := acts[|acts| - 1];
      if a.Connect? && a.c == c then []
      else if a.Receive? && a.c == c then SentBy(acts[..|acts| - 1], c) + [a.m]
      else SentBy(acts[..|acts| - 1], c)
  }

  /** A socket loop's variables are what the messages last said. */
  predicate Told(l: Loop, ms: seq<Envelope>) {
    l.pid == LastId(ms) && l.name == LastName(ms) && l.role == LastRole(ms)
  }

  lemma ToldSnoc(l: Loop, ms: seq<Envelope>, m: Envelope)
    requires Told(l, ms)
    ensures Told(Tracked(l, m), ms + [m])
  {
    assert (ms + [m])[..|ms|] == ms;
  }

  /** In every reachable state each open socket is tracked under what it has itself last said it is, and nothing else. */
  lemma {:induction false} TrackedExactly(status: map<int, Status>, acts: seq<Action>, c: Conn)
    requires Run(Start(status), acts).Some? && c in Run(Start(status), acts).value.server.loops
    ensures Told(Run(Start(status), acts).value.server.loops[c], SentBy(acts, c))
  {
    if acts != [] {
      var before, a := acts[..|acts| - 1], acts[|acts| - 1];
      var s := Run(Start(status), before).value;
      assert Enabled(s, a) && Run(Start(status), acts).value == Step(s, a);
      var ms := SentBy(before, c);
      assert SentBy(acts, c) == if a.Connect? && a.c == c then [] else if a.Receive? && a.c == c then ms + [a.m] else ms;
      assert a.Connect? ==> Told(Loop(a.sid, "", "", ""), []);
      assert acts != [] ==> before == acts[..|acts| - 1];
      hide *;
      LoopStep(s, a, c);
      if !(a.Connect? && a.c == c) {
        TrackedExactly(status, before, c);
        if a.Receive? && a.c == c { ToldSnoc(s.server.loops[c], ms, a.m); }
      }
    }
  }

  /** The user a socket was opened by, if anybody known. */
  function Opener(acts: seq<Action>, c: Conn): int {
    if acts == [] then 0 else
      var a := acts[|acts| - 1];
      if a.Connect? && a.c == c then if a.user > 0 then a.user else 0 else Opener(acts[..|acts| - 1], c)
  }

  /** In every reachable state each open socket acts for the user it was opened by. */
  lemma {:induction false} OpenerExactly(status: map<int, Status>, acts: seq<Action>, c: Conn)
    requires Run(Start(status), acts).Some? && c in Run(Start(status), acts).value.server.loops
    ensures UserOf(Run(Start(status), acts).value.server, c) == Opener(acts, c)
  {
    if acts != [] {
      var before, a := acts[..|acts| - 1], acts[|acts| - 1];
      var s := Run(Start(status), before).value;
      assert Enabled(s, a) && Run(Start(status), acts).value == Step(s, a);
      assert Opener(acts, c) == if a.Connect? && a.c == c then if a.user > 0 then a.user else 0 else Opener(before, c);
      Bookkeeping.BookAlways(status, before);
      assert c in s.server.auth ==> c in s.server.loops;
      assert a.Connect? ==> a.c !in s.server.loops;
      hide *;
      LoopStep(s, a, c);
      if !(a.Connect? && a.c == c) { OpenerExactly(status, before, c); }
    }
  }

  lemma LoopStep(s: System, a: Action, c: Conn)
    requires Enabled(s, a) && c in Step(s, a).server.loops
    ensures var loops, after := s.server.loops, Step(s, a).server.loops;
      if a.Connect? && a.c == c then after[c] == Loop(a.sid, "", "", "")
      else c in loops && after[c] == if a.Receive? && a.c == c then Tracked(loops[c], a.m) else loops[c]
    ensures UserOf(Step(s, a).server, c) == if a.Connect? && a.c == c && a.user > 0 then a.user else UserOf(s.server, c)
  {
    hide Dispatched, Farewell, Tracked, Client.Reduced, RosterFits, Hub.With;
    if a.Receive? {
      DispatchTouches(Noted(s.server, a.c, a.m), s.server.loops[a.c].sid, a.c, a.m, a.at, a.roster);
    } else if a.FeedReceive? && a.m.sid > 0 {
      DispatchTouches(s.server, a.m.sid, a.c, a.m, a.at, a.roster);
    } else if a.Disconnect? {
      FarewellTouches(s.server.(roles := Hub.Without(s.server.roles, s.server.loops[a.c].sid, a.c)), a.c, a.at);
    }
  }
}
