// Whole runs of the room seen from the meeting tables: status, participant rows, announcements, chat.
module MeetingLife {
  import opened Outcomes
  import opened Wire
  import opened Tally
  import Hub
  import Client
  import Meeting
  import Chat
  import opened Server
  import opened Room

  /** The status changes that the server itself has announced to a session, in order. */
  function Announced(casts: seq<Hub.Cast>, sid: int): seq<Meeting.Status> {
    if casts == [] then []
    else Announced(casts[..|casts| - 1], sid) + Announces(casts[|casts| - 1], sid)
  }

  function Announces(cast: Hub.Cast, sid: int): seq<Meeting.Status> {
    if cast.sid != sid || !cast.message.WSEvent? then []
    else if cast.message.typ == "host_started" then [Meeting.Active]
    else if cast.message.typ == "meeting_ended" then [Meeting.Ended]
    else []
  }

  function ChatCast(sid: int, cid: string): Hub.Cast -> bool {
    (k: Hub.Cast) => k.sid == sid && k.message.WSMessage? && k.message.typ == "chat_message"
                     && TextField(k.message.payload, "client_id") == Some(cid)
  }

  /** Announcements are the recorded status changes; relayed chat lines are the stored ones. */
  ghost predicate Voiced(s: State) {
    forall sid :: Announced(s.hub.casts, sid) == Meeting.Changes(s.meeting.events, sid)
  }

  ghost predicate ChatVoiced(s: State) {
    && Chat.Sound(s.chat)
    && forall sid, cid :: cid != "" ==> CountIf(s.hub.casts, ChatCast(sid, cid)) == CountIf(s.chat.rows, Chat.SentAs(sid, cid))
  }

  /** How the server's records at a later moment relate to those at an earlier one. */
  ghost predicate Keeps(s: State, t: State) {
    && Meeting.Evolves(s.meeting, t.meeting)
    && (Voiced(s) ==> Voiced(t))
    && (ChatVoiced(s) ==> ChatVoiced(t))
  }

  lemma KeepsTrans(s: State, t: State, u: State)
    requires Keeps(s, t) && Keeps(t, u)
    ensures Keeps(s, u)
  {
    hide Meeting.Evolves, Voiced, ChatVoiced;
    Meeting.EvolvesTrans(s.meeting, t.meeting, u.meeting);
  }

  lemma SilentKeeps(s: State, t: State)
    requires t.meeting == s.meeting && t.chat == s.chat && t.hub.casts == s.hub.casts
    ensures Keeps(s, t)
  {
    hide Meeting.Evolves;
    Meeting.EvolvesRefl(s.meeting);
  }

  /** A broadcast that is neither an announcement nor a chat line. */
  lemma CastKeeps(s: State, sid: int, m: Envelope)
    requires m.WSMessage? ==> m.typ != "chat_message"
    requires m.WSEvent? ==> m.typ != "host_started" && m.typ != "meeting_ended"
    ensures Keeps(s, Broadcasted(s, sid, m))
  {
    hide Meeting.Evolves, Hub.Appended, Meeting.Changes, Chat.Sound, TextField;
    Meeting.EvolvesRefl(s.meeting);
    var t := Broadcasted(s, sid, m);
    assert t.hub.casts == s.hub.casts + [Hub.Cast(sid, m)];
    assert t.hub.casts[..|s.hub.casts|] == s.hub.casts;
    forall k ensures Announced(t.hub.casts, k) == Announced(s.hub.casts, k) {
    }
    forall k, cid ensures CountIf(t.hub.casts, ChatCast(k, cid)) == CountIf(s.hub.casts, ChatCast(k, cid)) {
      CountSnoc(s.hub.casts, Hub.Cast(sid, m), ChatCast(k, cid));
    }
  }

  /** A status change together with its announcement. */
  lemma AnnounceKeeps(s: State, meeting: Meeting.Tables, sid: int, from: Meeting.Status, to: Meeting.Status, at: int, typ: string)
    requires Meeting.Evolves(s.meeting, meeting)
    requires meeting.events == s.meeting.events + [Meeting.StatusChanged(sid, from, to, at)]
    requires (to == Meeting.Active && typ == "host_started") || (to == Meeting.Ended && typ == "meeting_ended")
    ensures Keeps(s, Broadcasted(s.(meeting := meeting), sid, Event(typ)))
  {
    hide Meeting.Evolves, Hub.Appended, Chat.Sound, TextField;
    var t := Broadcasted(s.(meeting := meeting), sid, Event(typ));
    assert t.hub.casts == s.hub.casts + [Hub.Cast(sid, Event(typ))];
    assert t.hub.casts[..|s.hub.casts|] == s.hub.casts;
    assert meeting.events[..|s.meeting.events|] == s.meeting.events;
    forall k ensures Announced(t.hub.casts, k) == Announced(s.hub.casts, k) + if k == sid then [to] else [] {
    }
    forall k ensures Meeting.Changes(meeting.events, k) == Meeting.Changes(s.meeting.events, k) + if k == sid then [to] else [] {
    }
    forall k, cid ensures CountIf(t.hub.casts, ChatCast(k, cid)) == CountIf(s.hub.casts, ChatCast(k, cid)) {
      CountSnoc(s.hub.casts, Hub.Cast(sid, Event(typ)), ChatCast(k, cid));
    }
  }

  /** An operation on the meeting tables that changes no status. */
  lemma RecordKeeps(s: State, meeting: Meeting.Tables)
    requires Meeting.Evolves(s.meeting, meeting)
    requires meeting.events == s.meeting.events || (|meeting.events| == |s.meeting.events| + 1
      && s.meeting.events == meeting.events[..|s.meeting.events|] && !meeting.events[|s.meeting.events|].StatusChanged?)
    ensures Keeps(s, s.(meeting := meeting))
  {
    hide Meeting.Evolves, Chat.Sound;
  }

  lemma MeetingJoinedKeeps(s: State, sid: int, c: Conn, name: string, role: Meeting.Role, at: int)
    ensures Keeps(s, MeetingJoined(s, sid, c, name, role, at))
  {
    var user := UserOf(s, c);
    var joined := Meeting.AfterJoin(s.meeting, sid, user, DisplayName(name), role, at);
    Meeting.JoinEvolves(s.meeting, sid, user, DisplayName(name), role, at);
    SilentKeeps(s, s);
    if joined.Ok? {
      var s1 := s.(meeting := joined.result);
      assert joined.result.events[..|s.meeting.events|] == s.meeting.events;
      hide Meeting.Evolves, Meeting.HasActive, Keeps, Hub.AfterBroadcast;
      RecordKeeps(s, joined.result);
      var started := Meeting.AfterStart(s1.meeting, sid, at);
      if started.Ok? {
        Meeting.StartEvolves(s1.meeting, sid, at);
        AnnounceKeeps(s1, started.result, sid, s1.meeting.status[sid], Meeting.Active, at, "host_started");
        KeepsTrans(s, s1, Broadcasted(s1.(meeting := started.result), sid, Event("host_started")));
      }
    }
  }

  lemma MeetingClosedKeeps(s: State, sid: int, at: int)
    ensures Keeps(s, MeetingClosed(s, sid, at))
  {
    hide Meeting.Evolves, Keeps, Hub.AfterBroadcast;
    var ended := Meeting.AfterEnd(s.meeting, sid, at);
    SilentKeeps(s, s);
    if ended.Ok? {
      Meeting.EndEvolves(s.meeting, sid, at);
      AnnounceKeeps(s, ended.result, sid, s.meeting.status[sid], Meeting.Ended, at, "meeting_ended");
    }
  }

  lemma MeetingLeftKeeps(s: State, sid: int, c: Conn, at: int)
    ensures Keeps(s, MeetingLeft(s, sid, c, at))
  {
    hide Meeting.Evolves, Keeps, Meeting.CloseRows, Meeting.HasActive;
    var left := Meeting.AfterLeave(s.meeting, sid, UserOf(s, c), at);
    Meeting.LeaveEvolves(s.meeting, sid, UserOf(s, c), at);
    SilentKeeps(s, s);
    if left.Ok? { assert left.result.events[..|s.meeting.events|] == s.meeting.events; }
    RecordKeeps(s, Meeting.Settle(s.meeting, left));
  }

  lemma RelayVoiced(s: State, sid: int, m: Envelope)
    requires m.WSMessage? && Voiced(s)
    ensures Voiced(Broadcasted(s, sid, m))
  {
    hide Hub.Appended, Meeting.Changes;
    assert (s.hub.casts + [Hub.Cast(sid, m)])[..|s.hub.casts|] == s.hub.casts;
    forall k ensures Announced(s.hub.casts + [Hub.Cast(sid, m)], k) == Announced(s.hub.casts, k) {
    }
  }

  lemma ChattedKeeps(s: State, sid: int, m: Envelope)
    requires m.typ == "chat_message" && m.WSMessage?
    ensures Keeps(s, Chatted(s, sid, m))
  {
    hide Meeting.Evolves, ChatStored, ChatPayload, Hub.AfterBroadcast, Voiced, ChatVoiced;
    Meeting.EvolvesRefl(s.meeting);
    var (chat, res) := ChatStored(s.chat, sid in s.meeting.status, sid, m);
    var s1 := s.(chat := chat);
    if Voiced(s) {
      SameVoiced(s, s1);
      RelayVoiced(s1, sid, m.(payload := ChatPayload(m)));
    }
    if ChatVoiced(s) { ChatLineVoiced(s, sid, m); }
    assert Chatted(s, sid, m).meeting == s.meeting by { CastMeeting(s1, sid, m.(payload := ChatPayload(m))); }
  }

  lemma CastMeeting(s: State, sid: int, m: Envelope)
    ensures Broadcasted(s, sid, m).meeting == s.meeting
  {
  }

  lemma SameVoiced(s: State, t: State)
    requires Voiced(s) && t.hub.casts == s.hub.casts && t.meeting == s.meeting
    ensures Voiced(t)
  {
  }

  /** What the table gains by a chat line, and the client id the relayed line carries. */
  lemma StoredLine(chat: Chat.Table, known: bool, sid: int, m: Envelope)
    requires Chat.Sound(chat)
    ensures var (after, res) := ChatStored(chat, known, sid, m);
      var id := TextField(ChatPayload(m), "client_id");
      && Chat.Sound(after) && id != Some("")
      && (res.Inserted? ==> |after.rows| == |chat.rows| + 1 && after.rows[..|chat.rows|] == chat.rows
                            && after.rows[|chat.rows|].sid == sid && after.rows[|chat.rows|].client == id)
      && (!res.Inserted? ==> after.rows == chat.rows)
  {
    var text, cid := Trim(FieldOr(m.payload, "text", "")), Trim(FieldOr(m.payload, "client_id", ""));
    Chat.AppendKeepsSound(chat, known, sid, Trim(ParticipantOf(m)), cid, Trim(FieldOr(m.payload, "name", "")), text);
    TrimTwice(FieldOr(m.payload, "client_id", ""));
    hide Chat.Sound, Trim;
  }

  lemma LineCounted(casts: seq<Hub.Cast>, rows: seq<Chat.Message>, line: Hub.Cast, row: Chat.Message, k: int, id: string)
    requires row.sid == line.sid && row.client == TextField(line.message.payload, "client_id")
    requires line.message.WSMessage? && line.message.typ == "chat_message"
    requires CountIf(casts, ChatCast(k, id)) == CountIf(rows, Chat.SentAs(k, id))
    ensures CountIf(casts + [line], ChatCast(k, id)) == CountIf(rows + [row], Chat.SentAs(k, id))
  {
    hide TextField;
    CountSnoc(casts, line, ChatCast(k, id));
    CountSnoc(rows, row, Chat.SentAs(k, id));
    hide CountIf;
  }

  /** A stored line is relayed under the client id it is stored with. */
  lemma ChatLineVoiced(s: State, sid: int, m: Envelope)
    requires m.typ == "chat_message" && m.WSMessage? && ChatVoiced(s)
    ensures ChatVoiced(Chatted(s, sid, m))
  {
    var known, n := sid in s.meeting.status, |s.chat.rows|;
    StoredLine(s.chat, known, sid, m);
    hide Chat.Sound, ChatStored, ChatPayload, Hub.Appended, TextField, CountIf, ChatCast, Chat.SentAs;
    var (chat, res) := ChatStored(s.chat, known, sid, m);
    var line := Hub.Cast(sid, m.(payload := ChatPayload(m)));
    if res.Inserted? {
      assert chat.rows == s.chat.rows + [chat.rows[n]];
      forall k, id | id != ""
        ensures CountIf(s.hub.casts + [line], ChatCast(k, id)) == CountIf(chat.rows, Chat.SentAs(k, id))
      {
        LineCounted(s.hub.casts, s.chat.rows, line, chat.rows[n], k, id);
      }
    }
  }

  lemma JoinedKeeps(s: State, sid: int, c: Conn, m: Envelope, at: int, roster: seq<Hub.JoinMeta>)
    requires m.typ == "join"
    ensures Keeps(s, Joined(s, sid, c, m, at, roster))
  {
    hide Keeps, Hub.AfterBroadcast, MetaAfterJoin, Trim, FieldOr, MeetingRole, MeetingJoined, Snapshot;
    var name := FieldOr(m.payload, "name", "");
    var s1 := s.(hub := s.hub.(meta := MetaAfterJoin(s.hub, sid, c, m)));
    var s2 := Broadcasted(s1, sid, m);
    var s3 := JoinAnnounced(s, sid, c, m);
    var s4 := MeetingJoined(s3, sid, c, name, MeetingRole(FieldOr(m.payload, "role", "")), at);
    SilentKeeps(s, s1);
    CastKeeps(s1, sid, m);
    CastKeeps(s2, sid, Announcement("user_joined", ParticipantOf(m), name));
    MeetingJoinedKeeps(s3, sid, c, name, MeetingRole(FieldOr(m.payload, "role", "")), at);
    SilentKeeps(s4, Joined(s, sid, c, m, at, roster));
    KeepsTrans(s, s1, s2);
    KeepsTrans(s, s2, s3);
    KeepsTrans(s, s3, s4);
    KeepsTrans(s, s4, Joined(s, sid, c, m, at, roster));
  }

  lemma LeftKeeps(s: State, sid: int, c: Conn, m: Envelope, at: int)
    requires m.typ == "leave"
    ensures Keeps(s, Left(s, sid, c, m, at))
  {
    hide Keeps, Hub.AfterBroadcast, Hub.Without, FieldOr, MeetingLeft;
    var s1 := s.(hub := s.hub.(meta := Hub.Without(s.hub.meta, sid, c)));
    var s2 := MeetingLeft(s1, sid, c, at);
    var s3 := Broadcasted(s2, sid, m);
    SilentKeeps(s, s1);
    MeetingLeftKeeps(s1, sid, c, at);
    CastKeeps(s2, sid, m);
    CastKeeps(s3, sid, Announcement("user_left", ParticipantOf(m), FieldOr(m.payload, "name", "")));
    KeepsTrans(s, s1, s2);
    KeepsTrans(s, s2, s3);
    KeepsTrans(s, s3, Left(s, sid, c, m, at));
  }

  lemma DispatchedKeeps(s: State, sid: int, c: Conn, m: Envelope, at: int, roster: seq<Hub.JoinMeta>)
    requires m.WSMessage?
    ensures Keeps(s, Dispatched(s, sid, c, m, at, roster))
  {
    hide Keeps, Joined, Left, MeetingClosed, Chatted, Broadcasted, Meeting.CheckRole;
    if m.typ == "join" { JoinedKeeps(s, sid, c, m, at, roster); }
    else if m.typ == "leave" { LeftKeeps(s, sid, c, m, at); }
    else if m.typ == "end_meeting" { MeetingClosedKeeps(s, sid, at); SilentKeeps(s, s); }
    else if m.typ == "chat_message" { ChattedKeeps(s, sid, m); }
    else { CastKeeps(s, sid, m); }
  }

  lemma FarewellKeeps(s: State, c: Conn, at: int)
    requires c in s.loops
    ensures Keeps(s, Farewell(s, c, at))
  {
    hide Keeps, Hub.AfterBroadcast, MeetingLeft, MeetingClosed, CoHostRemains;
    var l := s.loops[c];
    SilentKeeps(s, s);
    if l.pid != "" {
      var s1 := Broadcasted(s, l.sid, LeaveNotice(l));
      var s2 := Broadcasted(s1, l.sid, Announcement("user_left", l.pid, l.name));
      var s3 := MeetingLeft(s2, l.sid, c, at);
      CastKeeps(s, l.sid, LeaveNotice(l));
      CastKeeps(s1, l.sid, Announcement("user_left", l.pid, l.name));
      MeetingLeftKeeps(s2, l.sid, c, at);
      MeetingClosedKeeps(s3, l.sid, at);
      KeepsTrans(s, s1, s2);
      KeepsTrans(s, s2, s3);
      KeepsTrans(s, s3, MeetingClosed(s3, l.sid, at));
    }
  }

  lemma StepKeeps(s: System, a: Action)
    requires Enabled(s, a)
    ensures Keeps(s.server, Step(s, a).server)
  {
    hide Keeps, Dispatched, Farewell, Client.Reduced, Hub.With, Hub.Without, RosterFits, Tracked;
    var t := Step(s, a).server;
    if a.Receive? || (a.FeedReceive? && a.m.sid > 0) {
      var s0 := if a.Receive? then Noted(s.server, a.c, a.m) else s.server;
      var sid := if a.Receive? then s.server.loops[a.c].sid else a.m.sid;
      SilentKeeps(s.server, s0);
      DispatchedKeeps(s0, sid, a.c, a.m, a.at, a.roster);
      KeepsTrans(s.server, s0, t);
    } else if a.Disconnect? {
      var s0 := s.server.(roles := Hub.Without(s.server.roles, s.server.loops[a.c].sid, a.c));
      SilentKeeps(s.server, s0);
      FarewellKeeps(s0, a.c, a.at);
      SilentKeeps(Farewell(s0, a.c, a.at), t);
      KeepsTrans(s.server, s0, Farewell(s0, a.c, a.at));
      KeepsTrans(s.server, Farewell(s0, a.c, a.at), t);
    } else {
      SilentKeeps(s.server, t);
    }
  }

  /** From any state on, whatever anybody sends. */
  lemma {:induction false} RunKeeps(s: System, acts: seq<Action>)
    requires Run(s, acts).Some?
    ensures Keeps(s.server, Run(s, acts).value.server)
  {
    hide Keeps, Step, Enabled;
    if acts == [] {
      SilentKeeps(s.server, s.server);
    } else {
      var n := |acts| - 1;
      RunKeeps(s, acts[..n]);
      StepKeeps(Run(s, acts[..n]).value, acts[n]);
      KeepsTrans(s.server, Run(s, acts[..n]).value.server, Run(s, acts).value.server);
    }
  }

  // ---------- what this means ----------

  /** A status that replays is either the first one, or reached by starting and then ending at most once each. */
  lemma {:induction false} ReplayShape(start: Meeting.Status, events: seq<Meeting.Event>, sid: int)
    requires Meeting.Replay(start, events, sid).Some?
    ensures var now := Meeting.Replay(start, events, sid).value;
      var path := Meeting.Changes(events, sid);
      || (path == [] && now == start)
      || (path == [Meeting.Active] && now == Meeting.Active && start in {Meeting.Created, Meeting.Paused})
      || (path == [Meeting.Ended] && now == Meeting.Ended && start in {Meeting.Created, Meeting.Active, Meeting.Paused})
      || (path == [Meeting.Active, Meeting.Ended] && now == Meeting.Ended && start in {Meeting.Created, Meeting.Paused})
  {
    if events != [] { ReplayShape(start, events[..|events| - 1], sid); }
  }

  /** Status over a run: it replays from the audit log, is never left once final, and is announced exactly as it changes. */
  lemma MeetingLifeOnce(status: map<int, Meeting.Status>, acts: seq<Action>, sid: int)
    requires Run(Start(status), acts).Some? && sid in status
    ensures var t := Run(Start(status), acts).value.server;
      && sid in t.meeting.status
      && Meeting.Replay(status[sid], t.meeting.events, sid) == Some(t.meeting.status[sid])
      && Announced(t.hub.casts, sid) == Meeting.Changes(t.meeting.events, sid)
      && Announced(t.hub.casts, sid) in {[], [Meeting.Active], [Meeting.Ended], [Meeting.Active, Meeting.Ended]}
      && (status[sid] !in {Meeting.Created, Meeting.Active, Meeting.Paused} ==>
            t.meeting.status[sid] == status[sid] && Announced(t.hub.casts, sid) == [])
  {
    RunKeeps(Start(status), acts);
    var t := Run(Start(status), acts).value.server;
    hide Run;
    assert Voiced(Start(status).server);
    assert t.meeting.events[0..] == t.meeting.events;
    ReplayShape(status[sid], t.meeting.events, sid);
  }

  /** A final status stays, from whatever state a run sets out, and nothing is announced any more. */
  lemma FinalStays(s: System, acts: seq<Action>, sid: int)
    requires Run(s, acts).Some? && sid in s.server.meeting.status
    requires s.server.meeting.status[sid] !in {Meeting.Created, Meeting.Active, Meeting.Paused}
    ensures var t := Run(s, acts).value.server;
      && sid in t.meeting.status && t.meeting.status[sid] == s.server.meeting.status[sid]
      && (Voiced(s.server) ==> Announced(t.hub.casts, sid) == Announced(s.server.hub.casts, sid))
  {
    RunKeeps(s, acts);
    var m, t := s.server.meeting, Run(s, acts).value.server;
    hide Run;
    var later := t.meeting.events[|m.events|..];
    ReplayShape(m.status[sid], later, sid);
    Meeting.ChangesConcat(m.events, later, sid);
    assert t.meeting.events == m.events + later;
  }

  /** Participant rows over a run: at most one active, closed ones exactly those with a leaving time, and every row accounted for. */
  lemma RowsAccounted(status: map<int, Meeting.Status>, acts: seq<Action>, sid: int, user: int)
    requires Run(Start(status), acts).Some?
    ensures var m := Run(Start(status), acts).value.server.meeting;
      && (forall r :: r in m.rows ==> (r.leftAt.Some? <==> !r.active))
      && CountIf(m.rows, Meeting.ActiveRowOf(sid, user)) <= 1
      && CountIf(m.rows, Meeting.RowOf(sid, user)) - CountIf(m.events, Meeting.LeftEventOf(sid, user))
         == if Meeting.HasActive(m.rows, sid, user) then 1 else 0
  {
    RunKeeps(Start(status), acts);
    var m, m0 := Run(Start(status), acts).value.server.meeting, Start(status).server.meeting;
    hide Run;
    assert Meeting.Sound(m0);
    assert Meeting.Balance(m0, sid, user) == 0;
  }

  /** Each client id of a session is stored and relayed at most once, and relayed exactly when stored. */
  lemma ChatOnce(status: map<int, Meeting.Status>, acts: seq<Action>, sid: int, cid: string)
    requires Run(Start(status), acts).Some? && cid != ""
    ensures var t := Run(Start(status), acts).value.server;
      CountIf(t.hub.casts, ChatCast(sid, cid)) == CountIf(t.chat.rows, Chat.SentAs(sid, cid)) <= 1
  {
    RunKeeps(Start(status), acts);
    hide Run;
    assert Chat.Sound(Start(status).server.chat);
    assert ChatVoiced(Start(status).server);
  }
}
