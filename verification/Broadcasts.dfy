// What each step of the room says to a session, and exactly what every socket is sent by it.
module Broadcasts {
  import opened Outcomes
  import opened Wire
  import Hub
  import Client
  import Meeting
  import opened Server
  import opened Room
  import opened Bookkeeping

  type Status = Meeting.Status

  // ---------- what a step says ----------

  /** The announcement of a status change, if there was one. */
  function Notice(before: map<int, Status>, after: map<int, Status>, sid: int): seq<Envelope> {
    if sid !in before || sid !in after || after[sid] == before[sid] then []
    else [WSEvent(if after[sid] == Meeting.Active then "host_started" else "meeting_ended", Record(map[], None))]
  }

  function Named(typ: string, pid: string, name: string): Envelope {
    WSEvent(typ, Record(map["participant_id" := pid, "name" := name], None))
  }

  /** A chat line as it is relayed: trimmed, with the client id only if there is one. */
  function Line(m: Envelope): Envelope
    requires m.WSMessage?
  {
    var text, name, cid := Trim(FieldOr(m.payload, "text", "")), Trim(FieldOr(m.payload, "name", "")), Trim(FieldOr(m.payload, "client_id", ""));
    WSMessage(m.typ, m.sid, m.participant,
      Record(if cid == "" then map["text" := text, "name" := name] else map["text" := text, "name" := name, "client_id" := cid], None))
  }

  /** What is broadcast to a session because of a client message, in order. */
  function Uttered(s: State, t: State, sid: int, m: Envelope): seq<Envelope>
    requires m.WSMessage?
  {
    if m.typ == "join" then
      [m, Named("user_joined", m.participant, FieldOr(m.payload, "name", ""))] + Notice(s.meeting.status, t.meeting.status, sid)
    else if m.typ == "leave" then [m, Named("user_left", m.participant, FieldOr(m.payload, "name", ""))]
    else if m.typ == "end_meeting" then Notice(s.meeting.status, t.meeting.status, sid)
    else if m.typ == "chat_message" then if |t.chat.rows| > |s.chat.rows| then [Line(m)] else []
    else [m]
  }

  /** What is broadcast because a socket goes. */
  function LastWords(s: State, t: State, l: Loop): seq<Envelope> {
    if l.pid == "" then []
    else
      [WSMessage("leave", l.sid, l.pid, Record(map["name" := l.name, "role" := l.role], None)), Named("user_left", l.pid, l.name)]
      + Notice(s.meeting.status, t.meeting.status, l.sid)
  }

  // ---------- what a socket gets of it ----------

  function To(sid: int, ms: seq<Envelope>): seq<Hub.Cast> {
    seq(|ms|, i requires 0 <= i < |ms| => Hub.Cast(sid, ms[i]))
  }

  predicate Media(m: Envelope) { m.WSMessage? && (m.typ == "audio" || m.typ == "frame") }

  /** Members get every message, analysis subscribers the media of clients under the session's own id; nobody anything without a lock. */
  function Heard(h: Hub.Tables, sid: int, m: Envelope, d: Conn): seq<Envelope> {
    (if d in Get(h.sessions, sid, {}) && d in h.locks then [m] else [])
    + (if Media(m) && d in h.analysis && d in h.locks then [WSMessage(m.typ, sid, m.participant, m.payload)] else [])
  }

  function Got(h: Hub.Tables, sid: int, ms: seq<Envelope>, d: Conn): seq<Envelope> {
    if ms == [] then [] else Got(h, sid, ms[..|ms| - 1], d) + Heard(h, sid, ms[|ms| - 1], d)
  }

  function Own(h: Hub.Tables, c: Conn, own: seq<Envelope>, d: Conn): seq<Envelope> {
    if d == c && d in h.locks then own else []
  }

  ghost predicate Reached(h: Hub.Tables, k: Hub.Tables, sid: int, ms: seq<Envelope>, c: Conn, own: seq<Envelope>, d: Conn) {
    Hub.Unread(k, d) == Hub.Unread(h, d) + Got(h, sid, ms, d) + Own(h, c, own, d)
  }

  /** Between the two tables exactly these messages were broadcast to the session, and then `own` was written to `c`. */
  ghost predicate Spoke(h: Hub.Tables, k: Hub.Tables, sid: int, ms: seq<Envelope>, c: Conn, own: seq<Envelope>) {
    && k.sessions == h.sessions && k.locks == h.locks && k.analysis == h.analysis
    && k.casts == h.casts + To(sid, ms)
    && forall d :: Reached(h, k, sid, ms, c, own, d)
  }

  lemma {:induction false} GotConcat(h: Hub.Tables, sid: int, a: seq<Envelope>, b: seq<Envelope>, d: Conn)
    ensures Got(h, sid, a + b, d) == Got(h, sid, a, d) + Got(h, sid, b, d)
  {
    hide Heard;
    if b == [] {
      assert a + b == a;
      assert Got(h, sid, b, d) == [];
    } else {
      GotConcat(h, sid, a, b[..|b| - 1], d);
      assert (a + b)[..|a + b| - 1] == a + b[..|b| - 1];
    }
  }

  lemma {:induction false} GotSame(h: Hub.Tables, k: Hub.Tables, sid: int, ms: seq<Envelope>, d: Conn)
    requires k.sessions == h.sessions && k.locks == h.locks && k.analysis == h.analysis
    ensures Got(k, sid, ms, d) == Got(h, sid, ms, d)
  {
    if ms != [] { GotSame(h, k, sid, ms[..|ms| - 1], d); }
  }

  lemma ReachedTrans(h: Hub.Tables, k: Hub.Tables, l: Hub.Tables, sid: int, a: seq<Envelope>, b: seq<Envelope>, c: Conn, own: seq<Envelope>, d: Conn)
    requires k.sessions == h.sessions && k.locks == h.locks && k.analysis == h.analysis
    requires Reached(h, k, sid, a, c, [], d) && Reached(k, l, sid, b, c, own, d)
    ensures Reached(h, l, sid, a + b, c, own, d)
  {
    GotConcat(h, sid, a, b, d);
    GotSame(h, k, sid, b, d);
    hide Got, Hub.Unread;
  }

  lemma SpokeTrans(h: Hub.Tables, k: Hub.Tables, l: Hub.Tables, sid: int, a: seq<Envelope>, b: seq<Envelope>, c: Conn, own: seq<Envelope>)
    requires Spoke(h, k, sid, a, c, []) && Spoke(k, l, sid, b, c, own)
    ensures Spoke(h, l, sid, a + b, c, own)
  {
    assert To(sid, a + b) == To(sid, a) + To(sid, b);
    hide Reached, To;
    forall d ensures Reached(h, l, sid, a + b, c, own, d) {
      ReachedTrans(h, k, l, sid, a, b, c, own, d);
    }
  }

  lemma Silent(h: Hub.Tables, k: Hub.Tables, sid: int, c: Conn)
    requires k.sessions == h.sessions && k.locks == h.locks && k.analysis == h.analysis && k.casts == h.casts && k.wire == h.wire
    ensures Spoke(h, k, sid, [], c, [])
  {
    assert To(sid, []) == [];
    forall d ensures Reached(h, k, sid, [], c, [], d) {
      assert Got(h, sid, [], d) == [] && Own(h, c, [], d) == [];
    }
  }

  lemma CastSpeaks(h: Hub.Tables, sid: int, m: Envelope, c: Conn)
    ensures Spoke(h, Hub.AfterBroadcast(h, sid, m), sid, [m], c, [])
  {
    assert To(sid, [m]) == [Hub.Cast(sid, m)];
    var k := Hub.AfterBroadcast(h, sid, m);
    assert k.sessions == h.sessions && k.locks == h.locks && k.analysis == h.analysis && k.casts == h.casts + [Hub.Cast(sid, m)];
    hide Hub.AfterBroadcast;
    forall d ensures Reached(h, k, sid, [m], c, [], d) {
      Hub.DeliveredExactly(h, sid, m, d);
      assert [m][..0] == [] && Got(h, sid, [], d) == [] && Own(h, c, [], d) == [];
      assert Got(h, sid, [m], d) == [] + Heard(h, sid, m, d);
    }
  }

  lemma SentSpeaks(h: Hub.Tables, sid: int, c: Conn, m: Envelope)
    ensures Spoke(h, Hub.Sent(h, c, m), sid, [], c, [m])
  {
    assert To(sid, []) == [];
    forall d ensures Reached(h, Hub.Sent(h, c, m), sid, [], c, [m], d) {
      Hub.SentExactly(h, c, m, d);
      assert Got(h, sid, [], d) == [];
      hide Hub.Sent;
    }
  }

  // ---------- the handlers ----------

  lemma MeetingJoinedSpeaks(s: State, sid: int, c: Conn, name: string, role: Meeting.Role, at: int)
    ensures var t := MeetingJoined(s, sid, c, name, role, at);
      Spoke(s.hub, t.hub, sid, Notice(s.meeting.status, t.meeting.status, sid), c, [])
  {
    hide Spoke, Hub.AfterBroadcast, DisplayName, Meeting.HasActive;
    Silent(s.hub, s.hub, sid, c);
    CastSpeaks(s.hub, sid, Event("host_started"), c);
  }

  lemma MeetingClosedSpeaks(s: State, sid: int, at: int, c: Conn)
    ensures var t := MeetingClosed(s, sid, at);
      Spoke(s.hub, t.hub, sid, Notice(s.meeting.status, t.meeting.status, sid), c, [])
  {
    hide Spoke, Hub.AfterBroadcast;
    Silent(s.hub, s.hub, sid, c);
    CastSpeaks(s.hub, sid, Event("meeting_ended"), c);
  }

  lemma TwoCasts(h: Hub.Tables, sid: int, a: Envelope, b: Envelope, c: Conn)
    ensures Spoke(h, Hub.AfterBroadcast(Hub.AfterBroadcast(h, sid, a), sid, b), sid, [a, b], c, [])
  {
    CastSpeaks(h, sid, a, c);
    CastSpeaks(Hub.AfterBroadcast(h, sid, a), sid, b, c);
    assert [a] + [b] == [a, b];
    hide Spoke, Hub.AfterBroadcast;
    SpokeTrans(h, Hub.AfterBroadcast(h, sid, a), Hub.AfterBroadcast(Hub.AfterBroadcast(h, sid, a), sid, b), sid, [a], [b], c, []);
  }

  /** Replacing the join metadata, which nothing said depends on. */
  lemma MetaSpoke(h: Hub.Tables, h0: Hub.Tables, k: Hub.Tables, sid: int, ms: seq<Envelope>, c: Conn, own: seq<Envelope>)
    requires Spoke(h0, k, sid, ms, c, own) && h0 == h.(meta := h0.meta)
    ensures Spoke(h, k, sid, ms, c, own)
  {
    Silent(h, h0, sid, c);
    assert [] + ms == ms;
    SpokeTrans(h, h0, k, sid, [], ms, c, own);
  }

  lemma JoinedSpeaks(s: State, sid: int, c: Conn, m: Envelope, at: int, roster: seq<Hub.JoinMeta>)
    requires m.WSMessage? && m.typ == "join"
    ensures var t := Joined(s, sid, c, m, at, roster);
      Spoke(s.hub, t.hub, sid, Uttered(s, t, sid, m), c, [Snapshot(roster)])
  {
    hide Spoke, Hub.AfterBroadcast, MetaAfterJoin, MeetingRole, FieldOr, Snapshot, Hub.Sent;
    var name, role := FieldOr(m.payload, "name", ""), MeetingRole(FieldOr(m.payload, "role", ""));
    var h0 := s.hub.(meta := MetaAfterJoin(s.hub, sid, c, m));
    var news := Announcement("user_joined", m.participant, name);
    var s1 := JoinAnnounced(s, sid, c, m);
    TwoCasts(h0, sid, m, news, c);
    MetaSpoke(s.hub, h0, s1.hub, sid, [m, news], c, []);
    assert s1.meeting == s.meeting;
    hide JoinAnnounced;
    var s2 := MeetingJoined(s1, sid, c, name, role, at);
    MeetingJoinedSpeaks(s1, sid, c, name, role, at);
    var notice := Notice(s.meeting.status, s2.meeting.status, sid);
    hide MeetingJoined, Notice;
    SentSpeaks(s2.hub, sid, c, Snapshot(roster));
    assert notice + [] == notice;
    SpokeTrans(s1.hub, s2.hub, Hub.Sent(s2.hub, c, Snapshot(roster)), sid, notice, [], c, [Snapshot(roster)]);
    SpokeTrans(s.hub, s1.hub, Hub.Sent(s2.hub, c, Snapshot(roster)), sid, [m, news], notice, c, [Snapshot(roster)]);
  }

  lemma MeetingLeftHub(s: State, sid: int, c: Conn, at: int)
    ensures MeetingLeft(s, sid, c, at).hub == s.hub && MeetingLeft(s, sid, c, at).roles == s.roles
    ensures MeetingLeft(s, sid, c, at).meeting.status == s.meeting.status
  {
    hide Meeting.HasActive, Meeting.CloseRows;
  }

  lemma LeftSpeaks(s: State, sid: int, c: Conn, m: Envelope, at: int)
    requires m.WSMessage? && m.typ == "leave"
    ensures var t := Left(s, sid, c, m, at);
      Spoke(s.hub, t.hub, sid, Uttered(s, t, sid, m), c, [])
  {
    hide Spoke, Hub.AfterBroadcast, FieldOr, Hub.Without;
    var h0 := s.hub.(meta := Hub.Without(s.hub.meta, sid, c));
    MeetingLeftHub(s.(hub := h0), sid, c, at);
    hide MeetingLeft;
    var news := Announcement("user_left", m.participant, FieldOr(m.payload, "name", ""));
    TwoCasts(h0, sid, m, news, c);
    MetaSpoke(s.hub, h0, Left(s, sid, c, m, at).hub, sid, [m, news], c, []);
  }

  lemma ChattedSpeaks(s: State, sid: int, m: Envelope, c: Conn)
    requires m.WSMessage? && m.typ == "chat_message"
    ensures var t := Chatted(s, sid, m);
      Spoke(s.hub, t.hub, sid, Uttered(s, t, sid, m), c, [])
  {
    hide Spoke, Hub.AfterBroadcast, FieldOr, Trim;
    StoredGrows(s.chat, sid in s.meeting.status, sid, m);
    Silent(s.hub, s.hub, sid, c);
    assert m.(payload := ChatPayload(m)) == Line(m);
    CastSpeaks(s.hub, sid, Line(m), c);
    hide ChatStored, Line, ChatPayload;
  }

  lemma StoredGrows(chat: Chat.Table, known: bool, sid: int, m: Envelope)
    ensures var (after, res) := ChatStored(chat, known, sid, m);
      res.Inserted? <==> |after.rows| > |chat.rows|
  {
    hide FieldOr, Trim;
  }

  lemma EndedSpeaks(s: State, sid: int, c: Conn, at: int)
    ensures var t := MeetingEnded(s, sid, c, at);
      Spoke(s.hub, t.hub, sid, Notice(s.meeting.status, t.meeting.status, sid), c, [])
  {
    hide Spoke, MeetingClosed, Meeting.CheckRole;
    Silent(s.hub, s.hub, sid, c);
    MeetingClosedSpeaks(s, sid, at, c);
  }

  function Reply(m: Envelope, roster: seq<Hub.JoinMeta>): seq<Envelope> {
    if m.typ == "join" then [Snapshot(roster)] else []
  }

  lemma DispatchedSpeaks(s: State, sid: int, c: Conn, m: Envelope, at: int, roster: seq<Hub.JoinMeta>)
    requires m.WSMessage?
    ensures var t := Dispatched(s, sid, c, m, at, roster);
      Spoke(s.hub, t.hub, sid, Uttered(s, t, sid, m), c, Reply(m, roster))
  {
    hide Spoke, Joined, Left, MeetingEnded, Chatted, Hub.AfterBroadcast, Snapshot, Line, Notice;
    if m.typ == "join" { JoinedSpeaks(s, sid, c, m, at, roster); }
    else if m.typ == "leave" { LeftSpeaks(s, sid, c, m, at); }
    else if m.typ == "end_meeting" { EndedSpeaks(s, sid, c, at); }
    else if m.typ == "chat_message" { ChattedSpeaks(s, sid, m, c); }
    else { CastSpeaks(s.hub, sid, m, c); }
  }

  lemma FarewellSpeaks(s: State, c: Conn, at: int)
    requires c in s.loops
    ensures var l, t := s.loops[c], Farewell(s, c, at);
      Spoke(s.hub, t.hub, l.sid, LastWords(s, t, l), c, [])
  {
    hide Spoke, Hub.AfterBroadcast, CoHostRemains, MeetingClosed;
    var l := s.loops[c];
    Silent(s.hub, s.hub, l.sid, c);
    if l.pid != "" {
      var bye, news := LeaveNotice(l), Announcement("user_left", l.pid, l.name);
      var s2 := Broadcasted(Broadcasted(s, l.sid, bye), l.sid, news);
      var s3 := MeetingLeft(s2, l.sid, c, at);
      TwoCasts(s.hub, l.sid, bye, news, c);
      MeetingLeftHub(s2, l.sid, c, at);
      hide MeetingLeft;
      MeetingClosedSpeaks(s3, l.sid, at, c);
      assert [bye, news] + [] == [bye, news];
      var t := MeetingClosed(s3, l.sid, at);
      SpokeTrans(s.hub, s3.hub, t.hub, l.sid, [bye, news], Notice(s.meeting.status, t.meeting.status, l.sid), c, []);
    }
  }

  // ---------- steps ----------

  /** What a step broadcasts to the session it is about, in order. */
  function Said(s: State, t: State, a: Action): seq<Envelope> {
    if a.Receive? && a.c in s.loops && a.m.WSMessage? then Uttered(s, t, s.loops[a.c].sid, a.m)
    else if a.FeedReceive? && a.m.WSMessage? && a.m.sid > 0 then Uttered(s, t, a.m.sid, a.m)
    else if a.Disconnect? && a.c in s.loops then LastWords(s, t, s.loops[a.c])
    else []
  }

  function Place(s: State, a: Action): int {
    if (a.Receive? || a.Disconnect?) && a.c in s.loops then s.loops[a.c].sid
    else if a.FeedReceive? && a.m.WSMessage? then a.m.sid
    else 0
  }

  /** What a step writes to the socket it is taken on, besides: the roster, to whoever joins. */
  function Answered(a: Action): seq<Envelope> {
    if a.Receive? then Reply(a.m, a.roster)
    else if a.FeedReceive? && a.m.WSMessage? && a.m.sid > 0 then Reply(a.m, a.roster)
    else []
  }

  /** What a socket still has to read of what it had: all, less what is read, and nothing once it has gone. */
  function Remaining(h: Hub.Tables, a: Action, d: Conn): seq<Envelope> {
    var unread := Hub.Unread(h, d);
    if a.Deliver? && a.c == d && unread != [] then unread[1..]
    else if (a.Disconnect? || a.DetachLock?) && a.c == d then []
    else unread
  }

  lemma MessageSpeaks(s: System, a: Action)
    requires Enabled(s, a) && (a.Receive? || (a.FeedReceive? && a.m.sid > 0))
    ensures var t := Step(s, a).server;
      Spoke(s.server.hub, t.hub, Place(s.server, a), Said(s.server, t, a), a.c, Answered(a))
  {
    hide Spoke, Dispatched, Noted, RosterFits, Reply;
    var s0 := s.server;
    if a.Receive? { s0 := Before(s.server, a.c, a.m); }
    DispatchedSpeaks(s0, Place(s.server, a), a.c, a.m, a.at, a.roster);
    hide Notice, Line;
  }

  lemma Before(s: State, c: Conn, m: Envelope) returns (s0: State)
    requires c in s.loops
    ensures s0 == Noted(s, c, m) && s0.hub == s.hub && s0.meeting == s.meeting && s0.chat == s.chat
  {
    s0 := Noted(s, c, m);
    hide Tracked, Hub.With;
  }

  lemma FarewellSays(s: State, c: Conn, at: int)
    requires c in s.loops
    ensures var s0 := s.(roles := Hub.Without(s.roles, s.loops[c].sid, c));
      var t := Disconnected(s, c, at);
      && Spoke(s.hub, Farewell(s0, c, at).hub, s.loops[c].sid, LastWords(s, t, s.loops[c]), c, [])
      && t.hub.casts == Farewell(s0, c, at).hub.casts && t.hub.wire == Farewell(s0, c, at).hub.wire - {c}
  {
    FarewellSpeaks(s.(roles := Hub.Without(s.roles, s.loops[c].sid, c)), c, at);
    hide Spoke, Farewell, Hub.Without, Notice;
  }

  /** Every broadcast of a step is to the session the step is about, and is one of these, in this order. */
  lemma SaidExactly(s: System, a: Action)
    requires Enabled(s, a)
    ensures var t := Step(s, a).server;
      t.hub.casts == s.server.hub.casts + To(Place(s.server, a), Said(s.server, t, a))
  {
    if a.Receive? || (a.FeedReceive? && a.m.sid > 0) {
      MessageSpeaks(s, a);
      hide Step, Said, Place;
    } else if a.Disconnect? {
      FarewellSays(s.server, a.c, a.at);
      hide Disconnected, LastWords, Reached;
    } else {
      assert To(Place(s.server, a), []) == [];
    }
  }

  /** A step leaves a socket with what it had, less what was read, and then its part of what was said, and the roster if it joined. */
  ghost predicate Written(s: State, t: State, a: Action, d: Conn) {
    Hub.Unread(t.hub, d) == if (a.Disconnect? || a.DetachLock?) && a.c == d then []
      else Remaining(s.hub, a, d) + Got(s.hub, Place(s, a), Said(s, t, a), d) + Own(s.hub, a.c, Answered(a), d)
  }

  lemma MessageWritten(s: System, a: Action, d: Conn)
    requires Enabled(s, a) && (a.Receive? || (a.FeedReceive? && a.m.sid > 0))
    ensures Written(s.server, Step(s, a).server, a, d)
  {
    MessageSpeaks(s, a);
    var h, t := s.server.hub, Step(s, a).server;
    assert Reached(h, t.hub, Place(s.server, a), Said(s.server, t, a), a.c, Answered(a), d);
    assert Remaining(h, a, d) == Hub.Unread(h, d);
    hide Step, Said, Place, Answered, Own, Got, Hub.Unread, Remaining, Enabled, Spoke;
  }

  lemma GoneWritten(s: System, a: Action, d: Conn)
    requires Enabled(s, a) && a.Disconnect?
    ensures Written(s.server, Step(s, a).server, a, d)
  {
    FarewellSays(s.server, a.c, a.at);
    var h, t := s.server.hub, Step(s, a).server;
    var l := s.server.loops[a.c];
    var mid := Farewell(s.server.(roles := Hub.Without(s.server.roles, l.sid, a.c)), a.c, a.at).hub;
    assert Reached(h, mid, l.sid, LastWords(s.server, t, l), a.c, [], d);
    assert Own(h, a.c, [], d) == [];
    hide Disconnected, Farewell, LastWords, Own, Got;
  }

  lemma QuietWritten(s: System, a: Action, d: Conn)
    requires Enabled(s, a) && !a.Receive? && !a.Disconnect? && (a.FeedReceive? ==> a.m.sid <= 0)
    ensures Written(s.server, Step(s, a).server, a, d)
  {
    var h := s.server.hub;
    assert Got(h, Place(s.server, a), [], d) == [] && Own(h, a.c, [], d) == [];
    hide Got, Own, Reply, RosterFits, Client.Reduced, Hub.With;
  }

  lemma WrittenExactly(s: System, a: Action, d: Conn)
    requires Enabled(s, a)
    ensures Written(s.server, Step(s, a).server, a, d)
  {
    hide Step, Written, RosterFits;
    if a.Receive? || (a.FeedReceive? && a.m.sid > 0) {
      MessageWritten(s, a, d);
    } else if a.Disconnect? {
      GoneWritten(s, a, d);
    } else {
      QuietWritten(s, a, d);
    }
  }

  // ---------- what the gateway hears ----------

  lemma {:induction false} NoMedia(h: Hub.Tables, sid: int, ms: seq<Envelope>, d: Conn)
    requires d !in Get(h.sessions, sid, {}) && forall m :: m in ms ==> !Media(m)
    ensures Got(h, sid, ms, d) == []
  {
    if ms != [] { NoMedia(h, sid, ms[..|ms| - 1], d); }
  }

  lemma UtteredMedia(s: State, t: State, sid: int, m: Envelope, h: Hub.Tables, d: Conn)
    requires m.WSMessage? && d !in Get(h.sessions, sid, {}) && d in h.analysis && d in h.locks
    ensures Got(h, sid, Uttered(s, t, sid, m), d) ==
      if m.typ == "audio" || m.typ == "frame" then [WSMessage(m.typ, sid, m.participant, m.payload)] else []
  {
    hide FieldOr, Trim;
    if Media(m) {
      assert [m][..0] == [] && Got(h, sid, [], d) == [];
      assert Got(h, sid, [m], d) == [] + Heard(h, sid, m, d);
    } else {
      assert forall e :: e in Uttered(s, t, sid, m) ==> !Media(e);
      NoMedia(h, sid, Uttered(s, t, sid, m), d);
    }
  }

  lemma SaidMedia(s: State, t: State, a: Action, d: Conn)
    requires d !in Get(s.hub.sessions, Place(s, a), {}) && d in s.hub.analysis && d in s.hub.locks
    ensures Got(s.hub, Place(s, a), Said(s, t, a), d) ==
      if (a.Receive? && a.c in s.loops && a.m.WSMessage?) || (a.FeedReceive? && a.m.WSMessage? && a.m.sid > 0)
      then if a.m.typ == "audio" || a.m.typ == "frame" then [WSMessage(a.m.typ, Place(s, a), a.m.participant, a.m.payload)] else []
      else []
  {
    if (a.Receive? && a.c in s.loops && a.m.WSMessage?) || (a.FeedReceive? && a.m.WSMessage? && a.m.sid > 0) {
      UtteredMedia(s, t, Place(s, a), a.m, s.hub, d);
    } else {
      NoMedia(s.hub, Place(s, a), Said(s, t, a), d);
    }
  }

  lemma FeedNoMember(s: State, d: Conn, sid: int)
    requires Book(s) && FeedIs(s, d, Attached)
    ensures d !in Get(s.hub.sessions, sid, {}) && d in s.hub.analysis && d in s.hub.locks && d !in s.loops
  {
    hide TidyBook, RoleBook, UserBook;
    assert d in Get(s.hub.sessions, sid, {}) <==> In(s.loops, d, sid);
  }

  /** What an attached analysis socket is sent because of a step. */
  function Fed(s: State, a: Action, d: Conn): seq<Envelope> {
    if a.Receive? && a.c in s.loops && a.m.WSMessage? then
      if a.m.typ == "audio" || a.m.typ == "frame" then [WSMessage(a.m.typ, s.loops[a.c].sid, a.m.participant, a.m.payload)] else []
    else if a.FeedReceive? && a.m.WSMessage? && a.m.sid > 0 then
      if a.m.typ == "audio" || a.m.typ == "frame" then [a.m]
      else if a.m.typ == "join" && a.c == d then [Snapshot(a.roster)]
      else []
    else []
  }

  lemma FedIs(s: State, t: State, a: Action, d: Conn)
    requires d !in Get(s.hub.sessions, Place(s, a), {}) && d in s.hub.analysis && d in s.hub.locks
    requires a.Disconnect? || a.DetachLock? || a.Deliver? || a.Receive? ==> a.c != d
    ensures Got(s.hub, Place(s, a), Said(s, t, a), d) + Own(s.hub, a.c, Answered(a), d) == Fed(s, a, d)
    ensures Remaining(s.hub, a, d) == Hub.Unread(s.hub, d)
  {
    SaidMedia(s, t, a, d);
    hide Said, Got, Snapshot;
  }

  lemma StaysPut(s: System, a: Action, d: Conn)
    requires Enabled(s, a) && FeedIs(s.server, d, Attached) && d !in s.server.loops && s.peers.Keys == s.server.loops.Keys
    requires FeedIs(Step(s, a).server, d, Attached)
    ensures a.Disconnect? || a.DetachLock? || a.Deliver? || a.Receive? ==> a.c != d
  {
    hide Dispatched, Farewell, Noted, Client.Reduced, RosterFits;
  }

  /**
    In any state of any run an attached analysis socket that stays attached is sent by a step exactly: each media
    message of a session socket, under that socket's session; each media message of an analysis socket that names a
    session; and the roster, if it joins itself.
  */
  lemma FeedHears(status: map<int, Status>, acts: seq<Action>, a: Action, d: Conn)
    requires Run(Start(status), acts).Some? && Enabled(Run(Start(status), acts).value, a)
    requires var s := Run(Start(status), acts).value; FeedIs(s.server, d, Attached) && FeedIs(Step(s, a).server, d, Attached)
    ensures var s := Run(Start(status), acts).value;
      Hub.Unread(Step(s, a).server.hub, d) == Hub.Unread(s.server.hub, d) + Fed(s.server, a, d)
  {
    var s := Run(Start(status), acts).value;
    BookAlways(status, acts);
    FeedNoMember(s.server, d, Place(s.server, a));
    StaysPut(s, a, d);
    WrittenExactly(s, a, d);
    assert Written(s.server, Step(s, a).server, a, d);
    hide *;
    FedIs(s.server, Step(s, a).server, a, d);
    FeedAdds(Hub.Unread(Step(s, a).server.hub, d), Remaining(s.server.hub, a, d),
      Got(s.server.hub, Place(s.server, a), Said(s.server, Step(s, a).server, a), d), Own(s.server.hub, a.c, Answered(a), d));
  }

  lemma FeedAdds<T>(all: seq<T>, rest: seq<T>, got: seq<T>, own: seq<T>)
    requires all == rest + got + own
    ensures all == rest + (got + own)
  {
  }
}
