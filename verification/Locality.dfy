// A step speaks to one session; every other session is as it was.
module Locality {
  import opened Outcomes
  import opened Wire
  import Hub
  import Client
  import Meeting
  import opened Server
  import opened Room
  import opened Bookkeeping
  import opened Agreement
  import opened Replicas
  import opened Orphans

  /** Another session, as far as the server's tables describe it. */
  ghost predicate SameSessionTables(s: State, t: State, k: int) {
    && Hub.Members(t.hub, k) == Hub.Members(s.hub, k)
    && Hub.MetaOf(t.hub, k) == Hub.MetaOf(s.hub, k)
    && Get(t.roles, k, map[]) == Get(s.roles, k, map[])
    && (k in t.meeting.status <==> k in s.meeting.status)
    && (k in s.meeting.status ==> t.meeting.status[k] == s.meeting.status[k])
    && (forall u :: Meeting.HasActive(t.meeting.rows, k, u) <==> Meeting.HasActive(s.meeting.rows, k, u))
  }

  /** The session an action belongs to. */
  function Home(s: System, a: Action): Option<int> {
    if a.Connect? then Some(a.sid) else Scope(s, a)
  }

  ghost predicate SameStatus(s: State, t: State, k: int) {
    && (k in t.meeting.status <==> k in s.meeting.status)
    && (k in s.meeting.status ==> t.meeting.status[k] == s.meeting.status[k])
  }

  lemma JoinStatus(s: State, sid: int, c: Conn, name: string, role: Meeting.Role, at: int, k: int)
    requires k != sid
    ensures SameStatus(s, MeetingJoined(s, sid, c, name, role, at), k)
  {
    hide Hub.AfterBroadcast, Trim, Meeting.HasActive;
  }

  lemma CloseStatus(s: State, sid: int, at: int, k: int)
    requires k != sid
    ensures SameStatus(s, MeetingClosed(s, sid, at), k)
  {
    hide Hub.AfterBroadcast;
  }

  lemma LeaveStatus(s: State, sid: int, c: Conn, at: int)
    ensures MeetingLeft(s, sid, c, at).meeting.status == s.meeting.status
  {
    hide Meeting.HasActive, Meeting.CloseRows;
  }

  lemma DispatchedStatus(s: State, sid: int, c: Conn, m: Envelope, at: int, roster: seq<Hub.JoinMeta>, k: int)
    requires k != sid
    ensures SameStatus(s, Dispatched(s, sid, c, m, at, roster), k)
  {
    hide Hub.AfterBroadcast, Hub.Without, Hub.Sent, MetaAfterJoin, FieldOr, Trim, MeetingRole, ChatStored, ChatPayload,
         Meeting.CheckRole, MeetingJoined, MeetingLeft, MeetingClosed, Snapshot;
    if m.typ == "join" {
      JoinStatus(JoinAnnounced(s, sid, c, m), sid, c, FieldOr(m.payload, "name", ""), MeetingRole(FieldOr(m.payload, "role", "")), at, k);
    } else if m.typ == "leave" {
      LeaveStatus(s.(hub := s.hub.(meta := Hub.Without(s.hub.meta, sid, c))), sid, c, at);
    } else if m.typ == "end_meeting" {
      CloseStatus(s, sid, at, k);
    }
  }

  lemma FarewellStatus(s: State, c: Conn, at: int, k: int)
    requires c in s.loops && k != s.loops[c].sid
    ensures SameStatus(s, Farewell(s, c, at), k)
  {
    hide Hub.AfterBroadcast, CoHostRemains, MeetingLeft, MeetingClosed;
    var l := s.loops[c];
    var s2 := Broadcasted(Broadcasted(s, l.sid, LeaveNotice(l)), l.sid, Announcement("user_left", l.pid, l.name));
    LeaveStatus(s2, l.sid, c, at);
    CloseStatus(MeetingLeft(s2, l.sid, c, at), l.sid, at, k);
  }

  lemma ConnectLocal(s: System, a: Action, k: int)
    requires SystemBook(s) && Enabled(s, a) && a.Connect? && k != a.sid
    ensures SameSessionTables(s.server, Step(s, a).server, k)
    ensures forall d :: d in s.peers && In(s.server.loops, d, k) ==>
              d in Step(s, a).peers && Step(s, a).peers[d] == s.peers[d] && Future(Step(s, a), d) == Future(s, d)
  {
    NewcomerLeaves(s.server, a.c, a.sid, a.user, k);
    hide Connected, SameSessionTables, SystemBook, Client.RenamedBy;
    forall d | d in s.peers && In(s.server.loops, d, k)
      ensures d in Step(s, a).peers && Step(s, a).peers[d] == s.peers[d] && Future(Step(s, a), d) == Future(s, d)
    {
      assert d != a.c;
    }
  }

  lemma NewcomerLeaves(s: State, c: Conn, sid: int, user: int, k: int)
    requires k != sid
    ensures SameSessionTables(s, Connected(s, c, sid, user), k) && Connected(s, c, sid, user).hub.wire == s.hub.wire
  {
    hide Meeting.HasActive;
  }

  lemma SpokenLocal(s: System, a: Action, k: int)
    requires SystemBook(s) && Enabled(s, a) && (a.Receive? || a.FeedReceive?)
    requires Scope(s, a).Some? && k != Scope(s, a).value
    ensures SameSessionTables(s.server, Step(s, a).server, k)
  {
    hide Dispatched, MetaEffect, RosterFits, Meeting.HasActive, SessionBook, RoleBook, TidyBook, LockBook, UserBook,
         FieldOr, Tracked;
    var s0, sid, t := Spoken(s, a), Scope(s, a).value, Step(s, a).server;
    DispatchTouches(s0, sid, a.c, a.m, a.at, a.roster);
    TrackedSid(s.server, a);
    MetaOfDispatch(s0, sid, a.c, a.m, a.at, a.roster, k);
    DispatchedStatus(s0, sid, a.c, a.m, a.at, a.roster, k);
    forall u ensures Meeting.HasActive(t.meeting.rows, k, u) <==> Meeting.HasActive(s.server.meeting.rows, k, u) {
      DispatchedRows(s0, sid, a.c, a.m, a.at, a.roster, k, u);
    }
  }

  lemma DisconnectLocal(s: System, a: Action, k: int)
    requires SystemBook(s) && Enabled(s, a) && a.Disconnect? && k != s.server.loops[a.c].sid
    ensures SameSessionTables(s.server, Step(s, a).server, k)
  {
    hide Farewell, Hub.Without, Meeting.HasActive, SessionBook, RoleBook, TidyBook, LockBook, UserBook;
    var sid, t := s.server.loops[a.c].sid, Step(s, a).server;
    var s0 := s.server.(roles := Hub.Without(s.server.roles, sid, a.c));
    FarewellTouches(s0, a.c, a.at);
    FarewellStatus(s0, a.c, a.at, k);
    WithoutEntries(s.server.roles, sid, a.c);
    WithoutEntries(s.server.hub.meta, sid, a.c);
    forall u ensures Meeting.HasActive(t.meeting.rows, k, u) <==> Meeting.HasActive(s.server.meeting.rows, k, u) {
      FarewellRows(s0, a.c, a.at, k, u);
    }
  }

  /** Members, roster, roles, status and active users of every other session are unchanged, and so is what its browsers will show. */
  lemma StepLocal(s: System, a: Action, k: int)
    requires SystemBook(s) && Enabled(s, a) && Home(s, a).Some? && k != Home(s, a).value
    ensures SameSessionTables(s.server, Step(s, a).server, k)
    ensures forall d :: d in s.peers && In(s.server.loops, d, k) ==>
              d in Step(s, a).peers && Step(s, a).peers[d] == s.peers[d] && Future(Step(s, a), d) == Future(s, d)
  {
    hide SameSessionTables, Step, SystemBook, RosterFits, Future;
    if a.Connect? {
      ConnectLocal(s, a, k);
    } else {
      if a.Disconnect? { DisconnectLocal(s, a, k); } else { SpokenLocal(s, a, k); }
      forall d | d in s.peers && In(s.server.loops, d, k)
        ensures d in Step(s, a).peers && Step(s, a).peers[d] == s.peers[d] && Future(Step(s, a), d) == Future(s, d)
      {
        FutureLocal(s, a, k, d);
      }
    }
  }

  lemma FutureLocal(s: System, a: Action, k: int, d: Conn)
    requires SystemBook(s) && Enabled(s, a) && !a.Connect? && Scope(s, a).Some? && k != Scope(s, a).value
    requires d in s.peers && In(s.server.loops, d, k)
    ensures d in Step(s, a).peers && Step(s, a).peers[d] == s.peers[d] && Future(Step(s, a), d) == Future(s, d)
  {
    hide Dispatched, Farewell, RosterFits, SessionBook, RoleBook, TidyBook, UserBook, FieldOr, Tracked,
         Client.RenamedBy, LeaveNames, Effect, Hub.Without;
    BookListener(s, d);
    var names := Client.Names(s.peers[d].view);
    if a.Disconnect? {
      var s1 := s.server.(roles := Hub.Without(s.server.roles, s.server.loops[a.c].sid, a.c));
      FarewellTouches(s1, a.c, a.at);
      FarewellHeard(s1, a.c, a.at, d, names);
    } else {
      var s0 := Spoken(s, a);
      DispatchTouches(s0, Scope(s, a).value, a.c, a.m, a.at, a.roster);
      DispatchHeard(s0, Scope(s, a).value, a.c, a.m, a.at, a.roster, d, names);
    }
  }
}
