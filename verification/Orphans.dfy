// Participant rows against live sockets: an active row always has somebody behind it.
module Orphans {
  import opened Outcomes
  import opened Wire
  import opened Tally
  import Hub
  import Client
  import Meeting
  import opened Server
  import opened Room
  import opened Bookkeeping

  predicate Anchor(s: State, c: Conn, sid: int, user: int) {
    In(s.loops, c, sid) && s.loops[c].pid != "" && c in s.auth && s.auth[c] == user
  }

  /** Some live socket of the user in the session is tracked under a non-empty participant id. */
  ghost predicate Anchored(s: State, sid: int, user: int) {
    exists c :: Anchor(s, c, sid, user)
  }

  ghost predicate NoOrphans(s: State) {
    forall sid, user :: Meeting.HasActive(s.meeting.rows, sid, user) ==> Anchored(s, sid, user)
  }

  /** A join without a participant id, by a known user nothing else anchors, on a socket that never named one. */
  ghost predicate BlankJoin(s: System, a: Action) {
    && a.Receive? && a.c in s.server.loops
    && a.m.typ == "join" && ParticipantOf(a.m) == "" && s.server.loops[a.c].pid == ""
    && UserOf(s.server, a.c) > 0 && s.server.loops[a.c].sid in s.server.meeting.status
    && !Anchored(s.server, s.server.loops[a.c].sid, UserOf(s.server, a.c))
  }

  ghost predicate NoBlankJoin(s: System, a: Action) { !BlankJoin(s, a) }

  // ---------- which users are active after each handler ----------

  lemma JoinedRows(s: State, sid: int, c: Conn, m: Envelope, at: int, roster: seq<Hub.JoinMeta>, k: int, u: int)
    ensures Meeting.HasActive(Joined(s, sid, c, m, at, roster).meeting.rows, k, u) <==>
              Meeting.HasActive(s.meeting.rows, k, u) || (k == sid && u == UserOf(s, c) && u > 0 && sid in s.meeting.status)
  {
    hide Hub.AfterBroadcast, FieldOr, Trim, MeetingRole, MetaAfterJoin, Meeting.FindActive;
    var s1 := JoinAnnounced(s, sid, c, m);
    assert s1.meeting == s.meeting && s1.auth == s.auth;
    var name, role := FieldOr(m.payload, "name", ""), MeetingRole(FieldOr(m.payload, "role", ""));
    MeetingJoinedRows(s1, sid, c, name, role, at, k, u);
    hide MeetingJoined, JoinAnnounced;
  }

  lemma AfterJoinRows(t: Meeting.Tables, sid: int, user: int, name: Option<string>, role: Meeting.Role, at: int, k: int, u: int)
    ensures Meeting.HasActive(Meeting.Settle(t, Meeting.AfterJoin(t, sid, user, name, role, at)).rows, k, u) <==>
              Meeting.HasActive(t.rows, k, u) || (k == sid && u == user && sid in t.status)
    ensures Meeting.AfterJoin(t, sid, user, name, role, at).Err? ==> sid !in t.status
  {
    CountSnoc(t.rows, Meeting.Row(sid, user, name, role, at, None, true), Meeting.ActiveRowOf(k, u));
    hide CountIf;
  }

  lemma MeetingJoinedRows(s: State, sid: int, c: Conn, name: string, role: Meeting.Role, at: int, k: int, u: int)
    ensures Meeting.HasActive(MeetingJoined(s, sid, c, name, role, at).meeting.rows, k, u) <==>
              Meeting.HasActive(s.meeting.rows, k, u) || (k == sid && u == UserOf(s, c) && u > 0 && sid in s.meeting.status)
  {
    AfterJoinRows(s.meeting, sid, UserOf(s, c), DisplayName(name), role, at, k, u);
    hide Hub.AfterBroadcast, Trim, Meeting.HasActive, Meeting.AfterJoin, DisplayName, UserOf;
  }

  lemma LeftRows(s: State, sid: int, c: Conn, at: int, k: int, u: int)
    ensures Meeting.HasActive(MeetingLeft(s, sid, c, at).meeting.rows, k, u) <==>
              Meeting.HasActive(s.meeting.rows, k, u) && !(k == sid && u == UserOf(s, c) && u > 0)
  {
    if UserOf(s, c) > 0 {
      Meeting.CloseCounts(s.meeting.rows, sid, UserOf(s, c), at, k, u);
    }
  }

  lemma DispatchedRows(s: State, sid: int, c: Conn, m: Envelope, at: int, roster: seq<Hub.JoinMeta>, k: int, u: int)
    ensures Meeting.HasActive(Dispatched(s, sid, c, m, at, roster).meeting.rows, k, u) <==>
      if m.typ == "join" then Meeting.HasActive(s.meeting.rows, k, u) || (k == sid && u == UserOf(s, c) && u > 0 && sid in s.meeting.status)
      else if m.typ == "leave" then Meeting.HasActive(s.meeting.rows, k, u) && !(k == sid && u == UserOf(s, c) && u > 0)
      else Meeting.HasActive(s.meeting.rows, k, u)
  {
    hide Hub.AfterBroadcast, Hub.Without, ChatStored, Meeting.CheckRole, Meeting.HasActive, Joined, MeetingLeft, ChatPayload, FieldOr, Trim;
    if m.typ == "join" {
      JoinedRows(s, sid, c, m, at, roster, k, u);
    } else if m.typ == "leave" {
      LeftRows(s.(hub := s.hub.(meta := Hub.Without(s.hub.meta, sid, c))), sid, c, at, k, u);
    }
  }

  lemma FarewellRows(s: State, c: Conn, at: int, k: int, u: int)
    requires c in s.loops
    ensures Meeting.HasActive(Farewell(s, c, at).meeting.rows, k, u) <==>
      Meeting.HasActive(s.meeting.rows, k, u)
      && !(s.loops[c].pid != "" && k == s.loops[c].sid && u == UserOf(s, c) && u > 0)
  {
    hide Hub.AfterBroadcast, Meeting.HasActive, MeetingLeft, CoHostRemains;
    var l := s.loops[c];
    if l.pid != "" {
      var s2 := Broadcasted(Broadcasted(s, l.sid, LeaveNotice(l)), l.sid, Announcement("user_left", l.pid, l.name));
      LeftRows(s2, l.sid, c, at, k, u);
      assert MeetingClosed(MeetingLeft(s2, l.sid, c, at), l.sid, at).meeting.rows == MeetingLeft(s2, l.sid, c, at).meeting.rows;
    }
  }

  // ---------- the invariant ----------

  lemma ReceiveExactly(s: System, a: Action)
    requires SystemBook(s) && Enabled(s, a) && NoOrphans(s.server) && a.Receive?
    ensures NoOrphans(Step(s, a).server) <==> !BlankJoin(s, a)
  {
    hide Dispatched, Meeting.HasActive, SessionBook, RoleBook, TidyBook, LockBook, FieldOr, TextField, RosterFits;
    var c, m := a.c, a.m;
    var s0, noted, t := s.server, Noted(s.server, a.c, a.m), Step(s, a).server;
    var sid := s0.loops[c].sid;
    DispatchTouches(noted, sid, c, m, a.at, a.roster);
    forall k, u
      ensures Meeting.HasActive(t.meeting.rows, k, u) <==>
        if m.typ == "join" then
          Meeting.HasActive(s0.meeting.rows, k, u) || (k == sid && u == UserOf(s0, c) && u > 0 && sid in s0.meeting.status)
        else if m.typ == "leave" then Meeting.HasActive(s0.meeting.rows, k, u) && !(k == sid && u == UserOf(s0, c) && u > 0)
        else Meeting.HasActive(s0.meeting.rows, k, u)
    {
      DispatchedRows(noted, sid, c, m, a.at, a.roster, k, u);
    }
    AnchorsAfterReceive(s0, c, m, t);
    if BlankJoin(s, a) {
      assert Meeting.HasActive(t.meeting.rows, sid, UserOf(s0, c));
    }
  }

  /** The socket has given a participant id, with this message or before. */
  predicate Named(s: State, c: Conn, m: Envelope)
    requires c in s.loops
  {
    ParticipantOf(m) != "" || s.loops[c].pid != ""
  }

  /** Who is anchored after a message: the sender by what it said, everybody else as before. */
  lemma AnchorsAfterReceive(s: State, c: Conn, m: Envelope, t: State)
    requires c in s.loops && UserBook(s.auth, s.loops)
    requires t.loops == s.loops[c := Tracked(s.loops[c], m)] && t.auth == s.auth
    ensures m.typ == "leave" || (m.typ == "join" && !Named(s, c, m)) ==> forall k, u :: Anchored(t, k, u) ==> Anchored(s, k, u)
    ensures forall k, u :: Anchored(s, k, u) && !(m.typ == "leave" && k == s.loops[c].sid && u == UserOf(s, c)) ==> Anchored(t, k, u)
    ensures m.typ == "join" && UserOf(s, c) > 0 && Named(s, c, m) ==> Anchored(t, s.loops[c].sid, UserOf(s, c))
  {
    hide FieldOr;
    forall k, u | Anchored(s, k, u) && !(m.typ == "leave" && k == s.loops[c].sid && u == UserOf(s, c))
      ensures Anchored(t, k, u)
    {
      var d :| Anchor(s, d, k, u);
      assert Anchor(t, d, k, u);
    }
    if m.typ == "leave" || (m.typ == "join" && !Named(s, c, m)) {
      forall k, u | Anchored(t, k, u) ensures Anchored(s, k, u) {
        var d :| Anchor(t, d, k, u);
        assert Anchor(s, d, k, u);
      }
    }
    if m.typ == "join" && UserOf(s, c) > 0 && Named(s, c, m) {
      assert Anchor(t, c, s.loops[c].sid, UserOf(s, c));
    }
  }

  lemma DisconnectKeeps(s: System, a: Action)
    requires SystemBook(s) && Enabled(s, a) && NoOrphans(s.server) && a.Disconnect?
    ensures NoOrphans(Step(s, a).server)
  {
    hide Farewell, Meeting.HasActive, SessionBook, RoleBook, TidyBook, LockBook, Hub.Without, Hub.Removed;
    var c, s0, t := a.c, s.server, Step(s, a).server;
    var sid := s0.loops[c].sid;
    var s1 := s0.(roles := Hub.Without(s0.roles, sid, c));
    FarewellTouches(s1, c, a.at);
    forall k, u | Meeting.HasActive(t.meeting.rows, k, u) ensures Anchored(t, k, u) {
      FarewellRows(s1, c, a.at, k, u);
      var d :| Anchor(s0, d, k, u);
      assert d != c;
      assert Anchor(t, d, k, u);
    }
  }

  lemma OtherStepsKeep(s: System, a: Action)
    requires SystemBook(s) && Enabled(s, a) && NoOrphans(s.server) && !a.Receive? && !a.Disconnect?
    ensures NoOrphans(Step(s, a).server)
  {
    hide Dispatched, Meeting.HasActive, SessionBook, RoleBook, TidyBook, Hub.With, Hub.Added, Client.Reduced,
         RosterFits, Trim;
    var t := Step(s, a).server;
    if a.FeedReceive? && a.m.WSMessage? && a.m.sid > 0 {
      DispatchTouches(s.server, a.m.sid, a.c, a.m, a.at, a.roster);
      assert UserOf(s.server, a.c) == 0;
    }
    forall k, u | Meeting.HasActive(t.meeting.rows, k, u) ensures Anchored(t, k, u) {
      if a.FeedReceive? && a.m.WSMessage? && a.m.sid > 0 {
        DispatchedRows(s.server, a.m.sid, a.c, a.m, a.at, a.roster, k, u);
      }
      assert Anchored(s.server, k, u);
      var d :| Anchor(s.server, d, k, u);
      assert Anchor(t, d, k, u);
    }
  }

  /** A step leaves an active row without anybody behind it exactly when it is a blank join. */
  lemma OrphansExactly(s: System, a: Action)
    requires SystemBook(s) && Enabled(s, a) && NoOrphans(s.server)
    ensures NoOrphans(Step(s, a).server) <==> !BlankJoin(s, a)
  {
    hide NoOrphans, Step, Enabled, SystemBook;
    if a.Receive? { ReceiveExactly(s, a); }
    else if a.Disconnect? { DisconnectKeeps(s, a); }
    else { OtherStepsKeep(s, a); }
  }

  /** No orphans in any state reachable without blank joins. */
  lemma {:induction false} NeverOrphans(status: map<int, Meeting.Status>, acts: seq<Action>)
    requires Run(Start(status), acts).Some? && Throughout(Start(status), acts, NoBlankJoin)
    ensures SystemBook(Run(Start(status), acts).value) && NoOrphans(Run(Start(status), acts).value.server)
  {
    hide NoOrphans, Step, SystemBook, BlankJoin;
    if acts == [] {
      StartBook(status);
      StartHasNone(status);
    } else {
      var n := |acts| - 1;
      NeverOrphans(status, acts[..n]);
      BookStep(Run(Start(status), acts[..n]).value, acts[n]);
      OrphansExactly(Run(Start(status), acts[..n]).value, acts[n]);
    }
  }

  lemma StartHasNone(status: map<int, Meeting.Status>)
    ensures NoOrphans(Start(status).server)
  {
  }
}
