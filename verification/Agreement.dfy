// Replica agreement: what each browser will show once it has read its socket is the server's roster.
module Agreement {
  import opened Outcomes
  import opened Wire
  import Hub
  import Client
  import Meeting
  import opened Server
  import opened Room
  import Sorting

  type Meta = map<Conn, Hub.JoinMeta>
  type Names = map<string, string>

  function ShownAs(jm: Hub.JoinMeta): string { Shown(jm.pid, jm.name) }

  ghost predicate Held(meta: Meta, id: string) {
    exists c :: c in meta && meta[c].pid == id
  }

  /** `names` shows exactly the participants of `meta`, each under its own name. */
  ghost predicate Mirrors(meta: Meta, names: Names) {
    && (forall id :: id in names ==> Held(meta, id))
    && (forall c :: c in meta ==> meta[c].pid in names && names[meta[c].pid] == ShownAs(meta[c]))
  }

  /** Nobody has an empty id. */
  predicate AllNamed(meta: Meta) {
    forall c :: c in meta ==> meta[c].pid != ""
  }

  /** Connections that share a participant id also share the name shown. */
  predicate Consistent(meta: Meta) {
    forall c, d :: c in meta && d in meta && meta[c].pid == meta[d].pid ==> ShownAs(meta[c]) == ShownAs(meta[d])
  }

  /** The names a client shows after reading everything that waits on its socket. */
  function Heard(h: Hub.Tables, c: Conn, names: Names): Names {
    Client.RenamedBy(names, Hub.Unread(h, c))
  }

  function Future(s: System, c: Conn): Names
    requires c in s.peers
  {
    Heard(s.server.hub, c, Client.Names(s.peers[c].view))
  }

  /** The browser of `c` has been sent a roster on this socket. */
  predicate Watching(s: System, c: Conn) {
    c in s.peers && s.peers[c].synced && c in s.server.loops
  }

  /** The browser of `c` is on its way to the present roster of its session. */
  ghost predicate Faithful(s: System, c: Conn)
    requires c in s.peers && c in s.server.loops
  {
    Mirrors(Hub.MetaOf(s.server.hub, s.server.loops[c].sid), Future(s, c))
  }

  /** Every browser that has been sent a roster is on its way to the server's present roster. */
  ghost predicate Agreed(s: System) {
    && (forall c :: Watching(s, c) ==> Faithful(s, c))
    && (forall sid :: Consistent(Hub.MetaOf(s.server.hub, sid)))
  }

  // ---------- the exact conditions on messages ----------

  /** Another connection holds the id that `c` holds. */
  ghost predicate HeldElsewhere(meta: Meta, c: Conn) {
    c in meta && Held(meta - {c}, meta[c].pid)
  }

  /** A join gives its id already trimmed, moves the sender to no other id, and contradicts nobody's name. */
  ghost predicate JoinOk(meta: Meta, c: Conn, p: string, name: string) {
    p == "" || (
      && Trim(p) == p
      && (c in meta && meta[c].pid != p ==> HeldElsewhere(meta, c))
      && (forall d :: d in meta && d != c && meta[d].pid == p ==> ShownAs(meta[d]) == Shown(p, name)))
  }

  /** A departure names the id the connection joined with, if any, and nobody else's. */
  ghost predicate LeaveOk(meta: Meta, c: Conn, p: string) {
    && (forall d :: d in meta && d != c ==> meta[d].pid != p)
    && (c in meta && meta[c].pid != p ==> HeldElsewhere(meta, c))
  }

  /** A relayed message that happens to look like a server event says nothing new. */
  ghost predicate RelayOk(meta: Meta, m: Envelope) {
    var id, name := FieldOr(m.payload, "participant_id", ""), FieldOr(m.payload, "name", "");
    match m.typ
    case "user_joined" => id == "" || (Held(meta, id) && forall c :: c in meta && meta[c].pid == id ==> ShownAs(meta[c]) == Shown(id, name))
    case "user_left" => !Held(meta, id)
    case "participants_snapshot" =>
      m.payload.Record? && m.payload.participants.Some? ==> Mirrors(meta, Client.NamesOf(Client.Entries(m.payload.participants.value)))
    case _ => true
  }

  ghost predicate MessageOk(meta: Meta, c: Conn, m: Envelope) {
    match m.typ
    case "join" => JoinOk(meta, c, ParticipantOf(m), FieldOr(m.payload, "name", ""))
    case "leave" => LeaveOk(meta, c, ParticipantOf(m))
    case "end_meeting" => true
    case "chat_message" => true
    case _ => RelayOk(meta, m)
  }

  /** The session an action speaks to, if it speaks to one. */
  function Scope(s: System, a: Action): Option<int> {
    match a
    case Receive(c, _, _, _) => if c in s.server.loops then Some(s.server.loops[c].sid) else None
    case Disconnect(c, _) => if c in s.server.loops then Some(s.server.loops[c].sid) else None
    case FeedReceive(_, m, _, _) => if m.WSMessage? && m.sid > 0 then Some(m.sid) else None
    case _ => None
  }

  ghost predicate StepOk(s: System, a: Action) {
    var scope := Scope(s, a);
    scope.Some? ==>
      var meta := Hub.MetaOf(s.server.hub, scope.value);
      match a
      case Receive(c, m, _, _) => MessageOk(meta, c, m)
      case FeedReceive(c, m, _, _) => MessageOk(meta, c, m)
      case Disconnect(c, _) => LeaveOk(meta, c, s.server.loops[c].pid)
      case _ => true
  }

  // ---------- rosters and names, without any server ----------

  function JoinNames(names: Names, p: string, name: string): Names {
    if p == "" then names else names[p := Shown(p, name)]
  }

  function LeaveNames(names: Names, p: string): Names {
    if p == "" then names else names - {p}
  }

  function WithMember(meta: Meta, c: Conn, p: string, name: string): Meta {
    if Trim(p) == "" then meta else meta[c := Hub.JoinMeta(Trim(p), name)]
  }

  lemma LeaveExactly(meta: Meta, names: Names, c: Conn, p: string)
    requires Mirrors(meta, names) && AllNamed(meta)
    ensures Mirrors(meta - {c}, LeaveNames(names, p)) <==> LeaveOk(meta, c, p)
  {
    var meta', names' := meta - {c}, LeaveNames(names, p);
    if LeaveOk(meta, c, p) {
      forall id | id in names' ensures Held(meta', id) {
        var d :| d in meta && meta[d].pid == id;
        assert d != c ==> d in meta' && meta'[d].pid == id;
      }
    } else if d :| d in meta && d != c && meta[d].pid == p {
      assert d in meta' && meta'[d].pid !in names';
    } else {
      assert c in meta && meta[c].pid in names';
    }
  }

  /** A departure that names nobody leaves the departed on every screen, unless the id lives on elsewhere. */
  lemma UnnamedLeaveBreaks(meta: Meta, names: Names, c: Conn)
    requires Mirrors(meta, names) && AllNamed(meta) && c in meta
    ensures Mirrors(meta - {c}, LeaveNames(names, "")) <==> HeldElsewhere(meta, c)
  {
    LeaveExactly(meta, names, c, "");
  }

  lemma JoinExactly(meta: Meta, names: Names, c: Conn, p: string, name: string)
    requires Mirrors(meta, names) && AllNamed(meta)
    requires forall d :: d in meta ==> Trim(meta[d].pid) == meta[d].pid
    ensures Mirrors(WithMember(meta, c, p, name), JoinNames(names, p, name)) <==> JoinOk(meta, c, p, name)
  {
    TrimTwice(p);
    assert p == "" ==> Trim(p) == "";
    hide Trim, Shown;
    var meta', names' := WithMember(meta, c, p, name), JoinNames(names, p, name);
    if p != "" && Trim(p) != p {
      assert p in names';
      assert forall d :: d in meta' ==> Trim(meta'[d].pid) == meta'[d].pid;
    } else if p != "" {
      TrimmedJoinExactly(meta, names, c, p, name);
    }
  }

  lemma TrimmedJoinExactly(meta: Meta, names: Names, c: Conn, p: string, name: string)
    requires Mirrors(meta, names) && AllNamed(meta) && p != "" && Trim(p) == p
    ensures Mirrors(WithMember(meta, c, p, name), JoinNames(names, p, name)) <==> JoinOk(meta, c, p, name)
  {
    hide Trim, Shown;
    var meta', names' := WithMember(meta, c, p, name), JoinNames(names, p, name);
    assert meta' == meta[c := Hub.JoinMeta(p, name)];
    if JoinOk(meta, c, p, name) {
      forall id | id in names' ensures Held(meta', id) {
        if id == p {
          assert meta'[c].pid == p;
        } else {
          var d :| d in meta && meta[d].pid == id;
          if d == c {
            var e :| e in meta - {c} && (meta - {c})[e].pid == id;
            assert e in meta' && meta'[e].pid == id;
          } else {
            assert d in meta' && meta'[d].pid == id;
          }
        }
      }
    } else if d :| d in meta && d != c && meta[d].pid == p && ShownAs(meta[d]) != Shown(p, name) {
      assert d in meta' && names'[p] != ShownAs(meta'[d]);
    } else {
      var id := meta[c].pid;
      assert id in names';
      forall d | d in meta' ensures meta'[d].pid != id {
        assert d != c ==> d in meta - {c} && (meta - {c})[d].pid == meta'[d].pid;
      }
    }
  }

  lemma RelayExactly(meta: Meta, names: Names, m: Envelope)
    requires Mirrors(meta, names) && AllNamed(meta) && m.typ != "join" && m.typ != "leave"
    ensures Mirrors(meta, Client.Renamed(names, m)) <==> RelayOk(meta, m)
  {
    hide Shown, Client.NamesOf;
    var id, name := FieldOr(m.payload, "participant_id", ""), FieldOr(m.payload, "name", "");
    if m.typ == "user_joined" && id != "" {
      assert id in Client.Renamed(names, m);
    } else if m.typ == "user_left" && id != "" {
      assert id !in names ==> names - {id} == names;
      if Held(meta, id) {
        var c :| c in meta && meta[c].pid == id;
        assert meta[c].pid !in Client.Renamed(names, m);
      }
    }
  }

  lemma {:induction false} ItemsNames(roster: seq<Hub.JoinMeta>)
    requires forall e :: e in roster ==> e.pid != "" && e.name != ""
    requires forall i, j :: 0 <= i < j < |roster| ==> roster[i].pid != roster[j].pid
    ensures forall id :: id in Client.NamesOf(Client.Entries(Items(roster))) <==> exists e :: e in roster && e.pid == id
    ensures forall e :: e in roster ==> e.pid in Client.NamesOf(Client.Entries(Items(roster)))
                                        && Client.NamesOf(Client.Entries(Items(roster)))[e.pid] == e.name
  {
    if roster != [] {
      var n := |roster| - 1;
      var items, last := Items(roster), roster[n];
      assert items[..n] == Items(roster[..n]);
      ItemsNames(roster[..n]);
      assert items[n] == map["participant_id" := last.pid, "name" := last.name];
      assert Client.Entries(items) == Client.Entries(items[..n]) + [Client.Entry(last.pid, last.name)];
      var entries := Client.Entries(items);
      assert entries[..|entries| - 1] == Client.Entries(items[..n]);
      assert Client.NamesOf(entries) == Client.NamesOf(Client.Entries(items[..n]))[last.pid := last.name];
      assert roster == roster[..n] + [last];
      forall e | e in roster ensures e == last || (e in roster[..n] && e.pid != last.pid) {
      }
    }
  }

  lemma SnapshotMirrors(meta: Meta, roster: seq<Hub.JoinMeta>)
    requires AllNamed(meta) && Consistent(meta) && Hub.IsSnapshot(meta, roster)
    ensures Mirrors(meta, Client.NamesOf(Client.Entries(Items(roster))))
  {
    forall e | e in roster ensures e.pid != "" && e.name != "" && Held(meta, e.pid) {
      assert Hub.Joined(meta, e);
    }
    forall i, j | 0 <= i < j < |roster| ensures roster[i].pid != roster[j].pid {
      Sorting.TextIrreflexive(roster[i].pid);
    }
    ItemsNames(roster);
    var names := Client.NamesOf(Client.Entries(Items(roster)));
    forall c | c in meta ensures meta[c].pid in names && names[meta[c].pid] == ShownAs(meta[c]) {
      assert Hub.Listed(roster, meta[c].pid);
      var e :| e in roster && e.pid == meta[c].pid;
      assert Hub.Joined(meta, e);
    }
  }

  // ---------- what each handler lets a listener hear ----------

  /** A socket with a lock that is not an analysis subscriber. */
  predicate Listener(h: Hub.Tables, d: Conn) { d in h.locks && d !in h.analysis }

  lemma CastHeard(s: State, sid: int, m: Envelope, d: Conn, names: Names)
    requires Listener(s.hub, d)
    ensures Heard(Broadcasted(s, sid, m).hub, d, names)
         == if d in Hub.Members(s.hub, sid) then Client.Renamed(Heard(s.hub, d, names), m) else Heard(s.hub, d, names)
  {
    hide Client.Renamed;
    Client.RenamedBySnoc(names, Hub.Unread(s.hub, d), m);
  }

  function Effect(names: Names, m: Envelope): Names {
    match m.typ
    case "join" => JoinNames(names, ParticipantOf(m), FieldOr(m.payload, "name", ""))
    case "leave" => LeaveNames(names, ParticipantOf(m))
    case "end_meeting" => names
    case "chat_message" => names
    case _ => Client.Renamed(names, m)
  }

  lemma AnnouncementFields(typ: string, p: string, name: string)
    ensures FieldOr(Announcement(typ, p, name).payload, "participant_id", "") == p
    ensures FieldOr(Announcement(typ, p, name).payload, "name", "") == name
  {
  }

  lemma JoinHeard(s: State, sid: int, c: Conn, m: Envelope, at: int, roster: seq<Hub.JoinMeta>, d: Conn, names: Names)
    requires Listener(s.hub, d) && m.typ == "join" && m.WSMessage?
    ensures Heard(Joined(s, sid, c, m, at, roster).hub, d, names)
         == if d == c && roster != [] then Client.NamesOf(Client.Entries(Items(roster)))
            else if d in Hub.Members(s.hub, sid) then Effect(Heard(s.hub, d, names), m)
            else Heard(s.hub, d, names)
  {
    hide Hub.AfterBroadcast, Trim, MeetingRole, Heard, Items, Client.NamesOf, Client.Entries, MetaAfterJoin, Hub.Sent, Shown,
         MeetingJoined, FieldOr;
    var p, name := ParticipantOf(m), FieldOr(m.payload, "name", "");
    var note := Announcement("user_joined", p, name);
    AnnouncementFields("user_joined", p, name);
    var s1 := s.(hub := s.hub.(meta := MetaAfterJoin(s.hub, sid, c, m)));
    var s2 := Broadcasted(s1, sid, m);
    var s3 := JoinAnnounced(s, sid, c, m);
    MetaUnheard(s, s1.hub.meta, d, names);
    CastHeard(s1, sid, m, d, names);
    CastTouches(s1, sid, m);
    CastHeard(s2, sid, note, d, names);
    CastTouches(s2, sid, note);
    var role := MeetingRole(FieldOr(m.payload, "role", ""));
    var s4 := MeetingJoined(s3, sid, c, name, role, at);
    MeetingJoinHeard(s3, sid, c, name, role, at, d, names);
    MeetingJoinTouches(s3, sid, c, name, role, at);
    SentHeard(s4, c, Snapshot(roster), d, names);
  }

  lemma MetaUnheard(s: State, meta: map<int, Meta>, d: Conn, names: Names)
    ensures Heard(s.(hub := s.hub.(meta := meta)).hub, d, names) == Heard(s.hub, d, names)
  {
  }

  lemma SentHeard(s: State, c: Conn, m: Envelope, d: Conn, names: Names)
    requires Listener(s.hub, d)
    ensures Heard(Hub.Sent(s.hub, c, m), d, names) == if d == c then Client.Renamed(Heard(s.hub, d, names), m) else Heard(s.hub, d, names)
  {
    hide Client.Renamed;
    Client.RenamedBySnoc(names, Hub.Unread(s.hub, d), m);
  }

  lemma MeetingJoinHeard(s: State, sid: int, c: Conn, name: string, role: Meeting.Role, at: int, d: Conn, names: Names)
    requires Listener(s.hub, d)
    ensures Heard(MeetingJoined(s, sid, c, name, role, at).hub, d, names) == Heard(s.hub, d, names)
  {
    hide Hub.AfterBroadcast, Meeting.AfterJoin, Meeting.AfterStart, Heard;
    var joined := Meeting.AfterJoin(s.meeting, sid, UserOf(s, c), DisplayName(name), role, at);
    if joined.Ok? {
      var started := Meeting.AfterStart(joined.result, sid, at);
      if started.Ok? {
        MeetingUnheard(s, started.result, d, names);
        CastHeard(s.(meeting := started.result), sid, Event("host_started"), d, names);
      }
      MeetingUnheard(s, joined.result, d, names);
    }
  }

  lemma MeetingUnheard(s: State, meeting: Meeting.Tables, d: Conn, names: Names)
    ensures Heard(s.(meeting := meeting).hub, d, names) == Heard(s.hub, d, names)
  {
  }

  lemma MeetingCloseHeard(s: State, sid: int, at: int, d: Conn, names: Names)
    requires Listener(s.hub, d)
    ensures Heard(MeetingClosed(s, sid, at).hub, d, names) == Heard(s.hub, d, names)
  {
    hide Hub.AfterBroadcast, Meeting.AfterEnd, Heard;
    var ended := Meeting.AfterEnd(s.meeting, sid, at);
    if ended.Ok? {
      MeetingUnheard(s, ended.result, d, names);
      CastHeard(s.(meeting := ended.result), sid, Event("meeting_ended"), d, names);
    }
  }

  lemma LeaveHeard(s: State, sid: int, c: Conn, m: Envelope, at: int, d: Conn, names: Names)
    requires Listener(s.hub, d) && m.typ == "leave" && m.WSMessage?
    ensures Heard(Left(s, sid, c, m, at).hub, d, names)
         == if d in Hub.Members(s.hub, sid) then Effect(Heard(s.hub, d, names), m) else Heard(s.hub, d, names)
  {
    hide Hub.AfterBroadcast, Hub.Without, Heard, FieldOr, Meeting.AfterLeave;
    var p, name := ParticipantOf(m), FieldOr(m.payload, "name", "");
    AnnouncementFields("user_left", p, name);
    var s1 := s.(hub := s.hub.(meta := Hub.Without(s.hub.meta, sid, c)));
    var s2 := MeetingLeft(s1, sid, c, at);
    assert s2.hub == s1.hub;
    MetaUnheard(s, s1.hub.meta, d, names);
    CastHeard(s2, sid, m, d, names);
    CastTouches(s2, sid, m);
    CastHeard(Broadcasted(s2, sid, m), sid, Announcement("user_left", p, name), d, names);
  }

  lemma FarewellHeard(s: State, c: Conn, at: int, d: Conn, names: Names)
    requires Listener(s.hub, d) && c in s.loops
    ensures Heard(Farewell(s, c, at).hub, d, names)
         == if d in Hub.Members(s.hub, s.loops[c].sid) then LeaveNames(Heard(s.hub, d, names), s.loops[c].pid) else Heard(s.hub, d, names)
  {
    hide Hub.AfterBroadcast, Heard, FieldOr, Meeting.AfterLeave, MeetingClosed, CoHostRemains;
    var l := s.loops[c];
    if l.pid != "" {
      AnnouncementFields("user_left", l.pid, l.name);
      var s1 := Broadcasted(s, l.sid, LeaveNotice(l));
      var note := Announcement("user_left", l.pid, l.name);
      CastHeard(s, l.sid, LeaveNotice(l), d, names);
      CastTouches(s, l.sid, LeaveNotice(l));
      CastHeard(s1, l.sid, note, d, names);
      CastTouches(s1, l.sid, note);
      var s3 := MeetingLeft(Broadcasted(s1, l.sid, note), l.sid, c, at);
      assert s3.hub == Broadcasted(s1, l.sid, note).hub;
      MeetingCloseHeard(s3, l.sid, at, d, names);
    }
  }

  lemma ChatHeard(s: State, sid: int, m: Envelope, d: Conn, names: Names)
    requires Listener(s.hub, d) && m.typ == "chat_message" && m.WSMessage?
    ensures Heard(Chatted(s, sid, m).hub, d, names) == Heard(s.hub, d, names)
  {
    hide Hub.AfterBroadcast, Heard, ChatStored, ChatPayload, FieldOr;
    var (chat, res) := ChatStored(s.chat, sid in s.meeting.status, sid, m);
    var s1 := s.(chat := chat);
    CastHeard(s1, sid, m.(payload := ChatPayload(m)), d, names);
  }

  lemma DispatchHeard(s: State, sid: int, c: Conn, m: Envelope, at: int, roster: seq<Hub.JoinMeta>, d: Conn, names: Names)
    requires Listener(s.hub, d) && m.WSMessage?
    ensures Heard(Dispatched(s, sid, c, m, at, roster).hub, d, names)
         == if m.typ == "join" && d == c && roster != [] then Client.NamesOf(Client.Entries(Items(roster)))
            else if d in Hub.Members(s.hub, sid) then Effect(Heard(s.hub, d, names), m)
            else Heard(s.hub, d, names)
  {
    hide Heard, Joined, Left, MeetingClosed, Chatted, Items, Client.NamesOf, Client.Entries, JoinNames, LeaveNames,
         Broadcasted, FieldOr, Meeting.CheckRole;
    if m.typ == "join" { JoinHeard(s, sid, c, m, at, roster, d, names); }
    else if m.typ == "leave" { LeaveHeard(s, sid, c, m, at, d, names); }
    else if m.typ == "end_meeting" { MeetingCloseHeard(s, sid, at, d, names); }
    else if m.typ == "chat_message" { ChatHeard(s, sid, m, d, names); }
    else { CastHeard(s, sid, m, d, names); }
  }
}
