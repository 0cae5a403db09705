// What the linked connection tables keep among themselves, in every reachable state.
module Bookkeeping {
  import opened Outcomes
  import opened Wire
  import Hub
  import Client
  import Meeting
  import opened Server
  import opened Room

  type Loops = map<Conn, Loop>

  predicate In(loops: Loops, c: Conn, sid: int) { c in loops && loops[c].sid == sid }

  /** A session is kept exactly while it has members. */
  ghost predicate SessionBook(sessions: map<int, set<Conn>>, loops: Loops) {
    && (forall sid :: sid in sessions ==> sessions[sid] != {})
    && (forall sid, c :: c in Get(sessions, sid, {}) <==> In(loops, c, sid))
  }

  /** An id as the hub stores it: not empty, and trimmed. */
  predicate Tidy(pid: string) { pid != "" && Trim(pid) == pid }

  /** Join metadata: only tidy ids, and no session without any. */
  ghost predicate TidyBook(meta: map<int, map<Conn, Hub.JoinMeta>>) {
    && (forall sid :: sid in meta ==> meta[sid] != map[])
    && (forall sid, c :: c in Get(meta, sid, map[]) ==> TidyEntry(Get(meta, sid, map[])[c]))
  }

  predicate TidyEntry(jm: Hub.JoinMeta) { Tidy(jm.pid) }

  /** Join metadata belongs to members that are tracked under a non-empty id. */
  ghost predicate MetaBook(meta: map<int, map<Conn, Hub.JoinMeta>>, loops: Loops) {
    forall sid, c :: c in Get(meta, sid, map[]) ==> Vouched(loops, c, sid)
  }

  predicate Vouched(loops: Loops, c: Conn, sid: int) { In(loops, c, sid) && loops[c].pid != "" }

  /** Roles: an entry for each member, holding the role its socket loop has last seen. */
  ghost predicate RoleBook(roles: map<int, map<Conn, string>>, loops: Loops) {
    && (forall sid :: sid in roles ==> roles[sid] != map[])
    && (forall sid, c :: c in Get(roles, sid, map[]) <==> In(loops, c, sid))
    && (forall sid, c :: c in Get(roles, sid, map[]) ==> LastRole(loops, c, Get(roles, sid, map[])[c]))
  }

  predicate LastRole(loops: Loops, c: Conn, role: string) { c in loops && loops[c].role == role }

  /** Write locks: one for each session socket and each analysis connection, also between the halves of attach and detach. */
  ghost predicate LockBook(locks: set<Conn>, analysis: set<Conn>, loops: Loops, feeds: map<Conn, FeedPhase>) {
    && locks == loops.Keys + feeds.Keys && loops.Keys !! feeds.Keys
    && (forall c :: c in analysis <==> c in feeds && feeds[c] == Attached)
  }

  ghost predicate UserBook(auth: map<Conn, int>, loops: Loops) {
    forall c :: c in auth ==> c in loops && auth[c] > 0
  }

  /** Nothing empty is kept, and every table but the join metadata speaks only about connections that are there. */
  ghost predicate Book(s: State) {
    && SessionBook(s.hub.sessions, s.loops)
    && TidyBook(s.hub.meta)
    && RoleBook(s.roles, s.loops)
    && LockBook(s.hub.locks, s.hub.analysis, s.loops, s.feeds)
    && UserBook(s.auth, s.loops)
    && s.hub.wire.Keys <= s.hub.locks
  }

  ghost predicate SystemBook(s: System) {
    Book(s.server) && s.peers.Keys == s.server.loops.Keys
  }

  /** The join metadata, too, speaks only about connections that are there. */
  ghost predicate MetaKnown(s: System) { MetaBook(s.server.hub.meta, s.server.loops) }

  /** The one message that leaves metadata nobody owns: a `join` with a real participant id from an analysis connection. */
  predicate StrayJoin(a: Action) {
    a.FeedReceive? && a.m.WSMessage? && a.m.sid > 0 && a.m.typ == "join" && Trim(a.m.participant) != ""
  }

  predicate NoStrayJoin(s: System, a: Action) { !StrayJoin(a) }

  // ---------- each table under the updates made to it ----------

  lemma SessionAdded(sessions: map<int, set<Conn>>, loops: Loops, sid: int, c: Conn, l: Loop)
    requires SessionBook(sessions, loops) && c !in loops && l.sid == sid
    ensures SessionBook(sessions[sid := Get(sessions, sid, {}) + {c}], loops[c := l])
  {
    var sessions' := sessions[sid := Get(sessions, sid, {}) + {c}];
    assert c in sessions'[sid];
    forall k, d ensures d in Get(sessions', k, {}) <==> In(loops[c := l], d, k) {
      assert d in Get(sessions, k, {}) <==> In(loops, d, k);
    }
  }

  lemma SessionDropped(h: Hub.Tables, loops: Loops, sid: int, c: Conn)
    requires SessionBook(h.sessions, loops) && In(loops, c, sid)
    ensures SessionBook(Hub.Removed(h, sid, c).sessions, loops - {c})
  {
    var sessions' := Hub.Removed(h, sid, c).sessions;
    forall k, d ensures d in Get(sessions', k, {}) <==> In(loops - {c}, d, k) {
      assert d in Get(h.sessions, k, {}) <==> In(loops, d, k);
    }
  }

  lemma WithoutEntries<V>(m: map<int, map<Conn, V>>, sid: int, c: Conn)
    ensures forall k :: Get(Hub.Without(m, sid, c), k, map[]) == if k == sid then Get(m, k, map[]) - {c} else Get(m, k, map[])
    ensures (forall k :: k in m ==> m[k] != map[]) ==> forall k :: k in Hub.Without(m, sid, c) ==> Hub.Without(m, sid, c)[k] != map[]
  {
    var none: map<Conn, V> := map[];
    assert none - {c} == none;
  }

  lemma RoleSet(roles: map<int, map<Conn, string>>, loops: Loops, c: Conn, l: Loop)
    requires RoleBook(roles, loops) && (c in loops ==> loops[c].sid == l.sid)
    ensures RoleBook(Hub.With(roles, l.sid, c, l.role), loops[c := l])
  {
    var roles' := Hub.With(roles, l.sid, c, l.role);
    assert c in roles'[l.sid];
    forall k, d ensures d in Get(roles', k, map[]) <==> In(loops[c := l], d, k) {
      assert d in Get(roles, k, map[]) <==> In(loops, d, k);
    }
    forall k, d | d in Get(roles', k, map[]) ensures LastRole(loops[c := l], d, Get(roles', k, map[])[d]) {
      assert d != c ==> d in Get(roles, k, map[]) && Get(roles', k, map[])[d] == Get(roles, k, map[])[d];
      assert d == c ==> k == l.sid;
    }
  }

  lemma RoleKept(roles: map<int, map<Conn, string>>, loops: Loops, c: Conn, l: Loop)
    requires RoleBook(roles, loops) && In(loops, c, l.sid) && loops[c].role == l.role
    ensures RoleBook(roles, loops[c := l])
  {
    forall k, d ensures d in Get(roles, k, map[]) <==> In(loops[c := l], d, k) {
      assert d in Get(roles, k, map[]) <==> In(loops, d, k);
    }
  }

  lemma RoleDropped(roles: map<int, map<Conn, string>>, loops: Loops, sid: int, c: Conn)
    requires RoleBook(roles, loops) && In(loops, c, sid)
    ensures RoleBook(Hub.Without(roles, sid, c), loops - {c})
  {
    WithoutEntries(roles, sid, c);
    var roles' := Hub.Without(roles, sid, c);
    hide Hub.Without;
    forall k, d ensures d in Get(roles', k, map[]) <==> In(loops - {c}, d, k) {
      assert d in Get(roles, k, map[]) <==> In(loops, d, k);
    }
  }

  lemma TidySet(meta: map<int, map<Conn, Hub.JoinMeta>>, sid: int, c: Conn, pid: string, name: string)
    requires TidyBook(meta) && Tidy(pid)
    ensures TidyBook(Hub.With(meta, sid, c, Hub.JoinMeta(pid, name)))
  {
    hide Tidy;
    var meta' := Hub.With(meta, sid, c, Hub.JoinMeta(pid, name));
    assert c in meta'[sid];
    forall k, d | d in Get(meta', k, map[]) ensures TidyEntry(Get(meta', k, map[])[d]) {
      assert !(k == sid && d == c) ==> d in Get(meta, k, map[]) && Get(meta', k, map[])[d] == Get(meta, k, map[])[d];
    }
  }

  lemma TidyDropped(meta: map<int, map<Conn, Hub.JoinMeta>>, sid: int, c: Conn)
    requires TidyBook(meta)
    ensures TidyBook(Hub.Without(meta, sid, c))
  {
    WithoutEntries(meta, sid, c);
    var meta' := Hub.Without(meta, sid, c);
    hide Hub.Without, Tidy;
    forall k, d | d in Get(meta', k, map[]) ensures TidyEntry(Get(meta', k, map[])[d]) {
      assert d in Get(meta, k, map[]) && Get(meta', k, map[])[d] == Get(meta, k, map[])[d];
    }
  }

  lemma TidyAfter(h: Hub.Tables, sid: int, c: Conn, m: Envelope)
    requires TidyBook(h.meta)
    ensures TidyBook(MetaAfter(h, sid, c, m))
  {
    TrimTwice(ParticipantOf(m));
    var pid := Trim(ParticipantOf(m));
    assert pid != "" ==> Tidy(pid);
    hide Tidy, TidyBook, Trim, Hub.With, Hub.Without;
    if m.typ == "leave" {
      TidyDropped(h.meta, sid, c);
    } else if m.typ == "join" && pid != "" {
      TidySet(h.meta, sid, c, pid, FieldOr(m.payload, "name", ""));
    }
  }

  lemma MetaSet(meta: map<int, map<Conn, Hub.JoinMeta>>, loops: Loops, sid: int, c: Conn, jm: Hub.JoinMeta)
    requires MetaBook(meta, loops) && Vouched(loops, c, sid)
    ensures MetaBook(Hub.With(meta, sid, c, jm), loops)
  {
    var meta' := Hub.With(meta, sid, c, jm);
    forall k, d | d in Get(meta', k, map[]) && !(k == sid && d == c) ensures d in Get(meta, k, map[]) {
    }
  }

  lemma MetaDropped(meta: map<int, map<Conn, Hub.JoinMeta>>, loops: Loops, sid: int, c: Conn, loops': Loops)
    requires MetaBook(meta, loops) && In(loops, c, sid)
    requires loops' - {c} == loops - {c}
    ensures MetaBook(Hub.Without(meta, sid, c), loops')
  {
    WithoutEntries(meta, sid, c);
    var meta' := Hub.Without(meta, sid, c);
    hide Hub.Without;
    forall d | d in loops && d != c ensures d in loops' && loops'[d] == loops[d] {
      assert d in loops - {c} && (loops' - {c})[d] == (loops - {c})[d];
    }
    forall k, d | d in Get(meta', k, map[]) ensures Vouched(loops', d, k) {
      assert d in Get(meta, k, map[]);
      assert Vouched(loops, d, k);
    }
  }

  /** Metadata stays vouched for under a change of loop variables that forgets no id. */
  lemma MetaKept(meta: map<int, map<Conn, Hub.JoinMeta>>, loops: Loops, loops': Loops)
    requires MetaBook(meta, loops)
    requires forall c :: c in loops ==> In(loops', c, loops[c].sid) && (loops[c].pid != "" ==> loops'[c].pid != "")
    ensures MetaBook(meta, loops')
  {
    forall sid, c | c in Get(meta, sid, map[]) ensures Vouched(loops', c, sid) {
      assert Vouched(loops, c, sid);
    }
  }

  // ---------- each kind of step ----------

  lemma ConnectKeepsBook(s: State, c: Conn, sid: int, user: int)
    requires Book(s) && Unused(s, c)
    ensures Book(Connected(s, c, sid, user))
  {
    hide SessionBook, RoleBook, TidyBook;
    var l := Loop(sid, "", "", "");
    SessionAdded(s.hub.sessions, s.loops, sid, c, l);
    RoleSet(s.roles, s.loops, c, l);
  }

  lemma NoteKeepsRoles(s: State, c: Conn, m: Envelope)
    requires Book(s) && c in s.loops
    ensures RoleBook(Noted(s, c, m).roles, Noted(s, c, m).loops)
  {
    hide RoleBook, SessionBook, TidyBook, LockBook, UserBook;
    var l := Tracked(s.loops[c], m);
    if m.typ == "join" && TextField(m.payload, "role").Some? {
      RoleSet(s.roles, s.loops, c, l);
    } else {
      RoleKept(s.roles, s.loops, c, l);
    }
  }

  lemma TrackedKeepsOthers(s: State, c: Conn, m: Envelope)
    requires SessionBook(s.hub.sessions, s.loops) && UserBook(s.auth, s.loops) && c in s.loops
    ensures SessionBook(s.hub.sessions, Noted(s, c, m).loops) && UserBook(s.auth, Noted(s, c, m).loops)
    ensures Noted(s, c, m).loops.Keys == s.loops.Keys
  {
    hide FieldOr, TextField;
    forall sid, d ensures d in Get(s.hub.sessions, sid, {}) <==> In(Noted(s, c, m).loops, d, sid) {
      assert d in Get(s.hub.sessions, sid, {}) <==> In(s.loops, d, sid);
    }
  }

  lemma ReceiveKeepsBook(s: State, c: Conn, m: Envelope, at: int, roster: seq<Hub.JoinMeta>)
    requires Book(s) && c in s.loops
    ensures Book(Received(s, c, m, at, roster))
  {
    hide Dispatched, MetaAfter, SessionBook, RoleBook, TidyBook, UserBook, Tracked;
    DispatchTouches(Noted(s, c, m), s.loops[c].sid, c, m, at, roster);
    TrackedKeepsOthers(s, c, m);
    TidyAfter(Noted(s, c, m).hub, s.loops[c].sid, c, m);
    NoteKeepsRoles(s, c, m);
  }

  lemma FeedKeepsBook(s: State, c: Conn, m: Envelope, at: int, roster: seq<Hub.JoinMeta>)
    requires Book(s)
    ensures Book(FeedReceived(s, c, m, at, roster))
  {
    hide Dispatched, MetaAfter, SessionBook, RoleBook, UserBook, TidyBook;
    if m.WSMessage? && m.sid > 0 {
      DispatchTouches(s, m.sid, c, m, at, roster);
      TidyAfter(s.hub, m.sid, c, m);
    }
  }

  lemma DisconnectKeepsBook(s: State, c: Conn, at: int)
    requires Book(s) && c in s.loops
    ensures Book(Disconnected(s, c, at))
  {
    hide Farewell, SessionBook, RoleBook, TidyBook, Hub.Without;
    var sid := s.loops[c].sid;
    var s1 := Farewell(s.(roles := Hub.Without(s.roles, sid, c)), c, at);
    FarewellTouches(s.(roles := Hub.Without(s.roles, sid, c)), c, at);
    SessionDropped(s1.hub, s.loops, sid, c);
    RoleDropped(s.roles, s.loops, sid, c);
    TidyDropped(s.hub.meta, sid, c);
  }

  lemma DeliverKeepsBook(s: System, a: Action)
    requires SystemBook(s) && Enabled(s, a) && a.Deliver?
    ensures SystemBook(Step(s, a))
  {
    hide Client.Reduced, SessionBook, RoleBook, TidyBook, UserBook;
  }

  /** The halves of attach and detach touch the locks, the subscribers and the feeds only, and drop the wire of a lock they drop. */
  lemma PhaseShape(s: System, a: Action)
    requires Enabled(s, a) && (a.AttachLock? || a.AttachConn? || a.DetachConn? || a.DetachLock?)
    ensures var h, h2 := s.server.hub, Step(s, a).server.hub;
      && Step(s, a).peers == s.peers && Step(s, a).server.loops == s.server.loops
      && Step(s, a).server.roles == s.server.roles && Step(s, a).server.auth == s.server.auth
      && h2.sessions == h.sessions && h2.meta == h.meta
      && h2.wire.Keys == if a.DetachLock? then h.wire.Keys - {a.c} else h.wire.Keys
  {
    hide Received, Disconnected, FeedReceived, Connected, Read, RosterFits, Client.Reduced;
  }

  /** Between the halves of attach and detach, too, every subscriber has a write lock, and nothing waits on a wire without one. */
  lemma PhaseKeepsLocks(s: System, a: Action)
    requires LockBook(s.server.hub.locks, s.server.hub.analysis, s.server.loops, s.server.feeds)
    requires s.server.hub.wire.Keys <= s.server.hub.locks
    requires Enabled(s, a) && (a.AttachLock? || a.AttachConn? || a.DetachConn? || a.DetachLock?)
    ensures var t := Step(s, a).server; LockBook(t.hub.locks, t.hub.analysis, t.loops, t.feeds) && t.hub.wire.Keys <= t.hub.locks
  {
    hide Received, Disconnected, FeedReceived, Connected, Read, RosterFits, Client.Reduced;
  }

  lemma PhaseKeepsBook(s: System, a: Action)
    requires SystemBook(s) && Enabled(s, a)
    requires a.AttachLock? || a.AttachConn? || a.DetachConn? || a.DetachLock?
    ensures SystemBook(Step(s, a))
  {
    hide Step, Enabled, SessionBook, RoleBook, TidyBook, UserBook, LockBook;
    PhaseShape(s, a);
    PhaseKeepsLocks(s, a);
  }

  /** The books survive every step, whatever anybody sends. */
  lemma BookStep(s: System, a: Action)
    requires SystemBook(s) && Enabled(s, a)
    ensures SystemBook(Step(s, a))
  {
    hide Dispatched, Farewell, Trim, Book;
    match a
    case Connect(c, sid, user, _, _) =>
      ConnectKeepsBook(s.server, c, sid, user);
    case Receive(c, m, at, roster) =>
      ReceiveKeepsBook(s.server, c, m, at, roster);
      DispatchTouches(Noted(s.server, c, m), s.server.loops[c].sid, c, m, at, roster);
    case Disconnect(c, at) =>
      DisconnectKeepsBook(s.server, c, at);
      FarewellTouches(s.server.(roles := Hub.Without(s.server.roles, s.server.loops[c].sid, c)), c, at);
    case FeedReceive(c, m, at, roster) =>
      FeedKeepsBook(s.server, c, m, at, roster);
      DispatchTouches(s.server, m.sid, c, m, at, roster);
    case Deliver(_) =>
      DeliverKeepsBook(s, a);
    case _ =>
      PhaseKeepsBook(s, a);
  }

  /** In every reachable state the books are in order. */
  lemma {:induction false} BookAlways(status: map<int, Meeting.Status>, acts: seq<Action>)
    requires Run(Start(status), acts).Some?
    ensures SystemBook(Run(Start(status), acts).value)
  {
    if acts == [] {
      StartBook(status);
    } else {
      var n := |acts| - 1;
      BookAlways(status, acts[..n]);
      BookStep(Run(Start(status), acts[..n]).value, acts[n]);
    }
  }

  lemma StartBook(status: map<int, Meeting.Status>)
    ensures SystemBook(Start(status)) && MetaKnown(Start(status))
  {
  }

  // ---------- who owns the join metadata ----------

  lemma MetaAfterReceive(s: State, c: Conn, m: Envelope)
    requires MetaBook(s.hub.meta, s.loops) && c in s.loops && m.WSMessage?
    ensures MetaBook(MetaAfter(s.hub, s.loops[c].sid, c, m), Noted(s, c, m).loops)
  {
    var sid, loops := s.loops[c].sid, Noted(s, c, m).loops;
    var pid := Trim(m.participant);
    assert pid != "" ==> m.participant != "";
    hide Trim, MetaBook;
    if m.typ == "leave" {
      assert loops - {c} == s.loops - {c};
      MetaDropped(s.hub.meta, s.loops, sid, c, loops);
    } else {
      MetaKept(s.hub.meta, s.loops, loops);
      if m.typ == "join" && pid != "" {
        MetaSet(s.hub.meta, loops, sid, c, Hub.JoinMeta(pid, FieldOr(m.payload, "name", "")));
      }
    }
  }

  lemma MetaAfterFeed(s: State, c: Conn, m: Envelope)
    requires MetaBook(s.hub.meta, s.loops) && c !in s.loops && m.WSMessage?
    ensures MetaBook(MetaAfter(s.hub, m.sid, c, m), s.loops) <==> !(m.typ == "join" && Trim(m.participant) != "")
  {
    hide Trim, FieldOr;
    var meta := Get(s.hub.meta, m.sid, map[]);
    assert c !in meta;
    if m.typ == "leave" {
      assert meta - {c} == meta;
      WithoutEntries(s.hub.meta, m.sid, c);
      hide Hub.Without;
    } else if m.typ == "join" && Trim(m.participant) != "" {
      assert c in Get(MetaAfter(s.hub, m.sid, c, m), m.sid, map[]);
    }
  }

  /** Everybody's metadata stays vouched for over a step if and only if it is not a stray join. */
  lemma MetaExactly(s: System, a: Action)
    requires SystemBook(s) && MetaKnown(s) && Enabled(s, a)
    ensures MetaKnown(Step(s, a)) <==> !StrayJoin(a)
  {
    hide Dispatched, Farewell, Trim, SessionBook, RoleBook, UserBook, TidyBook, MetaBook, MetaAfter, RosterFits;
    match a
    case Connect(c, sid, user, _, _) =>
      MetaKept(s.server.hub.meta, s.server.loops, s.server.loops[c := Loop(sid, "", "", "")]);
    case Receive(c, m, at, roster) =>
      DispatchTouches(Noted(s.server, c, m), s.server.loops[c].sid, c, m, at, roster);
      MetaAfterReceive(s.server, c, m);
    case Disconnect(c, at) =>
      var sid := s.server.loops[c].sid;
      FarewellTouches(s.server.(roles := Hub.Without(s.server.roles, sid, c)), c, at);
      assert s.server.loops - {c} - {c} == s.server.loops - {c};
      MetaDropped(s.server.hub.meta, s.server.loops, sid, c, s.server.loops - {c});
    case FeedReceive(c, m, at, roster) =>
      DispatchTouches(s.server, m.sid, c, m, at, roster);
      MetaAfterFeed(s.server, c, m);
    case _ =>
  }

  /** In every state reachable without a stray join all metadata has its owner. */
  lemma {:induction false} MetaAlways(status: map<int, Meeting.Status>, acts: seq<Action>)
    requires Run(Start(status), acts).Some? && Throughout(Start(status), acts, NoStrayJoin)
    ensures MetaKnown(Run(Start(status), acts).value)
  {
    if acts == [] {
      StartBook(status);
    } else {
      var n := |acts| - 1;
      MetaAlways(status, acts[..n]);
      BookAlways(status, acts[..n]);
      MetaExactly(Run(Start(status), acts[..n]).value, acts[n]);
    }
  }

  /** Once its last connection has gone, no table mentions a session; and no table mentions a connection that has gone. */
  lemma GoneIsForgotten(s: State, sid: int, gone: Conn)
    requires Book(s) && MetaBook(s.hub.meta, s.loops)
    ensures (forall c :: !In(s.loops, c, sid)) ==>
              sid !in s.hub.sessions && sid !in s.hub.meta && sid !in s.roles
    ensures gone !in s.loops && gone !in s.feeds ==>
              && gone !in s.hub.locks && gone !in s.hub.analysis && gone !in s.auth && gone !in s.hub.wire
              && forall k :: gone !in Hub.Members(s.hub, k) && gone !in Hub.MetaOf(s.hub, k) && gone !in Get(s.roles, k, map[])
  {
    hide Trim;
    if sid in s.hub.sessions { EmptySession(s.hub.sessions, s.loops, sid); }
    if sid in s.hub.meta {
      var c :| c in s.hub.meta[sid];
      assert c in Get(s.hub.meta, sid, map[]);
      assert Vouched(s.loops, c, sid);
    }
    if sid in s.roles {
      var c :| c in s.roles[sid];
      assert c in Get(s.roles, sid, map[]);
    }
  }

  lemma EmptySession(sessions: map<int, set<Conn>>, loops: Loops, sid: int)
    requires SessionBook(sessions, loops) && sid in sessions
    ensures exists c :: In(loops, c, sid)
  {
    var c :| c in sessions[sid];
    assert c in Get(sessions, sid, {});
  }
}
