// Replica agreement over whole runs: exactly which steps keep it, and a discipline under which all do.
module Replicas {
  import opened Outcomes
  import opened Wire
  import Hub
  import Client
  import Meeting
  import opened Server
  import opened Room
  import opened Bookkeeping
  import opened Agreement

  function MetaEffect(meta: Meta, c: Conn, m: Envelope): Meta {
    if m.typ == "join" then WithMember(meta, c, ParticipantOf(m), FieldOr(m.payload, "name", ""))
    else if m.typ == "leave" then meta - {c}
    else meta
  }

  ghost predicate TidyMeta(meta: Meta) {
    forall c :: c in meta ==> Tidy(meta[c].pid)
  }

  lemma BookTidy(s: State, sid: int)
    requires TidyBook(s.hub.meta)
    ensures TidyMeta(Hub.MetaOf(s.hub, sid)) && AllNamed(Hub.MetaOf(s.hub, sid))
  {
    hide Trim;
    forall c | c in Hub.MetaOf(s.hub, sid) ensures Tidy(Hub.MetaOf(s.hub, sid)[c].pid) {
      assert c in Get(s.hub.meta, sid, map[]);
    }
  }

  lemma EffectExactly(meta: Meta, names: Names, c: Conn, m: Envelope)
    requires Mirrors(meta, names) && TidyMeta(meta) && m.WSMessage?
    ensures Mirrors(MetaEffect(meta, c, m), Effect(names, m)) <==> MessageOk(meta, c, m)
  {
    hide Mirrors, JoinNames, LeaveNames, WithMember, JoinOk, LeaveOk, RelayOk, Client.Renamed, Trim, FieldOr;
    if m.typ == "join" { JoinExactly(meta, names, c, ParticipantOf(m), FieldOr(m.payload, "name", "")); }
    else if m.typ == "leave" { LeaveExactly(meta, names, c, ParticipantOf(m)); }
    else if m.typ != "end_meeting" && m.typ != "chat_message" { RelayExactly(meta, names, m); }
  }

  lemma EffectConsistent(meta: Meta, c: Conn, m: Envelope)
    requires Consistent(meta) && AllNamed(meta) && MessageOk(meta, c, m)
    ensures Consistent(MetaEffect(meta, c, m))
  {
    hide Shown, FieldOr, RelayOk, LeaveOk, Trim;
    assert m.typ == "join" && ParticipantOf(m) == "" ==> MetaEffect(meta, c, m) == meta by { TrimOfEmpty(); }
  }

  lemma TrimOfEmpty()
    ensures Trim("") == ""
  {
  }

  lemma MetaOfDispatch(s: State, sid: int, c: Conn, m: Envelope, at: int, roster: seq<Hub.JoinMeta>, k: int)
    ensures Hub.MetaOf(Dispatched(s, sid, c, m, at, roster).hub, k)
         == if k == sid then MetaEffect(Hub.MetaOf(s.hub, k), c, m) else Hub.MetaOf(s.hub, k)
  {
    DispatchTouches(s, sid, c, m, at, roster);
    WithoutEntries(s.hub.meta, sid, c);
    hide Dispatched, Hub.Without, FieldOr, Trim;
  }

  /** One message dispatched into a session, seen by one of its members. */
  lemma SpokenExactly(s: State, sid: int, c: Conn, m: Envelope, at: int, roster: seq<Hub.JoinMeta>, d: Conn, names: Names)
    requires m.WSMessage? && Listener(s.hub, d) && d in Hub.Members(s.hub, sid)
    requires TidyMeta(Hub.MetaOf(s.hub, sid))
    requires Mirrors(Hub.MetaOf(s.hub, sid), Heard(s.hub, d, names))
    requires !(m.typ == "join" && d == c && roster != [])
    ensures Mirrors(Hub.MetaOf(Dispatched(s, sid, c, m, at, roster).hub, sid), Heard(Dispatched(s, sid, c, m, at, roster).hub, d, names))
       <==> MessageOk(Hub.MetaOf(s.hub, sid), c, m)
  {
    hide Dispatched, Mirrors, Heard, MessageOk, Effect, MetaEffect, Trim;
    MetaOfDispatch(s, sid, c, m, at, roster, sid);
    DispatchHeard(s, sid, c, m, at, roster, d, names);
    EffectExactly(Hub.MetaOf(s.hub, sid), Heard(s.hub, d, names), c, m);
  }

  /** The sender of a join is sent the roster that results from it. */
  lemma JoinerMirrors(s: State, sid: int, c: Conn, m: Envelope, at: int, roster: seq<Hub.JoinMeta>, names: Names)
    requires m.WSMessage? && m.typ == "join" && roster != [] && Listener(s.hub, c)
    requires RosterFits(s, sid, c, m, roster) && TidyMeta(Hub.MetaOf(s.hub, sid))
    requires Consistent(MetaEffect(Hub.MetaOf(s.hub, sid), c, m))
    ensures Mirrors(Hub.MetaOf(Dispatched(s, sid, c, m, at, roster).hub, sid), Heard(Dispatched(s, sid, c, m, at, roster).hub, c, names))
  {
    var meta := MetaEffect(Hub.MetaOf(s.hub, sid), c, m);
    assert meta == Get(MetaAfterJoin(s.hub, sid, c, m), sid, map[]) && AllNamed(meta) by {
      hide Trim, FieldOr, Consistent, Dispatched, Hub.IsSnapshot;
    }
    hide Dispatched, Mirrors, Heard, MetaEffect, MetaAfterJoin, Trim, Hub.IsSnapshot, Consistent, Items,
         Client.NamesOf, Client.Entries, Effect, FieldOr;
    MetaOfDispatch(s, sid, c, m, at, roster, sid);
    DispatchHeard(s, sid, c, m, at, roster, c, names);
    SnapshotMirrors(meta, roster);
  }

  // ---------- steps of the whole system ----------

  lemma BookListener(s: System, d: Conn)
    requires SystemBook(s) && d in s.peers
    ensures Listener(s.server.hub, d) && d in s.server.loops
    ensures forall sid :: d in Hub.Members(s.server.hub, sid) <==> s.server.loops[d].sid == sid
  {
    hide RoleBook, TidyBook, UserBook;
  }

  /** The part of a step that is a message being dispatched, and the state it is dispatched in. */
  function Spoken(s: System, a: Action): State
    requires a.Receive? ==> a.c in s.server.loops
  {
    if a.Receive? then Noted(s.server, a.c, a.m) else s.server
  }

  lemma ReceiveWatched(s: System, a: Action, d: Conn)
    requires SystemBook(s) && Enabled(s, a) && (a.Receive? || a.FeedReceive?)
    requires Scope(s, a).Some? && d in s.peers && Faithful(s, d)
    requires !(a.m.typ == "join" && d == a.c && a.roster != [])
    ensures d in Step(s, a).peers && d in Step(s, a).server.loops
    ensures if s.server.loops[d].sid == Scope(s, a).value then Faithful(Step(s, a), d) <==> StepOk(s, a) else Faithful(Step(s, a), d)
  {
    hide Dispatched, Mirrors, Heard, MessageOk, Effect, MetaEffect, Trim, Client.RenamedBy, SessionBook, RoleBook,
         LockBook, UserBook, TidyBook, Tracked, RosterFits;
    var sid, s0, names := Scope(s, a).value, Spoken(s, a), Client.Names(s.peers[d].view);
    BookListener(s, d);
    assert s0.hub == s.server.hub;
    BookTidy(s.server, sid);
    DispatchTouches(s0, sid, a.c, a.m, a.at, a.roster);
    var k := s.server.loops[d].sid;
    TrackedSid(s.server, a);
    if k == sid {
      SpokenExactly(s0, sid, a.c, a.m, a.at, a.roster, d, names);
    } else {
      MetaOfDispatch(s0, sid, a.c, a.m, a.at, a.roster, k);
      DispatchHeard(s0, sid, a.c, a.m, a.at, a.roster, d, names);
    }
  }

  lemma TrackedSid(s: State, a: Action)
    requires a.Receive? ==> a.c in s.loops
    ensures a.Receive? ==> Noted(s, a.c, a.m).loops.Keys == s.loops.Keys
    ensures a.Receive? ==> forall d :: d in s.loops ==> Noted(s, a.c, a.m).loops[d].sid == s.loops[d].sid
  {
    hide FieldOr, TextField;
  }

  lemma JoinerWatched(s: System, a: Action)
    requires SystemBook(s) && Enabled(s, a) && a.Receive? && a.m.typ == "join" && a.roster != []
    requires Consistent(MetaEffect(Hub.MetaOf(s.server.hub, s.server.loops[a.c].sid), a.c, a.m))
    ensures a.c in Step(s, a).peers && a.c in Step(s, a).server.loops && Faithful(Step(s, a), a.c)
  {
    hide Dispatched, Mirrors, Heard, MetaEffect, Trim, Client.RenamedBy, SessionBook, RoleBook, LockBook, UserBook,
         TidyBook, Tracked, RosterFits, Consistent;
    var sid, s0 := s.server.loops[a.c].sid, Spoken(s, a);
    BookListener(s, a.c);
    BookTidy(s.server, sid);
    TrackedSid(s.server, a);
    DispatchTouches(s0, sid, a.c, a.m, a.at, a.roster);
    assert RosterFits(s0, sid, a.c, a.m, a.roster) by { NotedFits(s.server, sid, a.c, a.m, a.roster); }
    JoinerMirrors(s0, sid, a.c, a.m, a.at, a.roster, Client.Names(s.peers[a.c].view));
  }

  lemma NotedFits(s: State, sid: int, c: Conn, m: Envelope, roster: seq<Hub.JoinMeta>)
    requires c in s.loops
    ensures RosterFits(s, sid, c, m, roster) <==> RosterFits(Noted(s, c, m), sid, c, m, roster)
  {
    hide Trim, FieldOr, Hub.IsSnapshot, Tracked;
  }

  lemma DisconnectWatched(s: System, a: Action, d: Conn)
    requires SystemBook(s) && Enabled(s, a) && a.Disconnect? && d in s.peers && d != a.c && Faithful(s, d)
    ensures d in Step(s, a).peers && d in Step(s, a).server.loops
    ensures if s.server.loops[d].sid == s.server.loops[a.c].sid then Faithful(Step(s, a), d) <==> StepOk(s, a) else Faithful(Step(s, a), d)
  {
    hide Farewell, Mirrors, Client.RenamedBy, LeaveOk, Hub.Without, LeaveNames, SessionBook, RoleBook, LockBook,
         UserBook, TidyBook;
    var c, sid, k := a.c, s.server.loops[a.c].sid, s.server.loops[d].sid;
    var s1 := s.server.(roles := Hub.Without(s.server.roles, sid, c));
    var names := Client.Names(s.peers[d].view);
    BookListener(s, d);
    FarewellTouches(s1, c, a.at);
    FarewellHeard(s1, c, a.at, d, names);
    WithoutEntries(s.server.hub.meta, sid, c);
    BookTidy(s.server, sid);
    var t := Step(s, a);
    assert Future(t, d) == Heard(Farewell(s1, c, a.at).hub, d, names);
    assert Hub.MetaOf(t.server.hub, k) == if k == sid then Hub.MetaOf(s.server.hub, k) - {c} else Hub.MetaOf(s.server.hub, k);
    if k == sid {
      LeaveExactly(Hub.MetaOf(s.server.hub, sid), Future(s, d), c, s.server.loops[c].pid);
    }
  }

  lemma QuietWatched(s: System, a: Action, d: Conn)
    requires SystemBook(s) && Enabled(s, a) && Scope(s, a).None? && d in s.peers && Faithful(s, d)
    ensures d in Step(s, a).peers && d in Step(s, a).server.loops && Faithful(Step(s, a), d)
  {
    hide Dispatched, Mirrors, Client.RenamedBy, SessionBook, RoleBook, UserBook, TidyBook, Client.Reduced, Hub.With,
         RosterFits;
    BookListener(s, d);
    if a.Deliver? && a.c == d {
      Client.ReducedNames(s.peers[d].view, Hub.Unread(s.server.hub, d)[0]);
      Client.RenamedByHead(Client.Names(s.peers[d].view), Hub.Unread(s.server.hub, d));
    }
  }

  /**
    For a browser that was on its way to the roster: it still is after a step in its session exactly when the
    step meets its condition. (The sender of a join starts afresh from the roster it is sent.)
  */
  lemma StepExactly(s: System, a: Action, d: Conn)
    requires SystemBook(s) && Enabled(s, a)
    requires d in s.peers && d in s.server.loops && Faithful(s, d)
    requires !(a.Disconnect? && a.c == d) && !(a.Receive? && a.c == d && a.m.typ == "join" && a.roster != [])
    ensures d in Step(s, a).peers && d in Step(s, a).server.loops
    ensures if Scope(s, a) == Some(s.server.loops[d].sid) then Faithful(Step(s, a), d) <==> StepOk(s, a) else Faithful(Step(s, a), d)
  {
    hide Step, Faithful, SystemBook, StepOk, Enabled;
    if Scope(s, a).None? { QuietWatched(s, a, d); }
    else if a.Disconnect? { DisconnectWatched(s, a, d); }
    else {
      if a.FeedReceive? { FeedNotPeer(s, a); }
      ReceiveWatched(s, a, d);
    }
  }

  lemma FeedNotPeer(s: System, a: Action)
    requires SystemBook(s) && Enabled(s, a) && a.FeedReceive?
    ensures a.c !in s.peers
  {
    hide SessionBook, RoleBook, UserBook, TidyBook, RosterFits;
  }

  lemma ConsistencyKept(s: System, a: Action, sid: int)
    requires SystemBook(s) && Enabled(s, a) && StepOk(s, a)
    requires forall k :: Consistent(Hub.MetaOf(s.server.hub, k))
    ensures Consistent(Hub.MetaOf(Step(s, a).server.hub, sid))
  {
    hide Dispatched, Farewell, SessionBook, RoleBook, LockBook, UserBook, TidyBook, Client.Reduced, Hub.With,
         Hub.Without, RosterFits, Consistent, MetaEffect, MessageOk, Tracked;
    BookTidy(s.server, sid);
    if a.Receive? || (a.FeedReceive? && Scope(s, a).Some?) {
      var s0, k := Spoken(s, a), Scope(s, a).value;
      MetaOfDispatch(s0, k, a.c, a.m, a.at, a.roster, sid);
      if sid == k { EffectConsistent(Hub.MetaOf(s.server.hub, sid), a.c, a.m); }
    } else if a.Disconnect? {
      var k := s.server.loops[a.c].sid;
      FarewellTouches(s.server.(roles := Hub.Without(s.server.roles, k, a.c)), a.c, a.at);
      WithoutEntries(s.server.hub.meta, k, a.c);
      LessIsConsistent(Hub.MetaOf(s.server.hub, sid), a.c);
    }
  }

  lemma LessIsConsistent(meta: Meta, c: Conn)
    requires Consistent(meta)
    ensures Consistent(meta - {c})
  {
  }

  /** Agreement is kept by every step that meets its condition. */
  lemma AgreedStep(s: System, a: Action)
    requires SystemBook(s) && Enabled(s, a) && StepOk(s, a) && Agreed(s)
    ensures Agreed(Step(s, a))
  {
    hide SystemBook, StepOk, Mirrors, Consistent, RosterFits, Dispatched, Farewell, Client.Reduced, Hub.With,
         Hub.Without, MetaEffect, Heard;
    var t := Step(s, a);
    forall sid ensures Consistent(Hub.MetaOf(t.server.hub, sid)) { ConsistencyKept(s, a, sid); }
    forall d | Watching(t, d) ensures Faithful(t, d) {
      PeersAfter(s, a, d);
      if a.Receive? && a.c == d && a.m.typ == "join" && a.roster != [] {
        JoinerConsistent(s, a);
        JoinerWatched(s, a);
      } else {
        assert Faithful(s, d);
        StepExactly(s, a, d);
      }
    }
  }

  lemma JoinerConsistent(s: System, a: Action)
    requires Enabled(s, a) && StepOk(s, a) && a.Receive? && SystemBook(s)
    requires forall k :: Consistent(Hub.MetaOf(s.server.hub, k))
    ensures Consistent(MetaEffect(Hub.MetaOf(s.server.hub, s.server.loops[a.c].sid), a.c, a.m))
  {
    hide Consistent, MetaEffect, MessageOk, RosterFits, SessionBook, RoleBook, LockBook, UserBook, TidyBook;
    BookTidy(s.server, s.server.loops[a.c].sid);
    EffectConsistent(Hub.MetaOf(s.server.hub, s.server.loops[a.c].sid), a.c, a.m);
  }

  /** A browser that is synced after a step was so before, or has just been sent its roster. */
  lemma PeersAfter(s: System, a: Action, d: Conn)
    requires SystemBook(s) && Enabled(s, a) && Watching(Step(s, a), d)
    ensures !(a.Disconnect? && a.c == d)
    ensures Watching(s, d) || (a.Receive? && a.c == d && a.m.typ == "join" && a.roster != [])
  {
    hide Dispatched, Farewell, Client.Reduced, Hub.With, Hub.Without, Book, RosterFits;
  }

  /** Replica agreement in every state reachable by steps that meet their conditions. */
  lemma {:induction false} AlwaysAgreed(status: map<int, Meeting.Status>, acts: seq<Action>)
    requires Run(Start(status), acts).Some? && Throughout(Start(status), acts, StepOk)
    ensures SystemBook(Run(Start(status), acts).value) && Agreed(Run(Start(status), acts).value)
  {
    hide Step, StepOk, Agreed, SystemBook;
    if acts == [] {
      StartBook(status);
      StartAgreed(status);
    } else {
      var n := |acts| - 1;
      AlwaysAgreed(status, acts[..n]);
      BookStep(Run(Start(status), acts[..n]).value, acts[n]);
      AgreedStep(Run(Start(status), acts[..n]).value, acts[n]);
    }
  }

  lemma StartAgreed(status: map<int, Meeting.Status>)
    ensures Agreed(Start(status))
  {
  }

  /** A browser that has read everything on its socket shows exactly the server's roster. */
  lemma CaughtUp(s: System, d: Conn)
    requires Agreed(s) && Watching(s, d) && Hub.Unread(s.server.hub, d) == []
    ensures Mirrors(Hub.MetaOf(s.server.hub, s.server.loops[d].sid), Client.Names(s.peers[d].view))
  {
  }

  // ---------- one id per browser ----------

  function Ids(peers: map<Conn, Peer>): map<Conn, string> {
    map c | c in peers :: peers[c].pid
  }

  /** Ids are tidy, and a socket is tracked under its own id or none. */
  ghost predicate OwnTracked(ids: map<Conn, string>, loops: Loops) {
    && (forall c :: c in ids ==> Tidy(ids[c]))
    && (forall c :: c in loops ==> c in ids && loops[c].pid in {"", ids[c]})
  }

  predicate SameSession(loops: Loops, c: Conn, d: Conn) {
    c in loops && d in loops && loops[c].sid == loops[d].sid
  }

  ghost predicate OwnDistinct(ids: map<Conn, string>, loops: Loops) {
    forall c, d :: SameSession(loops, c, d) && c != d && c in ids && d in ids ==> ids[c] != ids[d]
  }

  ghost predicate OwnMeta(ids: map<Conn, string>, meta: Meta) {
    forall c :: c in meta ==> c in ids && meta[c].pid == ids[c]
  }

  /** The tables as they are when every browser speaks under the one id it was opened with. */
  ghost predicate OwnIds(s: System) {
    && OwnTracked(Ids(s.peers), s.server.loops)
    && OwnDistinct(Ids(s.peers), s.server.loops)
    && (forall sid :: OwnMeta(Ids(s.peers), Hub.MetaOf(s.server.hub, sid)))
  }

  /**
    A browser opens its socket with an id no other live socket of the session uses, and says everything under it;
    nobody relays messages that look like the server's own; an analysis connection neither joins nor leaves.
  */
  ghost predicate Polite(s: System, a: Action) {
    match a
    case Connect(c, sid, _, pid, _) =>
      Tidy(pid) && forall d :: d in s.peers && d in s.server.loops && s.server.loops[d].sid == sid ==> s.peers[d].pid != pid
    case Receive(c, m, _, _) =>
      && c in s.peers
      && m.typ !in {"user_joined", "user_left", "participants_snapshot"}
      && (ParticipantOf(m) == s.peers[c].pid || (ParticipantOf(m) == "" && m.typ !in {"join", "leave"}))
    case FeedReceive(c, m, _, _) => !Client.Membership(m.typ)
    case _ => true
  }

  lemma PoliteIsOk(s: System, a: Action)
    requires SystemBook(s) && MetaKnown(s) && Enabled(s, a) && OwnIds(s) && Polite(s, a)
    ensures StepOk(s, a) && !StrayJoin(a)
  {
    hide MessageOk, LeaveOk, OwnTracked, OwnDistinct, OwnMeta, Trim, FieldOr, RosterFits, SessionBook, RoleBook,
         LockBook, UserBook, MetaBook, TidyBook;
    var scope := Scope(s, a);
    if scope.Some? {
      var meta := Hub.MetaOf(s.server.hub, scope.value);
      MetaBelongs(s.server, scope.value);
      if a.FeedReceive? { PoliteRelay(meta, a.c, a.m); }
      else if a.Receive? { PoliteWords(meta, Ids(s.peers), s.server.loops, scope.value, a.c, a.m); }
      else { PoliteGoodbye(meta, Ids(s.peers), s.server.loops, scope.value, a.c); }
    }
  }

  lemma MetaBelongs(s: State, sid: int)
    requires MetaBook(s.hub.meta, s.loops)
    ensures forall d :: d in Hub.MetaOf(s.hub, sid) ==> In(s.loops, d, sid) && s.loops[d].pid != ""
  {
    hide Tidy;
    forall d | d in Hub.MetaOf(s.hub, sid) ensures In(s.loops, d, sid) && s.loops[d].pid != "" {
      assert d in Get(s.hub.meta, sid, map[]);
    }
  }

  lemma PoliteRelay(meta: Meta, c: Conn, m: Envelope)
    requires !Client.Membership(m.typ)
    ensures MessageOk(meta, c, m)
  {
  }

  lemma OthersDiffer(meta: Meta, ids: map<Conn, string>, loops: Loops, sid: int, c: Conn)
    requires OwnMeta(ids, meta) && OwnDistinct(ids, loops) && In(loops, c, sid) && c in ids
    requires forall d :: d in meta ==> In(loops, d, sid)
    ensures forall d :: d in meta && d != c ==> meta[d].pid != ids[c]
  {
    forall d | d in meta && d != c ensures meta[d].pid != ids[c] {
      assert SameSession(loops, c, d);
    }
  }

  lemma PoliteWords(meta: Meta, ids: map<Conn, string>, loops: Loops, sid: int, c: Conn, m: Envelope)
    requires OwnMeta(ids, meta) && OwnDistinct(ids, loops) && OwnTracked(ids, loops) && In(loops, c, sid) && c in ids
    requires forall d :: d in meta ==> In(loops, d, sid)
    requires m.typ !in {"user_joined", "user_left", "participants_snapshot"}
    requires ParticipantOf(m) == ids[c] || m.typ !in {"join", "leave"}
    ensures MessageOk(meta, c, m)
  {
    hide Trim, FieldOr, Shown;
    OthersDiffer(meta, ids, loops, sid, c);
  }

  lemma PoliteGoodbye(meta: Meta, ids: map<Conn, string>, loops: Loops, sid: int, c: Conn)
    requires OwnMeta(ids, meta) && OwnDistinct(ids, loops) && OwnTracked(ids, loops) && In(loops, c, sid)
    requires forall d :: d in meta ==> In(loops, d, sid) && loops[d].pid != ""
    ensures LeaveOk(meta, c, loops[c].pid)
  {
    hide Trim;
    OthersDiffer(meta, ids, loops, sid, c);
  }

  lemma PoliteKeepsOwnIds(s: System, a: Action)
    requires SystemBook(s) && MetaKnown(s) && Enabled(s, a) && OwnIds(s) && Polite(s, a)
    ensures OwnIds(Step(s, a))
  {
    hide OwnIds, SystemBook, MetaKnown, Step, Polite, Enabled;
    if a.Receive? || (a.FeedReceive? && Scope(s, a).Some?) { PoliteMessage(s, a); }
    else if a.Disconnect? { PoliteDisconnect(s, a); }
    else { PoliteQuiet(s, a); }
  }

  lemma PoliteMessage(s: System, a: Action)
    requires SystemBook(s) && Enabled(s, a) && OwnIds(s) && Polite(s, a)
    requires a.Receive? || (a.FeedReceive? && Scope(s, a).Some?)
    ensures OwnIds(Step(s, a))
  {
    hide Dispatched, FieldOr, TextField, RosterFits, SessionBook, RoleBook, LockBook, UserBook, MetaBook, TidyBook, MetaEffect,
         OwnTracked, OwnDistinct, OwnMeta, Tracked;
    var t, s0, k, ids := Step(s, a), Spoken(s, a), Scope(s, a).value, Ids(s.peers);
    DispatchTouches(s0, k, a.c, a.m, a.at, a.roster);
    assert Ids(t.peers) == ids;
    OwnTidy(ids, s.server.loops);
    if a.Receive? { OwnAfterTracking(ids, s.server.loops, a.c, a.m); }
    forall sid ensures OwnMeta(ids, Hub.MetaOf(t.server.hub, sid)) {
      MetaOfDispatch(s0, k, a.c, a.m, a.at, a.roster, sid);
      if sid == k { OwnAfterEffect(ids, Hub.MetaOf(s.server.hub, sid), a.c, a.m); }
    }
  }

  lemma OwnAfterTracking(ids: map<Conn, string>, loops: Loops, c: Conn, m: Envelope)
    requires OwnTracked(ids, loops) && OwnDistinct(ids, loops) && c in loops
    requires ParticipantOf(m) in {"", ids[c]}
    ensures OwnTracked(ids, loops[c := Tracked(loops[c], m)]) && OwnDistinct(ids, loops[c := Tracked(loops[c], m)])
  {
    hide FieldOr, Tidy;
    var loops' := loops[c := Tracked(loops[c], m)];
    forall d, e | SameSession(loops', d, e) && d != e && d in ids && e in ids ensures ids[d] != ids[e] {
      assert SameSession(loops, d, e);
    }
  }

  lemma OwnTidy(ids: map<Conn, string>, loops: Loops)
    requires OwnTracked(ids, loops)
    ensures forall c :: c in ids ==> Tidy(ids[c])
  {
  }

  lemma OwnAfterEffect(ids: map<Conn, string>, meta: Meta, c: Conn, m: Envelope)
    requires OwnMeta(ids, meta)
    requires m.typ == "join" ==> c in ids && ParticipantOf(m) == ids[c] && Tidy(ids[c])
    ensures OwnMeta(ids, MetaEffect(meta, c, m))
  {
    hide FieldOr, Trim;
  }

  lemma PoliteDisconnect(s: System, a: Action)
    requires SystemBook(s) && MetaKnown(s) && Enabled(s, a) && OwnIds(s) && a.Disconnect?
    ensures OwnIds(Step(s, a))
  {
    hide Farewell, Hub.Without, SessionBook, RoleBook, LockBook, UserBook, MetaBook, TidyBook, OwnTracked, OwnDistinct, OwnMeta;
    var c, k, t, ids := a.c, s.server.loops[a.c].sid, Step(s, a), Ids(s.peers);
    FarewellTouches(s.server.(roles := Hub.Without(s.server.roles, k, c)), c, a.at);
    WithoutEntries(s.server.hub.meta, k, c);
    assert Ids(t.peers) == ids - {c};
    OwnWithout(ids, s.server.loops, c);
    MetaOnlyAtHome(s.server, c);
    forall sid ensures OwnMeta(ids - {c}, Hub.MetaOf(t.server.hub, sid)) {
      OwnMetaWithout(ids, Hub.MetaOf(s.server.hub, sid), c);
    }
  }

  lemma OwnWithout(ids: map<Conn, string>, loops: Loops, c: Conn)
    requires OwnTracked(ids, loops) && OwnDistinct(ids, loops)
    ensures OwnTracked(ids - {c}, loops - {c}) && OwnDistinct(ids - {c}, loops - {c})
  {
    hide Tidy;
    forall d, e | SameSession(loops - {c}, d, e) && d != e && d in ids && e in ids ensures ids[d] != ids[e] {
      assert SameSession(loops, d, e);
    }
  }

  lemma OwnMetaWithout(ids: map<Conn, string>, meta: Meta, c: Conn)
    requires OwnMeta(ids, meta)
    ensures OwnMeta(ids - {c}, meta - {c})
    ensures c !in meta ==> meta - {c} == meta
  {
  }

  lemma PoliteQuiet(s: System, a: Action)
    requires SystemBook(s) && Enabled(s, a) && OwnIds(s) && Polite(s, a)
    requires !a.Receive? && !a.Disconnect? && Scope(s, a).None?
    ensures OwnIds(Step(s, a))
  {
    hide Dispatched, RosterFits, SessionBook, RoleBook, LockBook, UserBook, MetaBook, TidyBook, Client.Reduced, Hub.With,
         OwnTracked, OwnDistinct, OwnMeta, Tidy;
    var t, ids := Step(s, a), Ids(s.peers);
    if a.Connect? {
      assert Ids(t.peers) == ids[a.c := a.pid];
      OwnNewcomer(ids, s.server.loops, a.c, a.sid, a.pid);
      forall sid ensures OwnMeta(Ids(t.peers), Hub.MetaOf(t.server.hub, sid)) {
        OwnMetaNewcomer(ids, Hub.MetaOf(s.server.hub, sid), a.c, a.pid);
      }
    } else {
      assert Ids(t.peers) == ids;
      forall sid ensures OwnMeta(ids, Hub.MetaOf(t.server.hub, sid)) {
        assert Hub.MetaOf(t.server.hub, sid) == Hub.MetaOf(s.server.hub, sid);
      }
    }
  }

  lemma OwnNewcomer(ids: map<Conn, string>, loops: Loops, c: Conn, sid: int, pid: string)
    requires OwnTracked(ids, loops) && OwnDistinct(ids, loops) && c !in loops && Tidy(pid)
    requires forall d :: d in loops && loops[d].sid == sid ==> d in ids && ids[d] != pid
    ensures OwnTracked(ids[c := pid], loops[c := Loop(sid, "", "", "")])
    ensures OwnDistinct(ids[c := pid], loops[c := Loop(sid, "", "", "")])
  {
    hide Tidy;
    var ids', loops' := ids[c := pid], loops[c := Loop(sid, "", "", "")];
    forall d, e | SameSession(loops', d, e) && d != e && d in ids' && e in ids' ensures ids'[d] != ids'[e] {
      assert d != c && e != c ==> SameSession(loops, d, e);
    }
  }

  lemma OwnMetaNewcomer(ids: map<Conn, string>, meta: Meta, c: Conn, pid: string)
    requires OwnMeta(ids, meta) && c !in ids
    ensures OwnMeta(ids[c := pid], meta)
  {
  }

  lemma MetaOnlyAtHome(s: State, c: Conn)
    requires MetaBook(s.hub.meta, s.loops) && c in s.loops
    ensures forall sid :: c in Hub.MetaOf(s.hub, sid) ==> sid == s.loops[c].sid
  {
    hide Tidy;
    forall sid | c in Hub.MetaOf(s.hub, sid) ensures sid == s.loops[c].sid {
      assert c in Get(s.hub.meta, sid, map[]);
    }
  }

  /** The promise of the room: with one id per browser, every synced browser is always on its way to the roster. */
  lemma {:induction false} ReplicasAgree(status: map<int, Meeting.Status>, acts: seq<Action>)
    requires Run(Start(status), acts).Some? && Throughout(Start(status), acts, Polite)
    ensures SystemBook(Run(Start(status), acts).value) && Agreed(Run(Start(status), acts).value)
    ensures MetaKnown(Run(Start(status), acts).value) && OwnIds(Run(Start(status), acts).value)
  {
    hide Step, StepOk, StrayJoin, Agreed, SystemBook, MetaKnown, OwnIds, Polite;
    if acts == [] {
      StartBook(status);
      StartAgreed(status);
      StartOwnIds(status);
    } else {
      var n := |acts| - 1;
      var s, a := Run(Start(status), acts[..n]).value, acts[n];
      ReplicasAgree(status, acts[..n]);
      PoliteIsOk(s, a);
      PoliteKeepsOwnIds(s, a);
      BookStep(s, a);
      MetaExactly(s, a);
      AgreedStep(s, a);
    }
  }

  lemma StartOwnIds(status: map<int, Meeting.Status>)
    ensures OwnIds(Start(status))
  {
  }
}
