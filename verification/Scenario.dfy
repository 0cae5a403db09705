// Concrete runs: one that meets every assumption of replica agreement, and one for each way a guarantee fails.
module Scenario {
  import opened Outcomes
  import opened Wire
  import Hub
  import Client
  import Meeting
  import Sorting
  import opened Server
  import opened Room
  import opened Bookkeeping
  import opened Orphans
  import opened Agreement
  import opened Replicas

  const ANN := Hub.Conn(0)
  const BOB := Hub.Conn(1)

  function IdOf(c: Conn): string { if c == ANN then "ann" else "bob" }

  function EntryOf(c: Conn): Hub.JoinMeta { Hub.JoinMeta(IdOf(c), IdOf(c)) }

  const BLANK := Client.View(map[], [])

  function Says(typ: string, sid: int, participant: string): Envelope {
    WSMessage(typ, sid, participant, Record(map["name" := participant], None))
  }

  function Opens(sid: int, c: Conn, user: int, shown: Client.View): Action { Connect(c, sid, user, IdOf(c), shown) }

  function Joins(sid: int, c: Conn, roster: seq<Hub.JoinMeta>): Action { Receive(c, Says("join", sid, IdOf(c)), 0, roster) }

  lemma Fields(typ: string, sid: int, participant: string)
    ensures FieldOr(Says(typ, sid, participant).payload, "name", "") == participant
    ensures ParticipantOf(Says(typ, sid, participant)) == participant
  {
  }

  lemma IdsAreTidy(c: Conn)
    ensures Tidy(IdOf(c)) && Trim("") == ""
  {
    assert !IsSpace(IdOf(c)[0]) && !IsSpace(IdOf(c)[2]);
  }

  // ---------- building runs ----------

  predicate Anything(s: System, a: Action) { true }

  lemma Doable(s: System, a: Action)
    requires Enabled(s, a)
    ensures a.Receive? || a.Disconnect? ==> a.c in s.server.loops
    ensures a.Receive? || a.Deliver? ==> a.c in s.peers
  {
    hide RosterFits;
  }

  lemma Nothing(s: System, ok: (System, Action) -> bool)
    ensures Run(s, []) == Some(s) && Throughout(s, [], ok)
  {
  }

  /** The state after an action that can happen. */
  ghost function Next(s: System, a: Action): System
    requires Enabled(s, a)
  {
    Doable(s, a);
    Step(s, a)
  }

  lemma Grow(s0: System, acts: seq<Action>, s: System, a: Action, ok: (System, Action) -> bool)
    requires Run(s0, acts) == Some(s) && Throughout(s0, acts, ok) && Enabled(s, a) && ok(s, a)
    ensures Run(s0, acts + [a]) == Some(Next(s, a)) && Throughout(s0, acts + [a], ok)
  {
    Doable(s, a);
    hide Step, Enabled;
    assert (acts + [a])[..|acts|] == acts;
  }

  lemma NextBook(s: System, a: Action)
    requires SystemBook(s) && Enabled(s, a)
    ensures SystemBook(Next(s, a)) && (MetaKnown(s) ==> (MetaKnown(Next(s, a)) <==> !StrayJoin(a)))
  {
    Doable(s, a);
    hide Step, Enabled, SystemBook, MetaKnown, StrayJoin;
    BookStep(s, a);
    if MetaKnown(s) { MetaExactly(s, a); }
  }

  /** Exactly these sockets are open, all in one session with this join metadata, each under its own id. */
  ghost predicate Here(s: System, sid: int, meta: Meta, who: set<Conn>) {
    && SystemBook(s) && MetaKnown(s)
    && s.server.feeds == map[] && s.peers.Keys == who && Hub.MetaOf(s.server.hub, sid) == meta
    && (forall c :: c in who ==> In(s.server.loops, c, sid) && s.peers[c].pid == IdOf(c))
  }

  lemma StartHere(status: map<int, Meeting.Status>, sid: int)
    ensures Here(Start(status), sid, map[], {})
  {
    StartBook(status);
    hide SystemBook, MetaKnown;
  }

  lemma FreshSocket(s: System, sid: int, c: Conn, user: int, shown: Client.View)
    requires SystemBook(s) && c !in s.peers && c !in s.server.feeds
    ensures Enabled(s, Opens(sid, c, user, shown))
  {
    hide SessionBook, TidyBook, RoleBook, UserBook, IdOf;
  }

  lemma ConnectParts(s: System, sid: int, c: Conn, user: int, shown: Client.View)
    requires Enabled(s, Opens(sid, c, user, shown))
    ensures var t := Next(s, Opens(sid, c, user, shown));
      && t.peers == s.peers[c := Peer(IdOf(c), shown, false)] && t.server.loops == s.server.loops[c := Loop(sid, "", "", "")]
      && t.server.feeds == s.server.feeds && t.server.hub.meta == s.server.hub.meta
      && t.server.hub.wire == s.server.hub.wire && t.server.meeting == s.server.meeting && (user > 0 ==> UserOf(t.server, c) == user)
  {
    hide IdOf, Hub.With;
  }

  lemma ConnectHere(s: System, sid: int, meta: Meta, who: set<Conn>, c: Conn, user: int, shown: Client.View)
    requires Here(s, sid, meta, who) && c !in who
    ensures Enabled(s, Opens(sid, c, user, shown)) && Here(Next(s, Opens(sid, c, user, shown)), sid, meta, who + {c})
  {
    hide Next, Enabled, SystemBook, MetaKnown, IdOf, Step, Unused;
    FreshSocket(s, sid, c, user, shown);
    ConnectParts(s, sid, c, user, shown);
    NextBook(s, Opens(sid, c, user, shown));
  }

  lemma ConnectPolite(s: System, sid: int, meta: Meta, who: set<Conn>, c: Conn, user: int, shown: Client.View)
    requires Here(s, sid, meta, who) && forall d :: d in who ==> IdOf(d) != IdOf(c)
    ensures Polite(s, Opens(sid, c, user, shown))
  {
    IdsAreTidy(c);
    hide Tidy, SystemBook, MetaKnown, IdOf;
  }

  /** What a message changes about sockets and join metadata. */
  lemma MessageParts(s: System, a: Action, sid: int)
    requires SystemBook(s) && Enabled(s, a) && a.Receive? && In(s.server.loops, a.c, sid)
    ensures var t := Next(s, a);
      && t.server.loops.Keys == s.server.loops.Keys && t.server.feeds == s.server.feeds
      && Hub.MetaOf(t.server.hub, sid) == MetaEffect(Hub.MetaOf(s.server.hub, sid), a.c, a.m)
      && (forall d :: d in s.server.loops ==> t.server.loops[d].sid == s.server.loops[d].sid)
  {
    Doable(s, a);
    hide SystemBook, Dispatched, MetaEffect, Tracked, TextField, FieldOr, RosterFits, Hub.MetaOf;
    TrackedSid(s.server, a);
    DispatchTouches(Spoken(s, a), sid, a.c, a.m, a.at, a.roster);
    MetaOfDispatch(Spoken(s, a), sid, a.c, a.m, a.at, a.roster, sid);
    assert Next(s, a).server == Dispatched(Spoken(s, a), sid, a.c, a.m, a.at, a.roster);
    hide Next, Enabled;
  }

  lemma MessagePeers(s: System, a: Action)
    requires Enabled(s, a) && a.Receive?
    ensures a.c in s.peers && a.c in s.server.loops
    ensures Next(s, a).peers == if a.m.typ == "join" && a.roster != [] then s.peers[a.c := s.peers[a.c].(synced := true)] else s.peers
  {
    Doable(s, a);
    hide Received, RosterFits;
  }

  /** And about what a member of the session is going to show. */
  lemma MessageFuture(s: System, a: Action, sid: int, d: Conn)
    requires SystemBook(s) && Enabled(s, a) && a.Receive? && In(s.server.loops, a.c, sid)
    requires d in s.peers && In(s.server.loops, d, sid) && !(a.m.typ == "join" && d == a.c && a.roster != [])
    ensures d in Next(s, a).peers && Future(Next(s, a), d) == Effect(Future(s, d), a.m)
  {
    Doable(s, a);
    BookListener(s, d);
    DispatchHeard(Spoken(s, a), sid, a.c, a.m, a.at, a.roster, d, Client.Names(s.peers[d].view));
    hide SystemBook, Dispatched, MetaEffect, Tracked, TextField, FieldOr, RosterFits, Effect, Heard, Client.Names;
  }

  lemma JoinFits(s: System, sid: int, meta: Meta, c: Conn, roster: seq<Hub.JoinMeta>)
    requires In(s.server.loops, c, sid) && c in s.peers && Hub.MetaOf(s.server.hub, sid) == meta
    requires Hub.IsSnapshot(meta[c := EntryOf(c)], roster)
    ensures Enabled(s, Joins(sid, c, roster))
  {
    IdsAreTidy(c);
    Fields("join", sid, IdOf(c));
    hide Trim, FieldOr, IdOf, Hub.IsSnapshot;
    var m := Says("join", sid, IdOf(c));
    assert Get(MetaAfterJoin(s.server.hub, sid, c, m), sid, map[]) == meta[c := EntryOf(c)];
  }

  lemma JoinEffect(sid: int, meta: Meta, c: Conn)
    ensures MetaEffect(meta, c, Says("join", sid, IdOf(c))) == meta[c := EntryOf(c)]
  {
    IdsAreTidy(c);
    Fields("join", sid, IdOf(c));
    hide Trim, FieldOr, IdOf;
  }

  lemma JoinHere(s: System, sid: int, meta: Meta, who: set<Conn>, c: Conn, roster: seq<Hub.JoinMeta>)
    requires Here(s, sid, meta, who) && c in who && roster != [] && Hub.IsSnapshot(meta[c := EntryOf(c)], roster)
    ensures Enabled(s, Joins(sid, c, roster)) && Polite(s, Joins(sid, c, roster))
    ensures var t := Next(s, Joins(sid, c, roster));
      Here(t, sid, meta[c := EntryOf(c)], who) && Watching(t, c) && forall d :: d in who && Watching(s, d) ==> Watching(t, d)
  {
    var a := Joins(sid, c, roster);
    hide Next, Step, Enabled, SystemBook, MetaKnown, IdOf, Hub.IsSnapshot, MetaEffect;
    KnownLoops(s);
    JoinFits(s, sid, meta, c, roster);
    MessagePeers(s, a);
    MessageParts(s, a, sid);
    JoinEffect(sid, meta, c);
    NextBook(s, a);
  }

  lemma KnownLoops(s: System)
    requires SystemBook(s)
    ensures s.peers.Keys == s.server.loops.Keys
  {
  }

  // ---------- agreement: met, and missed ----------

  lemma RosterOfOne(c: Conn)
    ensures Hub.IsSnapshot(map[c := EntryOf(c)], [EntryOf(c)])
  {
    var meta: Meta, e := map[c := EntryOf(c)], EntryOf(c);
    assert c in meta && meta[c].pid != "" && e == Hub.JoinMeta(meta[c].pid, Shown(meta[c].pid, meta[c].name));
    assert e in [e] && Hub.Joined(meta, e) && Hub.Listed([e], IdOf(c));
  }

  function Both(): Meta { map[ANN := EntryOf(ANN), BOB := EntryOf(BOB)] }

  lemma RosterOfTwo()
    ensures Hub.IsSnapshot(Both(), [EntryOf(ANN), EntryOf(BOB)])
  {
    var meta, out := Both(), [EntryOf(ANN), EntryOf(BOB)];
    assert "ann"[0] < "bob"[0] && Sorting.TextLt("ann", "bob");
    forall c | c in {ANN, BOB} ensures Hub.Joined(meta, EntryOf(c)) && Hub.Listed(out, meta[c].pid) {
      assert c in meta && meta[c].pid != "" && EntryOf(c) == Hub.JoinMeta(meta[c].pid, Shown(meta[c].pid, meta[c].name));
      assert EntryOf(c) in out && EntryOf(c).pid == meta[c].pid;
    }
  }

  function Gathering(sid: int): seq<Action> {
    [] + [Opens(sid, ANN, 0, BLANK)] + [Opens(sid, BOB, 0, BLANK)]
    + [Joins(sid, ANN, [EntryOf(ANN)])] + [Joins(sid, BOB, [EntryOf(ANN), EntryOf(BOB)])]
  }

  /** Ann and Bob open their sockets and join: a polite run, after which both browsers have been sent a roster. */
  lemma PoliteRun(status: map<int, Meeting.Status>, sid: int) returns (s: System)
    ensures Run(Start(status), Gathering(sid)) == Some(s) && Throughout(Start(status), Gathering(sid), Polite)
    ensures Watching(s, ANN) && Watching(s, BOB) && Here(s, sid, Both(), {ANN, BOB})
  {
    var s0 := Start(status);
    StartHere(status, sid);
    Nothing(s0, Polite);
    ConnectHere(s0, sid, map[], {}, ANN, 0, BLANK);
    ConnectPolite(s0, sid, map[], {}, ANN, 0, BLANK);
    RosterOfOne(ANN);
    RosterOfTwo();
    assert IdOf(ANN) != IdOf(BOB);
    hide Step, Next, Enabled, Polite, Start, Here, Run, Throughout, Watching, Hub.IsSnapshot;
    Grow(s0, [], s0, Opens(sid, ANN, 0, BLANK), Polite);
    var s1 := Next(s0, Opens(sid, ANN, 0, BLANK));
    assert {} + {ANN} == {ANN};
    ConnectHere(s1, sid, map[], {ANN}, BOB, 0, BLANK);
    ConnectPolite(s1, sid, map[], {ANN}, BOB, 0, BLANK);
    Grow(s0, [] + [Opens(sid, ANN, 0, BLANK)], s1, Opens(sid, BOB, 0, BLANK), Polite);
    var s2 := Next(s1, Opens(sid, BOB, 0, BLANK));
    assert {ANN} + {BOB} == {ANN, BOB};
    var none: Meta := map[];
    assert none[ANN := EntryOf(ANN)] == map[ANN := EntryOf(ANN)];
    var a2, a3 := Joins(sid, ANN, [EntryOf(ANN)]), Joins(sid, BOB, [EntryOf(ANN), EntryOf(BOB)]);
    JoinHere(s2, sid, none, {ANN, BOB}, ANN, [EntryOf(ANN)]);
    Grow(s0, [] + [Opens(sid, ANN, 0, BLANK)] + [Opens(sid, BOB, 0, BLANK)], s2, a2, Polite);
    var s3 := Next(s2, a2);
    assert none[ANN := EntryOf(ANN)][BOB := EntryOf(BOB)] == Both();
    JoinHere(s3, sid, none[ANN := EntryOf(ANN)], {ANN, BOB}, BOB, [EntryOf(ANN), EntryOf(BOB)]);
    Grow(s0, [] + [Opens(sid, ANN, 0, BLANK)] + [Opens(sid, BOB, 0, BLANK)] + [a2], s3, a3, Polite);
    s := Next(s3, a3);
  }

  function SlipsAway(sid: int): Action { Receive(ANN, Says("leave", sid, ""), 0, []) }

  /** Ann then leaves without giving her id: she is off the roster, and on Bob's screen for good. */
  lemma UnnamedLeave(status: map<int, Meeting.Status>, sid: int) returns (t: System)
    ensures Run(Start(status), Gathering(sid) + [SlipsAway(sid)]) == Some(t)
    ensures Watching(t, BOB) && "ann" in Future(t, BOB) && !Held(Hub.MetaOf(t.server.hub, sid), "ann") && !Faithful(t, BOB)
  {
    var s := PoliteRun(status, sid);
    var a := SlipsAway(sid);
    ReplicasAgree(status, Gathering(sid));
    AnythingGoes(Start(status), Gathering(sid), Polite);
    LeavePossible(s, sid);
    Grow(Start(status), Gathering(sid), s, a, Anything);
    t := Next(s, a);
    TileStays(s, sid);
  }

  lemma {:induction false} AnythingGoes(s: System, acts: seq<Action>, ok: (System, Action) -> bool)
    requires Throughout(s, acts, ok)
    ensures Throughout(s, acts, Anything)
  {
    hide Run;
    if acts != [] { AnythingGoes(s, acts[..|acts| - 1], ok); }
  }

  lemma LeavePossible(s: System, sid: int)
    requires Here(s, sid, Both(), {ANN, BOB})
    ensures Enabled(s, SlipsAway(sid))
  {
    hide SystemBook, MetaKnown, IdOf;
  }

  lemma LeaveEffect(sid: int, names: Names)
    ensures MetaEffect(Both(), ANN, Says("leave", sid, "")) == map[BOB := EntryOf(BOB)]
    ensures Effect(names, Says("leave", sid, "")) == names
  {
    Fields("leave", sid, "");
    hide FieldOr, IdOf;
  }

  lemma TileStays(s: System, sid: int)
    requires Here(s, sid, Both(), {ANN, BOB}) && Watching(s, BOB) && Faithful(s, BOB) && Enabled(s, SlipsAway(sid))
    ensures var t := Next(s, SlipsAway(sid));
      Watching(t, BOB) && "ann" in Future(t, BOB) && !Held(Hub.MetaOf(t.server.hub, sid), "ann") && !Faithful(t, BOB)
  {
    var a := SlipsAway(sid);
    KnownLoops(s);
    hide Next, Step, Enabled, SystemBook, MetaKnown, MetaEffect, Effect, Heard;
    assert ANN in Both() && Both()[ANN].pid == "ann";
    assert "ann" in Future(s, BOB);
    MessagePeers(s, a);
    MessageParts(s, a, sid);
    MessageFuture(s, a, sid, BOB);
    LeaveEffect(sid, Future(s, BOB));
  }

  /** A message of Ann's own that looks like the server's `user_left` about Bob. */
  function Pretends(sid: int): Action {
    Receive(ANN, WSMessage("user_left", sid, "ann", Record(map["participant_id" := "bob"], None)), 0, [])
  }

  /** Ann relays it: Bob is gone from his own screen, though he is on the roster. */
  lemma LookAlike(status: map<int, Meeting.Status>, sid: int) returns (t: System)
    ensures Run(Start(status), Gathering(sid) + [Pretends(sid)]) == Some(t)
    ensures Watching(t, BOB) && Held(Hub.MetaOf(t.server.hub, sid), "bob") && !Faithful(t, BOB)
  {
    var s := PoliteRun(status, sid);
    var a := Pretends(sid);
    ReplicasAgree(status, Gathering(sid));
    AnythingGoes(Start(status), Gathering(sid), Polite);
    PretencePossible(s, sid);
    Grow(Start(status), Gathering(sid), s, a, Anything);
    t := Next(s, a);
    BobMisses(s, sid);
  }

  lemma PretencePossible(s: System, sid: int)
    requires Here(s, sid, Both(), {ANN, BOB})
    ensures Enabled(s, Pretends(sid))
  {
    hide SystemBook, MetaKnown, IdOf;
  }

  lemma BobMisses(s: System, sid: int)
    requires Here(s, sid, Both(), {ANN, BOB}) && Watching(s, BOB) && Faithful(s, BOB) && Enabled(s, Pretends(sid))
    ensures var t := Next(s, Pretends(sid));
      Watching(t, BOB) && Held(Hub.MetaOf(t.server.hub, sid), "bob") && !Faithful(t, BOB)
  {
    var a := Pretends(sid);
    PretenceEffect(Future(s, BOB), sid);
    KnownLoops(s);
    assert BOB in Both() && Both()[BOB].pid == "bob";
    hide Next, Step, Enabled, SystemBook, MetaKnown, MetaEffect, Effect, Heard;
    MessagePeers(s, a);
    MessageParts(s, a, sid);
    MessageFuture(s, a, sid, BOB);
  }

  lemma PretenceEffect(names: Names, sid: int)
    ensures MetaEffect(Both(), ANN, Pretends(sid).m) == Both() && "bob" !in Effect(names, Pretends(sid).m)
  {
  }

  /** A join without an id is answered with an empty roster, which the browser ignores: what was on its screen stays. */
  lemma EmptyRosterExactly(s: System, a: Action)
    requires SystemBook(s) && Enabled(s, a) && a.Receive? && a.m.typ == "join" && a.roster == []
    ensures a.c in s.peers && a.c in Next(s, a).peers && a.c in Next(s, a).server.loops
    ensures Faithful(Next(s, a), a.c) <==> Future(s, a.c) == map[] && ParticipantOf(a.m) == ""
  {
    MessagePeers(s, a);
    var c, sid := a.c, s.server.loops[a.c].sid;
    NobodyLeft(s, a, sid);
    hide Next, Step, Enabled, SystemBook, MetaEffect, FieldOr, Heard, Shown, Mirrors, JoinNames;
    MessageParts(s, a, sid);
    MessageFuture(s, a, sid, c);
    JoinShown(Future(s, c), ParticipantOf(a.m), FieldOr(a.m.payload, "name", ""));
    MirrorsNothing(Future(Next(s, a), c));
  }

  lemma MirrorsNothing(names: Names)
    ensures Mirrors(map[], names) <==> names == map[]
  {
    if Mirrors(map[], names) { assert forall id :: id !in names; }
  }

  lemma JoinShown(names: Names, p: string, name: string)
    ensures JoinNames(names, p, name) == map[] <==> names == map[] && p == ""
  {
    if p != "" { assert p in JoinNames(names, p, name); }
  }

  lemma NobodyLeft(s: System, a: Action, sid: int)
    requires SystemBook(s) && Enabled(s, a) && a.Receive? && a.m.typ == "join" && a.roster == [] && s.server.loops[a.c].sid == sid
    ensures MetaEffect(Hub.MetaOf(s.server.hub, sid), a.c, a.m) == map[]
  {
    var meta := MetaEffect(Hub.MetaOf(s.server.hub, sid), a.c, a.m);
    BookTidy(s.server, sid);
    assert meta == Get(MetaAfterJoin(s.server.hub, sid, a.c, a.m), sid, map[]) && AllNamed(meta) by {
      hide Trim, FieldOr, Hub.IsSnapshot, SystemBook;
    }
    hide SystemBook, MetaEffect, MetaAfterJoin, Trim, FieldOr;
    assert forall pid :: !Hub.Listed([], pid);
    assert forall c :: c !in meta;
  }

  function Stale(): Client.View { Client.View(map["bob" := Client.Tile("bob", "Bob", None, None, None)], []) }

  /** Ann's browser comes back with Bob still on its screen, and joins without an id: Bob stays there, though nobody is in the room. */
  lemma StaleScreen(status: map<int, Meeting.Status>, sid: int) returns (t: System)
    ensures Run(Start(status), [] + [Opens(sid, ANN, 0, Stale())] + [BlankJoins(sid)]) == Some(t)
    ensures ANN in t.peers && ANN in t.server.loops && !Faithful(t, ANN)
  {
    var s0, a, b := Start(status), Opens(sid, ANN, 0, Stale()), BlankJoins(sid);
    assert s0.server.hub.wire == map[];
    StartHere(status, sid);
    Nothing(s0, Anything);
    hide Step, Next, Enabled, Run, Throughout, Start, Faithful, Here, UserOf, Stale, Future;
    ConnectHere(s0, sid, map[], {}, ANN, 0, Stale());
    ConnectParts(s0, sid, ANN, 0, Stale());
    assert {} + {ANN} == {ANN};
    var s1 := Next(s0, a);
    BlankPossible(s1, sid);
    Grow(s0, [], s0, a, Anything);
    Grow(s0, [] + [a], s1, b, Anything);
    t := Next(s1, b);
    StaysStale(s1, sid);
  }

  lemma StaysStale(s: System, sid: int)
    requires Here(s, sid, map[], {ANN}) && Enabled(s, BlankJoins(sid)) && ANN !in s.server.hub.wire && s.peers[ANN].view == Stale()
    ensures var t := Next(s, BlankJoins(sid)); ANN in t.peers && ANN in t.server.loops && !Faithful(t, ANN)
  {
    assert "bob" in Client.Names(Stale());
    NothingUnread(s.server.hub, ANN, Client.Names(Stale()));
    hide Next, Enabled, Heard, Faithful, Stale, MetaKnown, Client.Names;
    EmptyRosterExactly(s, BlankJoins(sid));
  }

  lemma NothingUnread(h: Hub.Tables, c: Conn, names: Names)
    requires c !in h.wire
    ensures Heard(h, c, names) == names
  {
  }

  // ---------- orphan rows and ownerless metadata ----------

  function BlankJoins(sid: int): Action { Receive(ANN, Says("join", sid, ""), 0, []) }

  /** A known user joins without an id on a fresh socket: an active row with nobody behind it. */
  lemma OrphanLeft(status: map<int, Meeting.Status>, sid: int, user: int) returns (t: System)
    requires sid in status && user > 0
    ensures Run(Start(status), [] + [Opens(sid, ANN, user, BLANK)] + [BlankJoins(sid)]) == Some(t)
    ensures Meeting.HasActive(t.server.meeting.rows, sid, user) && !Anchored(t.server, sid, user)
  {
    var s0, a, b := Start(status), Opens(sid, ANN, user, BLANK), BlankJoins(sid);
    assert s0.server.meeting.status == status;
    StartHere(status, sid);
    Nothing(s0, Anything);
    hide Step, Next, Enabled, Here, Run, Throughout, Start, UserOf, Anchored, Meeting.HasActive;
    ConnectHere(s0, sid, map[], {}, ANN, user, BLANK);
    ConnectParts(s0, sid, ANN, user, BLANK);
    assert {} + {ANN} == {ANN};
    var s1 := Next(s0, a);
    BlankPossible(s1, sid);
    Grow(s0, [], s0, a, Anything);
    Grow(s0, [] + [a], s1, b, Anything);
    t := Next(s1, b);
    RowWithoutAnchor(s1, sid, user);
  }

  lemma BlankPossible(s: System, sid: int)
    requires Here(s, sid, map[], {ANN})
    ensures Enabled(s, BlankJoins(sid))
  {
    IdsAreTidy(ANN);
    Fields("join", sid, "");
    hide SystemBook, MetaKnown, Trim, FieldOr;
    assert Hub.IsSnapshot(map[], []);
  }

  lemma RowWithoutAnchor(s: System, sid: int, user: int)
    requires Here(s, sid, map[], {ANN}) && Enabled(s, BlankJoins(sid))
    requires s.server.loops[ANN].pid == "" && UserOf(s.server, ANN) == user && user > 0 && sid in s.server.meeting.status
    ensures var t := Next(s, BlankJoins(sid)).server; Meeting.HasActive(t.meeting.rows, sid, user) && !Anchored(t, sid, user)
  {
    var a := BlankJoins(sid);
    var noted := Noted(s.server, ANN, a.m);
    DispatchedRows(noted, sid, ANN, a.m, 0, [], sid, user);
    LoopsAfter(s, sid);
    hide Here, Dispatched, Noted, Meeting.HasActive;
  }

  lemma MessageLoops(s: System, a: Action)
    requires Enabled(s, a) && a.Receive?
    ensures a.c in s.server.loops && Next(s, a).server.loops == s.server.loops[a.c := Tracked(s.server.loops[a.c], a.m)]
  {
    Doable(s, a);
    hide Dispatched, Tracked, TextField, FieldOr, RosterFits;
    DispatchTouches(Noted(s.server, a.c, a.m), s.server.loops[a.c].sid, a.c, a.m, a.at, a.roster);
  }

  lemma LoopsAfter(s: System, sid: int)
    requires Here(s, sid, map[], {ANN}) && Enabled(s, BlankJoins(sid)) && s.server.loops[ANN].pid == ""
    ensures var t := Next(s, BlankJoins(sid)).server; forall c :: c in t.loops ==> t.loops[c].pid == ""
    ensures var noted := Noted(s.server, ANN, BlankJoins(sid).m);
      UserOf(noted, ANN) == UserOf(s.server, ANN) && noted.meeting == s.server.meeting && s.server.loops[ANN].sid == sid
  {
    MessageLoops(s, BlankJoins(sid));
    KnownLoops(s);
    StillBlank(s.server.loops[ANN], sid);
    hide Next, Enabled, SystemBook, MetaKnown, Tracked, TextField, FieldOr;
  }

  lemma StillBlank(l: Loop, sid: int)
    requires l.pid == ""
    ensures Tracked(l, Says("join", sid, "")).pid == ""
  {
    hide FieldOr;
  }

  function Attaches(): seq<Action> { [] + [AttachLock(ANN)] + [AttachConn(ANN)] }

  function StrayJoins(sid: int): Action { FeedReceive(ANN, Says("join", sid, "ann"), 0, [EntryOf(ANN)]) }

  /** An analysis connection joins under an id: metadata in a session it is no member of. */
  lemma OwnerlessMeta(status: map<int, Meeting.Status>, sid: int) returns (t: System)
    requires sid > 0
    ensures Run(Start(status), Attaches() + [StrayJoins(sid)]) == Some(t)
    ensures !MetaKnown(t) && ANN in Hub.MetaOf(t.server.hub, sid) && ANN !in Hub.Members(t.server.hub, sid)
  {
    var s0 := Start(status);
    StartBook(status);
    Nothing(s0, Anything);
    var s1 := Next(s0, AttachLock(ANN));
    var s2 := Next(s1, AttachConn(ANN));
    assert s2.server.hub.meta == map[] && s2.server.hub.sessions == map[] && FeedIs(s2.server, ANN, Attached);
    StrayPossible(s2, sid);
    t := Next(s2, StrayJoins(sid));
    StrayLeaves(s2, sid);
    hide Next, Step, Enabled, SystemBook, MetaKnown, Run, Throughout, Start;
    NextBook(s0, AttachLock(ANN));
    NextBook(s1, AttachConn(ANN));
    NextBook(s2, StrayJoins(sid));
    Grow(s0, [], s0, AttachLock(ANN), Anything);
    Grow(s0, [] + [AttachLock(ANN)], s1, AttachConn(ANN), Anything);
    Grow(s0, Attaches(), s2, StrayJoins(sid), Anything);
  }

  lemma StrayLeaves(s: System, sid: int)
    requires sid > 0 && Enabled(s, StrayJoins(sid)) && s.server.hub.sessions == map[]
    ensures var h := Next(s, StrayJoins(sid)).server.hub; ANN in Hub.MetaOf(h, sid) && ANN !in Hub.Members(h, sid)
    ensures StrayJoin(StrayJoins(sid))
  {
    var m := Says("join", sid, "ann");
    IdsAreTidy(ANN);
    JoinEffect(sid, Hub.MetaOf(s.server.hub, sid), ANN);
    hide Dispatched, Trim, RosterFits, MetaEffect, Hub.MetaOf;
    DispatchTouches(s.server, sid, ANN, m, 0, [EntryOf(ANN)]);
    MetaOfDispatch(s.server, sid, ANN, m, 0, [EntryOf(ANN)], sid);
    assert Next(s, StrayJoins(sid)).server == Dispatched(s.server, sid, ANN, m, 0, [EntryOf(ANN)]);
    hide Next, Enabled;
  }

  lemma StrayPossible(s: System, sid: int)
    requires s.server.hub.meta == map[] && FeedIs(s.server, ANN, Attached)
    ensures Enabled(s, StrayJoins(sid))
  {
    IdsAreTidy(ANN);
    Fields("join", sid, "ann");
    RosterOfOne(ANN);
    hide Trim, FieldOr, Hub.IsSnapshot;
    assert Get(MetaAfterJoin(s.server.hub, sid, ANN, Says("join", sid, "ann")), sid, map[]) == map[ANN := EntryOf(ANN)];
  }
}
