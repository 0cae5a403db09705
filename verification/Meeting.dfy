// The meeting service and its tables: status, participant rows, append-only audit events.
module Meeting {
  import opened Outcomes
  import opened Tally

  /** `Unlisted` stands for the texts in the status column that the service has no constant for. */
  datatype Status = Created | Active | Paused | Ended | Cancelled | Unlisted(text: string)

  datatype Role = Host | CoHost | Participant | Guest

  datatype Row = Row(sid: int, user: int, displayName: Option<string>, role: Role,
                     joinedAt: int, leftAt: Option<int>, active: bool)

  datatype Event =
    | StatusChanged(sid: int, from: Status, to: Status, at: int)
    | ParticipantJoined(sid: int, user: int, role: Role, at: int)
    | ParticipantLeft(sid: int, user: int, at: int)

  datatype Error = NoSuchSession | InvalidTransition(current: Status) | NoActiveRow | NotParticipant | ForbiddenRole(role: Role)

  /** The tables as one value. A session exists exactly when it has a status. */
  datatype Tables = Tables(
    status: map<int, Status>,
    startedAt: map<int, int>,
    endedAt: map<int, int>,
    rows: seq<Row>,
    events: seq<Event>)

  // ---------- what each operation does to the tables ----------

  /** A COALESCE write: the first value stays. */
  function WriteOnce(m: map<int, int>, k: int, v: int): map<int, int> {
    if k in m then m else m[k := v]
  }

  function AfterStart(t: Tables, sid: int, at: int): Result<Tables, Error> {
    if sid !in t.status then Err(NoSuchSession)
    else
      var now := t.status[sid];
      if now != Created && now != Paused then Err(InvalidTransition(now))
      else Ok(t.(status := t.status[sid := Active],
                 startedAt := WriteOnce(t.startedAt, sid, at),
                 events := t.events + [StatusChanged(sid, now, Active, at)]))
  }

  function AfterEnd(t: Tables, sid: int, at: int): Result<Tables, Error> {
    if sid !in t.status then Err(NoSuchSession)
    else
      var now := t.status[sid];
      if now != Active && now != Paused && now != Created then Err(InvalidTransition(now))
      else Ok(t.(status := t.status[sid := Ended],
                 endedAt := WriteOnce(t.endedAt, sid, at),
                 events := t.events + [StatusChanged(sid, now, Ended, at)]))
  }

  function RowOf(sid: int, user: int): Row -> bool {
    (r: Row) => r.sid == sid && r.user == user
  }

  function ActiveRowOf(sid: int, user: int): Row -> bool {
    (r: Row) => r.sid == sid && r.user == user && r.active
  }

  predicate HasActive(rows: seq<Row>, sid: int, user: int) {
    CountIf(rows, ActiveRowOf(sid, user)) > 0
  }

  /** An active row of the user, as `SELECT ... LIMIT 1` finds one. */
  function FindActive(rows: seq<Row>, sid: int, user: int): (r: Option<Row>)
    ensures r.Some? <==> HasActive(rows, sid, user)
    ensures r.Some? ==> r.value in rows && ActiveRowOf(sid, user)(r.value)
  {
    if rows == [] then None
    else if ActiveRowOf(sid, user)(rows[|rows| - 1]) then Some(rows[|rows| - 1])
    else FindActive(rows[..|rows| - 1], sid, user)
  }

  function AfterJoin(t: Tables, sid: int, user: int, name: Option<string>, role: Role, at: int): Result<Tables, Error> {
    if HasActive(t.rows, sid, user) then
      Ok(t.(events := t.events + [ParticipantJoined(sid, user, role, at)]))
    else if sid !in t.status then
      Err(NoSuchSession)
    else
      Ok(t.(rows := t.rows + [Row(sid, user, name, role, at, None, true)],
            events := t.events + [ParticipantJoined(sid, user, role, at)]))
  }

  /** The update of LeaveParticipant: every active row of the user is closed. */
  function CloseRows(rows: seq<Row>, sid: int, user: int, at: int): (out: seq<Row>)
    ensures |out| == |rows|
  {
    if rows == [] then []
    else
      var r := rows[|rows| - 1];
      CloseRows(rows[..|rows| - 1], sid, user, at)
      + [if ActiveRowOf(sid, user)(r) then r.(active := false, leftAt := Some(at)) else r]
  }

  function AfterLeave(t: Tables, sid: int, user: int, at: int): Result<Tables, Error> {
    if !HasActive(t.rows, sid, user) then Err(NoActiveRow)
    else Ok(t.(rows := CloseRows(t.rows, sid, user, at),
               events := t.events + [ParticipantLeft(sid, user, at)]))
  }

  function CheckRole(t: Tables, sid: int, user: int, allowed: set<Role>): (e: Option<Error>)
    ensures e.None? ==> exists r :: r in t.rows && ActiveRowOf(sid, user)(r) && r.role in allowed
  {
    match FindActive(t.rows, sid, user)
    case None => Some(NotParticipant)
    case Some(r) => if r.role in allowed then None else Some(ForbiddenRole(r.role))
  }

  /** The tables after an operation that changes nothing when it fails. */
  function Settle(t: Tables, r: Result<Tables, Error>): Tables {
    match r case Ok(t') => t' case Err(_) => t
  }

  function Failure(r: Result<Tables, Error>): Option<Error> {
    match r case Ok(_) => None case Err(e) => Some(e)
  }

  // ---------- the service, updating the tables in place ----------

  class Repository {
    var status: map<int, Status>
    var startedAt: map<int, int>
    var endedAt: map<int, int>
    var rows: seq<Row>
    var events: seq<Event>

    ghost function View(): Tables
      reads this
    {
      Tables(status, startedAt, endedAt, rows, events)
    }

    constructor (initial: map<int, Status>)
      ensures View() == Tables(initial, map[], map[], [], [])
    {
      status, startedAt, endedAt, rows, events := initial, map[], map[], [], [];
    }

    method SetStatusActive(sid: int, at: int)
      requires sid in status
      modifies this
      ensures View() == old(View()).(status := old(status)[sid := Active], startedAt := WriteOnce(old(startedAt), sid, at))
    {
      status := status[sid := Active];
      if sid !in startedAt { startedAt := startedAt[sid := at]; }
    }

    method SetStatusEnded(sid: int, at: int)
      requires sid in status
      modifies this
      ensures View() == old(View()).(status := old(status)[sid := Ended], endedAt := WriteOnce(old(endedAt), sid, at))
    {
      status := status[sid := Ended];
      if sid !in endedAt { endedAt := endedAt[sid := at]; }
    }

    method AppendEvent(e: Event)
      modifies this
      ensures View() == old(View()).(events := old(events) + [e])
    {
      events := events + [e];
    }

    method JoinParticipant(sid: int, user: int, name: Option<string>, role: Role, at: int) returns (err: Option<Error>)
      modifies this
      ensures err.Some? <==> !HasActive(old(rows), sid, user) && sid !in status
      ensures err.Some? ==> err == Some(NoSuchSession)
      ensures View() == old(View()).(rows := rows)
      ensures rows == if err.Some? || HasActive(old(rows), sid, user) then old(rows)
                      else old(rows) + [Row(sid, user, name, role, at, None, true)]
    {
      var existing := FindActive(rows, sid, user);
      if existing.Some? { return None; }
      if sid !in status { return Some(NoSuchSession); }
      rows := rows + [Row(sid, user, name, role, at, None, true)];
      return None;
    }

    method LeaveParticipant(sid: int, user: int, at: int) returns (err: Option<Error>)
      modifies this
      ensures err == if HasActive(old(rows), sid, user) then None else Some(NoActiveRow)
      ensures View() == old(View()).(rows := CloseRows(old(rows), sid, user, at))
    {
      var affected := CountIf(rows, ActiveRowOf(sid, user));
      rows := CloseRows(rows, sid, user, at);
      return if affected == 0 then Some(NoActiveRow) else None;
    }
  }

  class Service {
    const repo: Repository

    constructor (repo: Repository)
      ensures this.repo == repo
    {
      this.repo := repo;
    }

    method StartMeeting(sid: int, at: int) returns (err: Option<Error>)
      modifies repo
      ensures err == Failure(AfterStart(old(repo.View()), sid, at))
      ensures err.None? <==> sid in old(repo.status) && old(repo.status)[sid] in {Created, Paused}
      ensures err.None? ==> repo.status == old(repo.status)[sid := Active]
      ensures err.None? ==> repo.startedAt == old(repo.startedAt)[sid := Get(old(repo.startedAt), sid, at)]
      ensures err.None? ==> repo.events == old(repo.events) + [StatusChanged(sid, old(repo.status)[sid], Active, at)]
      ensures err.Some? ==> err.value == if sid in old(repo.status) then InvalidTransition(old(repo.status)[sid]) else NoSuchSession
      ensures repo.View() == Settle(old(repo.View()), AfterStart(old(repo.View()), sid, at))
    {
      if sid !in repo.status { return Some(NoSuchSession); }
      var current := repo.status[sid];
      if current != Created && current != Paused { return Some(InvalidTransition(current)); }
      repo.SetStatusActive(sid, at);
      repo.AppendEvent(StatusChanged(sid, current, Active, at));
      return None;
    }

    method EndMeeting(sid: int, at: int) returns (err: Option<Error>)
      modifies repo
      ensures err == Failure(AfterEnd(old(repo.View()), sid, at))
      ensures err.None? <==> sid in old(repo.status) && old(repo.status)[sid] in {Created, Active, Paused}
      ensures err.None? ==> repo.status == old(repo.status)[sid := Ended]
      ensures err.None? ==> repo.endedAt == old(repo.endedAt)[sid := Get(old(repo.endedAt), sid, at)]
      ensures err.None? ==> repo.events == old(repo.events) + [StatusChanged(sid, old(repo.status)[sid], Ended, at)]
      ensures err.Some? ==> err.value == if sid in old(repo.status) then InvalidTransition(old(repo.status)[sid]) else NoSuchSession
      ensures repo.View() == Settle(old(repo.View()), AfterEnd(old(repo.View()), sid, at))
    {
      if sid !in repo.status { return Some(NoSuchSession); }
      var current := repo.status[sid];
      if current != Active && current != Paused && current != Created { return Some(InvalidTransition(current)); }
      repo.SetStatusEnded(sid, at);
      repo.AppendEvent(StatusChanged(sid, current, Ended, at));
      return None;
    }

    method Join(sid: int, user: int, name: Option<string>, role: Role, at: int) returns (err: Option<Error>)
      modifies repo
      ensures err == Failure(AfterJoin(old(repo.View()), sid, user, name, role, at))
      ensures repo.View() == Settle(old(repo.View()), AfterJoin(old(repo.View()), sid, user, name, role, at))
    {
      err := repo.JoinParticipant(sid, user, name, role, at);
      if err.Some? { return; }
      repo.AppendEvent(ParticipantJoined(sid, user, role, at));
    }

    method Leave(sid: int, user: int, at: int) returns (err: Option<Error>)
      modifies repo
      ensures err == Failure(AfterLeave(old(repo.View()), sid, user, at))
      ensures repo.View() == Settle(old(repo.View()), AfterLeave(old(repo.View()), sid, user, at))
    {
      ghost var before := repo.rows;
      err := repo.LeaveParticipant(sid, user, at);
      if err.Some? {
        CloseNothing(before, sid, user, at);
        return;
      }
      repo.AppendEvent(ParticipantLeft(sid, user, at));
    }

    method RequireRole(sid: int, user: int, allowed: set<Role>) returns (err: Option<Error>)
      ensures err == CheckRole(repo.View(), sid, user, allowed)
    {
      var p := FindActive(repo.rows, sid, user);
      if p.None? { return Some(NotParticipant); }
      return if p.value.role in allowed then None else Some(ForbiddenRole(p.value.role));
    }
  }

  // ---------- closing rows ----------

  lemma {:induction false} CloseNothing(rows: seq<Row>, sid: int, user: int, at: int)
    requires !HasActive(rows, sid, user)
    ensures CloseRows(rows, sid, user, at) == rows
  {
    if rows != [] { CloseNothing(rows[..|rows| - 1], sid, user, at); }
  }

  /** Closing the rows of one user leaves every other user's active rows, and everybody's rows, as many as before. */
  lemma {:induction false} CloseCounts(rows: seq<Row>, sid: int, user: int, at: int, s: int, u: int)
    ensures CountIf(CloseRows(rows, sid, user, at), RowOf(s, u)) == CountIf(rows, RowOf(s, u))
    ensures CountIf(CloseRows(rows, sid, user, at), ActiveRowOf(s, u))
         == if s == sid && u == user then 0 else CountIf(rows, ActiveRowOf(s, u))
  {
    if rows != [] {
      var n := |rows| - 1;
      CloseCounts(rows[..n], sid, user, at, s, u);
      var r := CloseRows(rows, sid, user, at)[n];
      assert CloseRows(rows, sid, user, at) == CloseRows(rows[..n], sid, user, at) + [r];
      CountSnoc(CloseRows(rows[..n], sid, user, at), r, RowOf(s, u));
      CountSnoc(CloseRows(rows[..n], sid, user, at), r, ActiveRowOf(s, u));
    }
  }

  lemma {:induction false} CloseKeepsTimes(rows: seq<Row>, sid: int, user: int, at: int)
    requires forall r :: r in rows ==> (r.leftAt.Some? <==> !r.active)
    ensures forall r :: r in CloseRows(rows, sid, user, at) ==> (r.leftAt.Some? <==> !r.active)
  {
    if rows != [] { CloseKeepsTimes(rows[..|rows| - 1], sid, user, at); }
  }

  // ---------- what every operation keeps ----------

  /** The unique index, and `left_at` set exactly on inactive rows. */
  ghost predicate Sound(t: Tables) {
    && (forall s, u :: CountIf(t.rows, ActiveRowOf(s, u)) <= 1)
    && (forall r :: r in t.rows ==> (r.leftAt.Some? <==> !r.active))
  }

  function LeftEventOf(sid: int, user: int): Event -> bool {
    (e: Event) => e.ParticipantLeft? && e.sid == sid && e.user == user
  }

  /** Rows ever created, less recorded departures, less rows still active. */
  function Balance(t: Tables, sid: int, user: int): int {
    CountIf(t.rows, RowOf(sid, user)) - CountIf(t.events, LeftEventOf(sid, user)) - CountIf(t.rows, ActiveRowOf(sid, user))
  }

  predicate LegalChange(from: Status, to: Status) {
    || (to == Active && from in {Created, Paused})
    || (to == Ended && from in {Created, Active, Paused})
  }

  /** Replays the status events of one session; None when an event does not continue the one before it. */
  function Replay(start: Status, events: seq<Event>, sid: int): Option<Status> {
    if events == [] then Some(start)
    else
      var before := Replay(start, events[..|events| - 1], sid);
      var e := events[|events| - 1];
      if !(e.StatusChanged? && e.sid == sid) then before
      else if before == Some(e.from) && LegalChange(e.from, e.to) then Some(e.to)
      else None
  }

  /** The statuses that the events of one session lead to, in order. */
  function Changes(events: seq<Event>, sid: int): seq<Status> {
    if events == [] then []
    else
      var e := events[|events| - 1];
      Changes(events[..|events| - 1], sid) + (if e.StatusChanged? && e.sid == sid then [e.to] else [])
  }

  /** What holds between the tables at an earlier and at a later moment, whatever happened in between. */
  ghost predicate Evolves(a: Tables, b: Tables) {
    && a.events <= b.events
    && a.status.Keys == b.status.Keys
    && (forall sid :: sid in a.status ==> Replay(a.status[sid], b.events[|a.events|..], sid) == Some(b.status[sid]))
    && (Sound(a) ==> Sound(b) && forall sid, user :: Balance(a, sid, user) == Balance(b, sid, user))
    && (forall sid :: sid in a.startedAt ==> sid in b.startedAt && b.startedAt[sid] == a.startedAt[sid])
    && (forall sid :: sid in a.endedAt ==> sid in b.endedAt && b.endedAt[sid] == a.endedAt[sid])
  }

  /** With one active row a user, a role check says exactly whether that row's role is allowed, and why not. */
  lemma RoleExactly(t: Tables, sid: int, user: int, allowed: set<Role>)
    requires Sound(t)
    ensures CheckRole(t, sid, user, allowed).None? <==> exists r :: r in t.rows && ActiveRowOf(sid, user)(r) && r.role in allowed
    ensures CheckRole(t, sid, user, allowed) == Some(NotParticipant) <==> forall r :: r in t.rows ==> !ActiveRowOf(sid, user)(r)
    ensures forall r :: r in t.rows && ActiveRowOf(sid, user)(r) && r.role !in allowed ==>
      CheckRole(t, sid, user, allowed) == Some(ForbiddenRole(r.role))
  {
    CountPositive(t.rows, ActiveRowOf(sid, user));
    forall r, q | r in t.rows && q in t.rows && ActiveRowOf(sid, user)(r) && ActiveRowOf(sid, user)(q) ensures r == q {
      CountOnce(t.rows, ActiveRowOf(sid, user), r, q);
    }
  }

  lemma {:induction false} ReplayConcat(start: Status, a: seq<Event>, b: seq<Event>, sid: int)
    requires Replay(start, a, sid).Some?
    ensures Replay(start, a + b, sid) == Replay(Replay(start, a, sid).value, b, sid)
  {
    if b == [] {
      assert a + b == a;
    } else {
      ReplayConcat(start, a, b[..|b| - 1], sid);
      assert (a + b)[..|a + b| - 1] == a + b[..|b| - 1];
    }
  }

  lemma {:induction false} ChangesConcat(a: seq<Event>, b: seq<Event>, sid: int)
    ensures Changes(a + b, sid) == Changes(a, sid) + Changes(b, sid)
  {
    if b == [] {
      assert a + b == a;
    } else {
      ChangesConcat(a, b[..|b| - 1], sid);
      assert (a + b)[..|a + b| - 1] == a + b[..|b| - 1];
    }
  }

  lemma EvolvesRefl(a: Tables)
    ensures Evolves(a, a)
  {
    assert a.events[|a.events|..] == [];
  }

  lemma EvolvesTrans(a: Tables, b: Tables, c: Tables)
    requires Evolves(a, b) && Evolves(b, c)
    ensures Evolves(a, c)
  {
    forall sid | sid in a.status
      ensures Replay(a.status[sid], c.events[|a.events|..], sid) == Some(c.status[sid])
    {
      ReplayConcat(a.status[sid], b.events[|a.events|..], c.events[|b.events|..], sid);
      assert c.events[|a.events|..] == b.events[|a.events|..] + c.events[|b.events|..];
    }
    if Sound(a) {
      forall sid, user ensures Balance(a, sid, user) == Balance(c, sid, user) {
        assert Balance(a, sid, user) == Balance(b, sid, user);
      }
    }
  }

  /** Appending one event that is not a departure keeps the rest of the account. */
  lemma EvolvesByEvent(a: Tables, b: Tables, e: Event)
    requires b.events == a.events + [e] && b.rows == a.rows
    requires b.status.Keys == a.status.Keys && !e.ParticipantLeft?
    requires forall sid :: sid in a.status ==>
      if e.StatusChanged? && e.sid == sid then e.from == a.status[sid] && e.to == b.status[sid] && LegalChange(e.from, e.to)
      else b.status[sid] == a.status[sid]
    requires forall sid :: sid in a.startedAt ==> sid in b.startedAt && b.startedAt[sid] == a.startedAt[sid]
    requires forall sid :: sid in a.endedAt ==> sid in b.endedAt && b.endedAt[sid] == a.endedAt[sid]
    ensures Evolves(a, b)
  {
    assert b.events[|a.events|..] == [e];
    forall sid | sid in a.status ensures Replay(a.status[sid], [e], sid) == Some(b.status[sid]) {
      assert [e][..0] == [];
      assert Replay(a.status[sid], [], sid) == Some(a.status[sid]);
    }
    forall sid, user ensures Balance(a, sid, user) == Balance(b, sid, user) {
      CountSnoc(a.events, e, LeftEventOf(sid, user));
    }
  }

  lemma StartEvolves(t: Tables, sid: int, at: int)
    ensures Evolves(t, Settle(t, AfterStart(t, sid, at)))
  {
    EvolvesRefl(t);
    if AfterStart(t, sid, at).Ok? {
      EvolvesByEvent(t, Settle(t, AfterStart(t, sid, at)), StatusChanged(sid, t.status[sid], Active, at));
    }
  }

  lemma EndEvolves(t: Tables, sid: int, at: int)
    ensures Evolves(t, Settle(t, AfterEnd(t, sid, at)))
  {
    EvolvesRefl(t);
    if AfterEnd(t, sid, at).Ok? {
      EvolvesByEvent(t, Settle(t, AfterEnd(t, sid, at)), StatusChanged(sid, t.status[sid], Ended, at));
    }
  }

  lemma JoinEvolves(t: Tables, sid: int, user: int, name: Option<string>, role: Role, at: int)
    ensures Evolves(t, Settle(t, AfterJoin(t, sid, user, name, role, at)))
  {
    EvolvesRefl(t);
    if AfterJoin(t, sid, user, name, role, at).Ok? {
      var e := ParticipantJoined(sid, user, role, at);
      var logged := t.(events := t.events + [e]);
      EvolvesByEvent(t, logged, e);
      if !HasActive(t.rows, sid, user) {
        var row := Row(sid, user, name, role, at, None, true);
        var b := logged.(rows := t.rows + [row]);
        assert b.events[|logged.events|..] == [];
        forall s, u ensures Balance(logged, s, u) == Balance(b, s, u)
          && CountIf(b.rows, ActiveRowOf(s, u)) == CountIf(t.rows, ActiveRowOf(s, u)) + if s == sid && u == user then 1 else 0
        {
          CountSnoc(t.rows, row, RowOf(s, u));
          CountSnoc(t.rows, row, ActiveRowOf(s, u));
        }
        assert Evolves(logged, b);
        EvolvesTrans(t, logged, b);
      }
    }
  }

  lemma LeaveEvolves(t: Tables, sid: int, user: int, at: int)
    ensures Evolves(t, Settle(t, AfterLeave(t, sid, user, at)))
    ensures !HasActive(Settle(t, AfterLeave(t, sid, user, at)).rows, sid, user)
  {
    EvolvesRefl(t);
    if AfterLeave(t, sid, user, at).Ok? {
      var e := ParticipantLeft(sid, user, at);
      var b := Settle(t, AfterLeave(t, sid, user, at));
      assert b.events[|t.events|..] == [e];
      forall s | s in t.status ensures Replay(t.status[s], [e], s) == Some(b.status[s]) {
        assert [e][..0] == [];
        assert Replay(t.status[s], [], s) == Some(t.status[s]);
      }
      forall s, u ensures Sound(t) ==> Balance(t, s, u) == Balance(b, s, u) && CountIf(b.rows, ActiveRowOf(s, u)) <= 1 {
        CountSnoc(t.events, e, LeftEventOf(s, u));
        CloseCounts(t.rows, sid, user, at, s, u);
      }
      CloseCounts(t.rows, sid, user, at, sid, user);
      if Sound(t) { CloseKeepsTimes(t.rows, sid, user, at); }
    }
  }

  // ---------- what joining and leaving come to, told from the rows ----------

  /** Some row of the user in the session is active. */
  ghost predicate Present(rows: seq<Row>, sid: int, user: int) {
    exists r :: r in rows && r.sid == sid && r.user == user && r.active
  }

  /**
    A join fails if and only if the user has no active row and the session does not exist. Otherwise it is logged,
    and a user without an active row gets one, as the last row; nothing else changes.
  */
  lemma JoinExactly(t: Tables, sid: int, user: int, name: Option<string>, role: Role, at: int)
    ensures var r := AfterJoin(t, sid, user, name, role, at);
      && (Failure(r).Some? <==> !Present(t.rows, sid, user) && sid !in t.status)
      && (Failure(r).Some? ==> Failure(r) == Some(NoSuchSession))
      && Settle(t, r) == if Failure(r).Some? then t else
           t.(rows := if Present(t.rows, sid, user) then t.rows else t.rows + [Row(sid, user, name, role, at, None, true)],
              events := t.events + [ParticipantJoined(sid, user, role, at)])
  {
    CountPositive(t.rows, ActiveRowOf(sid, user));
    hide CountIf;
  }

  /** The same rows, except that those of the user in the session that were active are closed at this time. */
  ghost predicate Closed(rows: seq<Row>, after: seq<Row>, sid: int, user: int, at: int) {
    && |after| == |rows|
    && forall i :: 0 <= i < |rows| ==> after[i] == ClosedRow(rows[i], sid, user, at)
  }

  function ClosedRow(r: Row, sid: int, user: int, at: int): Row {
    if r.sid == sid && r.user == user && r.active
    then Row(r.sid, r.user, r.displayName, r.role, r.joinedAt, Some(at), false)
    else r
  }

  lemma {:induction false} CloseRowsCloses(rows: seq<Row>, sid: int, user: int, at: int)
    ensures Closed(rows, CloseRows(rows, sid, user, at), sid, user, at)
  {
    if rows != [] { CloseRowsCloses(rows[..|rows| - 1], sid, user, at); }
  }

  /** A leave fails, and changes nothing, if and only if the user has no active row. Otherwise it closes them and is logged. */
  lemma LeaveExactly(t: Tables, sid: int, user: int, at: int)
    ensures var r := AfterLeave(t, sid, user, at);
      var after := Settle(t, r);
      && (Failure(r).Some? <==> !Present(t.rows, sid, user))
      && (Failure(r).Some? ==> Failure(r) == Some(NoActiveRow))
      && Closed(t.rows, after.rows, sid, user, at)
      && after == t.(rows := after.rows, events := if Present(t.rows, sid, user) then t.events + [ParticipantLeft(sid, user, at)] else t.events)
  {
    CountPositive(t.rows, ActiveRowOf(sid, user));
    CloseRowsCloses(t.rows, sid, user, at);
    hide CountIf, CloseRows;
  }
}
