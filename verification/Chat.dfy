// The chat table: deduplicated appends, and the bounded history read back oldest first.
module Chat {
  import opened Outcomes
  import opened Tally
  import opened Wire

  datatype Message = Message(id: nat, sid: int, pid: string, client: Option<string>, sender: string, body: string)

  /** `nextId` is the serial counter: an attempted insert consumes a number even when it is refused. */
  datatype Table = Table(rows: seq<Message>, nextId: nat)

  datatype Insert = Inserted(id: nat) | Duplicate | Failed

  const MAX_BODY := 2000
  const MAX_LIST := 200

  function ClientId(raw: string): Option<string> {
    var cid := Trim(raw);
    if cid == "" then None else Some(cid)
  }

  function SentAs(sid: int, cid: string): Message -> bool {
    (m: Message) => m.sid == sid && m.client == Some(cid)
  }

  predicate Known(rows: seq<Message>, sid: int, client: Option<string>) {
    client.Some? && CountIf(rows, SentAs(sid, client.value)) > 0
  }

  function Clipped(body: string): string {
    var b := Trim(body);
    if |b| > MAX_BODY then b[..MAX_BODY] else b
  }

  /** `sessionExists` is the foreign key of the table. */
  function AfterAppend(t: Table, sessionExists: bool, sid: int, pid: string, cid: string, name: string, body: string): (Table, Insert) {
    if Trim(body) == "" then (t, Failed)
    else if Known(t.rows, sid, ClientId(cid)) then (t.(nextId := t.nextId + 1), Duplicate)
    else if !sessionExists then (t.(nextId := t.nextId + 1), Failed)
    else (Table(t.rows + [Message(t.nextId, sid, pid, ClientId(cid), Trim(name), Clipped(body))], t.nextId + 1), Inserted(t.nextId))
  }

  function OfSession(rows: seq<Message>, sid: int): seq<Message> {
    if rows == [] then []
    else OfSession(rows[..|rows| - 1], sid) + (if rows[|rows| - 1].sid == sid then [rows[|rows| - 1]] else [])
  }

  function ClampLimit(limit: int): (n: nat)
    ensures 1 <= n <= MAX_LIST
  {
    if limit < 1 then 1 else if limit > MAX_LIST then MAX_LIST else limit
  }

  /** Ids ascend, and no two rows of a session carry the same client id. */
  ghost predicate Sound(t: Table) {
    && (forall i, j :: 0 <= i < j < |t.rows| ==> t.rows[i].id < t.rows[j].id)
    && (forall m :: m in t.rows ==> m.id < t.nextId)
    && (forall sid, cid :: CountIf(t.rows, SentAs(sid, cid)) <= 1)
  }

  /** The query: rows of the session by descending id, at most `limit` of them. */
  function NewestFirst(rows: seq<Message>, sid: int, limit: nat): seq<Message> {
    if rows == [] || limit == 0 then []
    else
      var m := rows[|rows| - 1];
      if m.sid == sid then [m] + NewestFirst(rows[..|rows| - 1], sid, limit - 1)
      else NewestFirst(rows[..|rows| - 1], sid, limit)
  }

  function Reversed<T>(s: seq<T>): (r: seq<T>)
    ensures |r| == |s|
    ensures forall i :: 0 <= i < |s| ==> r[i] == s[|s| - 1 - i]
  {
    seq(|s|, i requires 0 <= i < |s| => s[|s| - 1 - i])
  }

  class Repository {
    var rows: seq<Message>
    var nextId: nat

    ghost function View(): Table
      reads this
    {
      Table(rows, nextId)
    }

    constructor ()
      ensures View() == Table([], 1)
    {
      rows, nextId := [], 1;
    }

    method AppendMessage(sessionExists: bool, sid: int, pid: string, cid: string, name: string, body: string) returns (res: Insert)
      modifies this
      ensures (View(), res) == AfterAppend(old(View()), sessionExists, sid, pid, cid, name, body)
    {
      var text := Trim(body);
      if text == "" { return Failed; }
      if |text| > MAX_BODY { text := text[..MAX_BODY]; }
      var client := ClientId(cid);
      var id := nextId;
      nextId := nextId + 1;
      if Known(rows, sid, client) { return Duplicate; }
      if !sessionExists { return Failed; }
      rows := rows + [Message(id, sid, pid, client, Trim(name), text)];
      return Inserted(id);
    }

    method ListRecent(sid: int, limit: int) returns (out: seq<Message>)
      ensures out == Last(OfSession(rows, sid), if limit < 1 then 1 else if limit > 200 then 200 else limit)
    {
      hide OfSession, Last, NewestFirst;
      var n := ClampLimit(limit);
      assert n == if limit < 1 then 1 else if limit > 200 then 200 else limit;
      hide ClampLimit;
      var found := NewestFirst(rows, sid, n);
      var slice := new Message[|found|](i requires 0 <= i < |found| => found[i]);
      var i, j := 0, |found| - 1;
      while i < j
        invariant 0 <= i && i + j == |found| - 1 && -1 <= j && i <= j + 2
        invariant forall k :: 0 <= k < i ==> slice[k] == found[|found| - 1 - k]
        invariant forall k :: i <= k <= j ==> slice[k] == found[k]
        invariant forall k :: j < k < |found| ==> slice[k] == found[|found| - 1 - k]
      {
        slice[i], slice[j] := slice[j], slice[i];
        i, j := i + 1, j - 1;
      }
      out := slice[..];
      assert out == Reversed(found);
      NewestIsSuffix(rows, sid, n);
    }
  }

  lemma ReversedCons<T>(x: T, s: seq<T>)
    ensures Reversed([x] + s) == Reversed(s) + [x]
  {
  }

  lemma LastSnoc<T>(s: seq<T>, x: T, n: nat)
    requires n > 0
    ensures Last(s + [x], n) == Last(s, n - 1) + [x]
  {
  }

  /** Reading newest first and reversing gives the most recent rows in the order they were written. */
  lemma {:induction false} NewestIsSuffix(rows: seq<Message>, sid: int, limit: nat)
    ensures Reversed(NewestFirst(rows, sid, limit)) == Last(OfSession(rows, sid), limit)
  {
    if limit == 0 {
      hide OfSession;
    } else if rows != [] {
      var before := rows[..|rows| - 1];
      var m := rows[|rows| - 1];
      var rest := NewestFirst(before, sid, if m.sid == sid then limit - 1 else limit);
      assert NewestFirst(rows, sid, limit) == if m.sid == sid then [m] + rest else rest;
      assert OfSession(rows, sid) == if m.sid == sid then OfSession(before, sid) + [m] else OfSession(before, sid) + [];
      hide *;
      if m.sid == sid {
        NewestIsSuffix(before, sid, limit - 1);
        ReversedCons(m, rest);
        LastSnoc(OfSession(before, sid), m, limit);
      } else {
        NewestIsSuffix(before, sid, limit);
        assert OfSession(before, sid) + [] == OfSession(before, sid);
      }
    }
  }

  lemma AppendKeepsSound(t: Table, known: bool, sid: int, pid: string, cid: string, name: string, body: string)
    requires Sound(t)
    ensures Sound(AfterAppend(t, known, sid, pid, cid, name, body).0)
  {
    var (t', res) := AfterAppend(t, known, sid, pid, cid, name, body);
    if res.Inserted? {
      forall s, c ensures CountIf(t'.rows, SentAs(s, c)) <= 1 {
        CountSnoc(t.rows, t'.rows[|t.rows|], SentAs(s, c));
      }
    }
  }

  /** A client id that was accepted once is never accepted again in that session, however often it is resent. */
  lemma ResendIsDuplicate(t: Table, known: bool, sid: int, pid: string, cid: string, name: string, body: string,
                          known': bool, pid': string, name': string, body': string)
    requires Trim(cid) != "" && AfterAppend(t, known, sid, pid, cid, name, body).1.Inserted?
    ensures !AfterAppend(AfterAppend(t, known, sid, pid, cid, name, body).0, known', sid, pid', cid, name', body').1.Inserted?
  {
    var t' := AfterAppend(t, known, sid, pid, cid, name, body).0;
    CountSnoc(t.rows, t'.rows[|t.rows|], SentAs(sid, Trim(cid)));
  }

  /** Some row of the session was sent under this client id. */
  ghost predicate Sent(rows: seq<Message>, sid: int, cid: string) {
    exists m :: m in rows && m.sid == sid && m.client == Some(cid)
  }

  /**
    A line is stored if and only if it is not blank, the session exists, and its trimmed client id is empty or new to the
    session; it is stored last, with its first 2000 characters and everything trimmed. A client id that is not new
    makes it a duplicate, and nothing else does; a line that is not stored leaves the rows alone.
  */
  lemma InsertedExactly(t: Table, sessionExists: bool, sid: int, pid: string, cid: string, name: string, body: string)
    ensures var (after, res) := AfterAppend(t, sessionExists, sid, pid, cid, name, body);
      var id, text := Trim(cid), Trim(body);
      && (res.Inserted? <==> text != "" && sessionExists && (id == "" || !Sent(t.rows, sid, id)))
      && (res.Duplicate? <==> text != "" && id != "" && Sent(t.rows, sid, id))
      && after.nextId == (if text == "" then t.nextId else t.nextId + 1)
      && (!res.Inserted? ==> after.rows == t.rows)
      && (res.Inserted? ==>
           var stored := if |text| > 2000 then text[..2000] else text;
           after.rows == t.rows + [Message(t.nextId, sid, pid, if id == "" then None else Some(id), Trim(name), stored)])
      && (res.Inserted? ==> res.id == t.nextId)
  {
    CountPositive(t.rows, SentAs(sid, Trim(cid)));
    hide Trim, CountIf;
  }

  /** The rows of a session are those with its number, in the order they were stored. */
  lemma SessionRows(rows: seq<Message>, sid: int)
    ensures forall m :: m in OfSession(rows, sid) <==> m in rows && m.sid == sid
    ensures IdsAscend(rows) ==> IdsAscend(OfSession(rows, sid))
  {
    SessionMembers(rows, sid);
    SessionAscends(rows, sid);
    hide IdsAscend;
  }

  predicate IdsAscend(rows: seq<Message>) { forall i, j :: 0 <= i < j < |rows| ==> rows[i].id < rows[j].id }

  lemma {:induction false} SessionMembers(rows: seq<Message>, sid: int)
    ensures forall m :: m in OfSession(rows, sid) <==> m in rows && m.sid == sid
  {
    if rows != [] {
      var n := |rows| - 1;
      SessionMembers(rows[..n], sid);
      assert rows == rows[..n] + [rows[n]];
    }
  }

  lemma {:induction false} SessionAscends(rows: seq<Message>, sid: int)
    ensures IdsAscend(rows) ==> IdsAscend(OfSession(rows, sid))
  {
    if rows != [] && IdsAscend(rows) {
      var n := |rows| - 1;
      var before := OfSession(rows[..n], sid);
      SessionAscends(rows[..n], sid);
      SessionMembers(rows[..n], sid);
      forall i | 0 <= i < |before| ensures before[i].id < rows[n].id {
        assert before[i] in rows[..n];
      }
      assert IdsAscend(rows[..n]);
      hide OfSession;
    }
  }
}
