// What rotation guarantees over whole runs: the links between refresh-token rows form disjoint chains.
module Rotation {
  import opened Outcomes
  import opened Tally
  import opened RefreshTokens

  function Run(users: set<User>, calls: seq<Call>): Store {
    if calls == [] then Store([], []) else Step(users, Run(users, calls[..|calls| - 1]), calls[|calls| - 1])
  }

  // ---------- links ----------

  function Next(rows: seq<Row>, i: nat): nat
    requires i < |rows| && rows[i].replacedBy.Some?
  {
    Find(rows, rows[i].replacedBy.value)
  }

  /** A row is revoked exactly when it was replaced, by a later row of the same user. */
  ghost predicate LinkOk(rows: seq<Row>, i: nat)
    requires i < |rows|
  {
    && (rows[i].revoked.Some? <==> rows[i].replacedBy.Some?)
    && (rows[i].replacedBy.Some? ==> i < Next(rows, i) < |rows| && rows[Next(rows, i)].user == rows[i].user)
  }

  ghost predicate Distinct(rows: seq<Row>) {
    forall i, j :: 0 <= i < j < |rows| ==> rows[i].hash != rows[j].hash
  }

  ghost predicate Injective(rows: seq<Row>) {
    forall i, j :: 0 <= i < j < |rows| && rows[i].replacedBy.Some? ==> rows[i].replacedBy != rows[j].replacedBy
  }

  ghost predicate Linked(rows: seq<Row>) {
    && Distinct(rows) && Injective(rows)
    && (forall i :: 0 <= i < |rows| ==> LinkOk(rows, i))
  }

  lemma FindIs(rows: seq<Row>, h: Hash, i: nat)
    requires Distinct(rows) && i < |rows| && rows[i].hash == h
    ensures Find(rows, h) == i
  {
    hide Find;
    assert Find(rows, h) <= i;
  }

  /** The rows after a rotation of row `k`. */
  function Rotated(rows: seq<Row>, k: nat, at: Time, h: Hash): seq<Row>
    requires k < |rows|
  {
    rows[k := rows[k].(revoked := Some(at), replacedBy := Some(h))] + [Row(h, rows[k].user, at + REFRESH_TTL, None, None)]
  }

  lemma StepShape(users: set<User>, s: Store, c: Call)
    requires Distinct(s.rows)
    ensures Step(users, s, c).rows ==
      if Issues(users, s.rows, c) then s.rows + [Row(c.token.value, c.user, c.now + REFRESH_TTL, None, None)]
      else if Rotates(users, s.rows, c) then Rotated(s.rows, Find(s.rows, c.h), c.now, c.token.value)
      else s.rows
  {
    hide Find, Insertable, Issues;
    if Rotates(users, s.rows, c) && !Issues(users, s.rows, c) {
      var k := Find(s.rows, c.h);
      assert forall i :: 0 <= i < |s.rows| && i != k ==> s.rows[i].hash != c.h;
      assert RevokedRows(s.rows, c.h, c.now, c.token) == s.rows[k := s.rows[k].(revoked := Some(c.now), replacedBy := c.token)];
    }
  }

  lemma AppendKeepsLinked(rows: seq<Row>, row: Row)
    requires Linked(rows) && row.revoked.None? && row.replacedBy.None? && Find(rows, row.hash) == |rows|
    ensures Linked(rows + [row])
  {
    hide Find;
    var after := rows + [row];
    assert Distinct(after);
    forall i | 0 <= i < |after| ensures LinkOk(after, i) {
      if i < |rows| {
        assert LinkOk(rows, i);
        if rows[i].replacedBy.Some? { FindIs(after, rows[i].replacedBy.value, Next(rows, i)); }
      }
    }
  }

  lemma MarkKeepsLinked(rows: seq<Row>, k: nat, at: Time, n: nat)
    requires Linked(rows) && k < n < |rows| && rows[k].revoked.None? && rows[n].user == rows[k].user
    requires forall i :: 0 <= i < |rows| ==> rows[i].replacedBy != Some(rows[n].hash)
    ensures Linked(rows[k := rows[k].(revoked := Some(at), replacedBy := Some(rows[n].hash))])
  {
    hide Find;
    var after := rows[k := rows[k].(revoked := Some(at), replacedBy := Some(rows[n].hash))];
    assert LinkOk(rows, k);
    assert Distinct(after);
    assert forall i :: 0 <= i < |rows| && i != k ==> after[i] == rows[i];
    assert Injective(after);
    forall i | 0 <= i < |after| ensures LinkOk(after, i) {
      assert LinkOk(rows, i);
      if i == k {
        FindIs(after, rows[n].hash, n);
      } else if rows[i].replacedBy.Some? {
        FindIs(after, rows[i].replacedBy.value, Next(rows, i));
      }
    }
  }

  lemma RotationKeepsLinked(rows: seq<Row>, k: nat, at: Time, h: Hash)
    requires Linked(rows) && k < |rows| && rows[k].revoked.None? && Find(rows, h) == |rows|
    ensures Linked(Rotated(rows, k, at, h))
  {
    hide Find;
    var row := Row(h, rows[k].user, at + REFRESH_TTL, None, None);
    AppendKeepsLinked(rows, row);
    var longer := rows + [row];
    forall i | 0 <= i < |longer| ensures longer[i].replacedBy != Some(h) {
      if i < |rows| { assert LinkOk(rows, i); }
    }
    MarkKeepsLinked(longer, k, at, |rows|);
    assert Rotated(rows, k, at, h) == longer[k := longer[k].(revoked := Some(at), replacedBy := Some(h))];
  }

  lemma StepKeepsLinked(users: set<User>, s: Store, c: Call)
    requires Linked(s.rows)
    ensures Linked(Step(users, s, c).rows)
  {
    StepShape(users, s, c);
    hide Linked, Find, Step, Rotated;
    if Issues(users, s.rows, c) {
      AppendKeepsLinked(s.rows, Row(c.token.value, c.user, c.now + REFRESH_TTL, None, None));
    } else if Rotates(users, s.rows, c) {
      RotationKeepsLinked(s.rows, Find(s.rows, c.h), c.now, c.token.value);
    }
  }

  lemma {:induction false} RunLinked(users: set<User>, calls: seq<Call>)
    ensures Linked(Run(users, calls).rows)
  {
    if calls != [] {
      RunLinked(users, calls[..|calls| - 1]);
      StepKeepsLinked(users, Run(users, calls[..|calls| - 1]), calls[|calls| - 1]);
    }
  }

  // ---------- chains ----------

  /** Where a row's chain ends: following the links always stops, at an unrevoked row of the same user. */
  ghost function Tail(rows: seq<Row>, i: nat): (t: nat)
    requires Linked(rows) && i < |rows|
    ensures i <= t < |rows| && rows[t].revoked.None? && rows[t].user == rows[i].user
    decreases |rows| - i
  {
    assert LinkOk(rows, i);
    if rows[i].replacedBy.None? then i else Tail(rows, Next(rows, i))
  }

  ghost predicate Reaches(rows: seq<Row>, i: nat, j: nat)
    requires Linked(rows) && i < |rows|
    decreases |rows| - i
  {
    assert LinkOk(rows, i);
    i == j || (rows[i].replacedBy.Some? && Reaches(rows, Next(rows, i), j))
  }

  lemma {:induction false} ReachesForward(rows: seq<Row>, i: nat, j: nat)
    requires Linked(rows) && i < |rows| && Reaches(rows, i, j)
    ensures i <= j < |rows| && Tail(rows, j) == Tail(rows, i)
    ensures j != i ==> exists m :: i <= m < j && Leads(rows, m, j)
    decreases |rows| - i
  {
    assert LinkOk(rows, i);
    if i != j {
      var n := Next(rows, i);
      ReachesForward(rows, n, j);
      if n == j { assert Leads(rows, i, j); }
    }
  }

  /** Row `m` was replaced by row `j`. */
  predicate Leads(rows: seq<Row>, m: nat, j: nat) {
    m < |rows| && rows[m].replacedBy.Some? && Next(rows, m) == j
  }

  /** A row is reached from strictly later rows than its predecessor by no path but the empty one. */
  lemma OnlyPredecessor(rows: seq<Row>, i: nat, k: nat)
    requires Linked(rows) && i < k < |rows| && rows[i].replacedBy.Some? && k != Next(rows, i)
    ensures !Reaches(rows, k, Next(rows, i))
  {
    hide Find, Reaches;
    assert LinkOk(rows, i);
    assert forall m: nat :: Leads(rows, m, Next(rows, i)) ==> m == i;
    if Reaches(rows, k, Next(rows, i)) { ReachesForward(rows, k, Next(rows, i)); }
  }

  /** Two rows have the same end exactly when one was rotated into the other: chains never merge. */
  lemma {:induction false} SameTailSameChain(rows: seq<Row>, i: nat, k: nat)
    requires Linked(rows) && i <= k < |rows|
    ensures Tail(rows, i) == Tail(rows, k) <==> Reaches(rows, i, k)
    decreases |rows| - i
  {
    assert LinkOk(rows, i);
    if Reaches(rows, i, k) {
      ReachesForward(rows, i, k);
    } else if rows[i].replacedBy.Some? {
      var n := Next(rows, i);
      if n <= k {
        SameTailSameChain(rows, n, k);
      } else {
        SameTailSameChain(rows, k, n);
        OnlyPredecessor(rows, i, k);
      }
    }
  }

  /** A row nothing was rotated into: it was made by IssueTokens. */
  ghost predicate Head(rows: seq<Row>, i: nat) {
    i < |rows| && forall m :: 0 <= m < |rows| ==> !Leads(rows, m, i)
  }

  ghost function HeadOf(rows: seq<Row>, i: nat): (h: nat)
    requires Linked(rows) && i < |rows|
    ensures h <= i && Head(rows, h) && Tail(rows, h) == Tail(rows, i) && rows[h].user == rows[i].user
  {
    if Head(rows, i) then i else
      var m: nat :| m < |rows| && Leads(rows, m, i);
      assert LinkOk(rows, m);
      HeadOf(rows, m)
  }

  /** Every unrevoked row ends exactly one chain, and every chain starts at exactly one head. */
  lemma OneChainEach(rows: seq<Row>, t: nat)
    requires Linked(rows) && t < |rows| && rows[t].revoked.None?
    ensures exists h: nat :: Head(rows, h) && Tail(rows, h) == t
    ensures forall h: nat, g: nat :: Head(rows, h) && Head(rows, g) && Tail(rows, h) == t && Tail(rows, g) == t ==> h == g
  {
    assert LinkOk(rows, t) && Tail(rows, t) == t;
    assert Head(rows, HeadOf(rows, t));
    forall h: nat, g: nat | Head(rows, h) && Head(rows, g) && Tail(rows, h) == t && Tail(rows, g) == t ensures h == g {
      SameTailSameChain(rows, if h < g then h else g, if h < g then g else h);
      ReachesForward(rows, if h < g then h else g, if h < g then g else h);
    }
  }

  // ---------- counting ----------

  function Live(user: User): Row -> bool { (r: Row) => r.user == user && r.revoked.None? }

  function Spent(user: User): Row -> bool { (r: Row) => r.user == user && r.revoked.Some? }

  function EventOf(user: User): User -> bool { (u: User) => u == user }

  /** How many IssueTokens calls stored a row for the user. */
  function IssueCount(users: set<User>, calls: seq<Call>, user: User): nat {
    if calls == [] then 0 else
      var before := calls[..|calls| - 1];
      var c := calls[|calls| - 1];
      IssueCount(users, before, user) + if Issues(users, Run(users, before).rows, c) && c.user == user then 1 else 0
  }

  lemma CountUpdate<T>(s: seq<T>, k: nat, x: T, p: T -> bool)
    requires k < |s|
    ensures CountIf(s[k := x], p) == CountIf(s, p) - (if p(s[k]) then 1 else 0) + (if p(x) then 1 else 0)
  {
    assert s == s[..k] + [s[k]] + s[k + 1..];
    assert s[k := x] == s[..k] + [x] + s[k + 1..];
    CountConcat(s[..k] + [s[k]], s[k + 1..], p);
    CountConcat(s[..k] + [x], s[k + 1..], p);
    CountSnoc(s[..k], s[k], p);
    CountSnoc(s[..k], x, p);
  }

  /** A rotation trades one live row for another of the same user, and logs it. */
  lemma RotationTrades(rows: seq<Row>, k: nat, at: Time, h: Hash, user: User)
    requires k < |rows| && rows[k].revoked.None?
    ensures CountIf(Rotated(rows, k, at, h), Live(user)) == CountIf(rows, Live(user))
    ensures CountIf(Rotated(rows, k, at, h), Spent(user)) == CountIf(rows, Spent(user)) + if rows[k].user == user then 1 else 0
  {
    var marked := rows[k].(revoked := Some(at), replacedBy := Some(h));
    var row := Row(h, rows[k].user, at + REFRESH_TTL, None, None);
    CountUpdate(rows, k, marked, Live(user));
    CountUpdate(rows, k, marked, Spent(user));
    CountSnoc(rows[k := marked], row, Live(user));
    CountSnoc(rows[k := marked], row, Spent(user));
  }

  /** Over any run: a user's unrevoked tokens are the user's issues, and the revoked ones the logged refreshes. */
  lemma {:induction false} TokensAccounted(users: set<User>, calls: seq<Call>, user: User)
    ensures CountIf(Run(users, calls).rows, Live(user)) == IssueCount(users, calls, user)
    ensures CountIf(Run(users, calls).rows, Spent(user)) == CountIf(Run(users, calls).events, EventOf(user))
  {
    if calls != [] {
      var before := calls[..|calls| - 1];
      var c := calls[|calls| - 1];
      var s := Run(users, before);
      TokensAccounted(users, before, user);
      RunLinked(users, before);
      StepShape(users, s, c);
      hide Linked, Find;
      if Issues(users, s.rows, c) {
        var row := Row(c.token.value, c.user, c.now + REFRESH_TTL, None, None);
        CountSnoc(s.rows, row, Live(user));
        CountSnoc(s.rows, row, Spent(user));
      } else if Rotates(users, s.rows, c) {
        var k := Find(s.rows, c.h);
        RotationTrades(s.rows, k, c.now, c.token.value, user);
        CountSnoc(s.events, s.rows[k].user, EventOf(user));
      }
    }
  }

  // ---------- a token rotates at most once ----------

  predicate Used(rows: seq<Row>, h: Hash) {
    Find(rows, h) < |rows| && rows[Find(rows, h)].revoked.Some?
  }

  lemma UsedStays(users: set<User>, s: Store, c: Call, h: Hash)
    requires Linked(s.rows)
    requires Used(s.rows, h) || (Rotates(users, s.rows, c) && c.h == h)
    ensures Used(Step(users, s, c).rows, h)
  {
    StepKeepsLinked(users, s, c);
    StepShape(users, s, c);
    hide Find, LinkOk, Injective;
    FindIs(Step(users, s, c).rows, h, Find(s.rows, h));
  }

  /** Once a token has been rotated, no later refresh with it does anything, in any continuation of the run. */
  lemma RotatesOnce(users: set<User>, calls: seq<Call>, i: nat, j: nat)
    requires i < j < |calls| && calls[i].Refresh? && calls[j].Refresh? && calls[i].h == calls[j].h
    requires Rotates(users, Run(users, calls[..i]).rows, calls[i])
    ensures Reply(users, Run(users, calls[..j]).rows, calls[j]) == Err(InvalidToken)
    ensures Run(users, calls[..j + 1]) == Run(users, calls[..j])
  {
    RunTo(users, calls, i);
    RunTo(users, calls, j);
    RunLinked(users, calls[..i]);
    UsedStays(users, Run(users, calls[..i]), calls[i], calls[i].h);
    StaysUsed(users, calls, i + 1, j, calls[i].h);
    hide Run, Linked, Find;
  }

  lemma {:induction false} StaysUsed(users: set<User>, calls: seq<Call>, i: nat, j: nat, h: Hash)
    requires i <= j <= |calls| && Used(Run(users, calls[..i]).rows, h)
    ensures Used(Run(users, calls[..j]).rows, h)
  {
    hide *;
    if i < j {
      StaysUsed(users, calls, i, j - 1, h);
      RunTo(users, calls, j - 1);
      RunLinked(users, calls[..j - 1]);
      UsedStays(users, Run(users, calls[..j - 1]), calls[j - 1], h);
    }
  }

  lemma RunTo(users: set<User>, calls: seq<Call>, j: nat)
    requires j < |calls|
    ensures Run(users, calls[..j + 1]) == Step(users, Run(users, calls[..j]), calls[j])
  {
    assert calls[..j + 1][..j] == calls[..j];
  }

  // ---------- what each call comes to, told from the rows alone ----------

  /** A row with this hash that was not revoked. */
  predicate Carries(r: Row, h: Hash) { r.hash == h && r.revoked.None? }

  predicate Unused(rows: seq<Row>, h: Hash) { forall r :: r in rows ==> r.hash != h }

  lemma FindCarrier(rows: seq<Row>, h: Hash)
    requires Distinct(rows)
    ensures Find(rows, h) == |rows| <==> Unused(rows, h)
    ensures forall r :: r in rows && r.hash == h ==> Find(rows, h) < |rows| && rows[Find(rows, h)] == r
  {
    hide Find;
    forall r | r in rows && r.hash == h ensures Find(rows, h) < |rows| && rows[Find(rows, h)] == r {
      var i :| 0 <= i < |rows| && rows[i] == r;
      FindIs(rows, h, i);
    }
  }

  /**
    After any calls a refresh succeeds if and only if the token's row exists, is not revoked and has not expired, its
    user exists, the new hash is not in the table, and the access token can be signed; and each error has its own cause.
  */
  lemma RefreshExactly(users: set<User>, calls: seq<Call>, h: Hash, now: Time, token: Option<Hash>, minted: bool)
    ensures var rows := Run(users, calls).rows;
      var reply := Reply(users, rows, Call.Refresh(h, now, token, minted));
      var used := token.Some? && !Unused(rows, token.value);
      && (reply.Ok? <==> minted && token.Some? && !used && exists r :: r in rows && Carries(r, h) && now <= r.expires && r.user in users)
      && (reply.Ok? ==> token == Some(reply.result))
      && (reply == Err(InvalidToken) <==> !exists r :: r in rows && Carries(r, h))
      && (reply == Err(ExpiredToken) <==> exists r :: r in rows && Carries(r, h) && now > r.expires)
      && (reply == Err(NoRandom) <==> token.None? && exists r :: r in rows && Carries(r, h) && now <= r.expires)
      && (reply == Err(NotStored) <==> token.Some? && exists r :: r in rows && Carries(r, h) && now <= r.expires && (used || r.user !in users))
  {
    RunLinked(users, calls);
    var rows := Run(users, calls).rows;
    FindCarrier(rows, h);
    if token.Some? { FindCarrier(rows, token.value); }
    hide Run, Find, Linked, Unused;
    var c := Call.Refresh(h, now, token, minted);
    var i := Find(rows, h);
    if i == |rows| || rows[i].revoked.Some? {
      assert forall r :: r in rows ==> !Carries(r, h);
    } else {
      assert rows[i] in rows && Carries(rows[i], h);
      assert forall r :: r in rows && Carries(r, h) ==> r == rows[i];
      assert Rotates(users, rows, c) <==> now <= rows[i].expires && token.Some? && rows[i].user in users && Unused(rows, token.value);
      assert !Issues(users, rows, c);
      hide Rotates, Issues;
    }
  }

  /**
    A refresh that gets as far as storing marks the token's row, and no other, as revoked now and replaced by the new
    one, which is the same user's and runs for seven days, and logs the user; any other refresh changes nothing.
  */
  lemma RefreshEffect(users: set<User>, calls: seq<Call>, h: Hash, now: Time, token: Option<Hash>, minted: bool)
    ensures var s := Run(users, calls);
      var c := Call.Refresh(h, now, token, minted);
      var reply, after := Reply(users, s.rows, c), Step(users, s, c);
      if reply.Err? && reply.error != NotMinted then after == s
      else exists k :: 0 <= k < |s.rows| && Carries(s.rows[k], h) && Replaced(s, after, k, now, token)
  {
    RunLinked(users, calls);
    var s := Run(users, calls);
    StepShape(users, s, Call.Refresh(h, now, token, minted));
    hide Run, Find, LinkOk, Injective, Distinct, Insertable;
    if Rotates(users, s.rows, Call.Refresh(h, now, token, minted)) {
      assert Replaced(s, Step(users, s, Call.Refresh(h, now, token, minted)), Find(s.rows, h), now, token);
    }
  }

  /** Row `k`, and no other, was revoked in favour of a new last row of its user, good for seven days. */
  ghost predicate Replaced(s: Store, after: Store, k: int, now: Time, token: Option<Hash>)
    requires 0 <= k < |s.rows|
  {
    && token.Some? && |after.rows| == |s.rows| + 1
    && after.rows[|s.rows|] == Row(token.value, s.rows[k].user, now + 604_800_000_000_000, None, None)
    && after.rows[k] == Row(s.rows[k].hash, s.rows[k].user, s.rows[k].expires, Some(now), token)
    && (forall i :: 0 <= i < |s.rows| && i != k ==> after.rows[i] == s.rows[i])
    && after.events == s.events + [s.rows[k].user]
  }

  /** An issue stores one row, good for seven days, if and only if the user exists and the hash is new; signing comes after. */
  lemma IssueExactly(users: set<User>, calls: seq<Call>, user: User, now: Time, token: Option<Hash>, minted: bool)
    ensures var s, c := Run(users, calls), Issue(user, now, token, minted);
      var stored := token.Some? && user in users && Unused(s.rows, token.value);
      && Step(users, s, c) == (if stored then Store(s.rows + [Row(token.value, user, now + 604_800_000_000_000, None, None)], s.events) else s)
      && Reply(users, s.rows, c) == if token.None? then Err(NoRandom) else if !stored then Err(NotStored)
                                    else if !minted then Err(NotMinted) else Ok(token.value)
  {
    RunLinked(users, calls);
    var s, c := Run(users, calls), Issue(user, now, token, minted);
    if token.Some? { FindCarrier(s.rows, token.value); }
    IssueCases(users, s, c);
    hide Run, Find, Linked, Unused, Step, Reply, Rotates;
  }

  lemma IssueCases(users: set<User>, s: Store, c: Call)
    requires c.Issue?
    ensures Step(users, s, c) == if Issues(users, s.rows, c)
      then Store(s.rows + [Row(c.token.value, c.user, c.now + 604_800_000_000_000, None, None)], s.events) else s
    ensures Reply(users, s.rows, c) == if c.token.None? then Err(NoRandom) else if !Issues(users, s.rows, c) then Err(NotStored)
                                       else if !c.minted then Err(NotMinted) else Ok(c.token.value)
  {
    hide Find, RevokedRows, Insertable;
  }

  ghost predicate InTime(rows: seq<Row>) {
    forall r :: r in rows && r.revoked.Some? ==> r.revoked.value <= r.expires
  }

  /** Over any run no token is rotated after it has expired. */
  lemma {:induction false} RevokedInTime(users: set<User>, calls: seq<Call>)
    ensures InTime(Run(users, calls).rows)
  {
    if calls != [] {
      var before, c := calls[..|calls| - 1], calls[|calls| - 1];
      RevokedInTime(users, before);
      RunLinked(users, before);
      RunSnoc(users, calls);
      var s := Run(users, before);
      StepShape(users, s, c);
      hide Run, Find, Linked, Step, Insertable;
      if Rotates(users, s.rows, c) && !Issues(users, s.rows, c) {
        var k := Find(s.rows, c.h);
        assert s.rows[k].revoked.None? && c.now <= s.rows[k].expires;
        RotatedInTime(s.rows, k, c.now, c.token.value);
      }
    }
  }

  lemma RotatedInTime(rows: seq<Row>, k: nat, at: Time, h: Hash)
    requires InTime(rows) && k < |rows| && at <= rows[k].expires
    ensures InTime(Rotated(rows, k, at, h))
  {
    var after := Rotated(rows, k, at, h);
    forall r | r in after && r.revoked.Some? ensures r.revoked.value <= r.expires {
      var i :| 0 <= i < |after| && after[i] == r;
      if i < |rows| && i != k { assert rows[i] in rows; }
    }
  }

  // ---------- expiry along a chain ----------

  /** No link leads to an earlier expiry. */
  ghost predicate Extending(rows: seq<Row>) {
    forall i, j :: 0 <= i < |rows| && 0 <= j < |rows| && Leads(rows, i, j) ==> rows[i].expires <= rows[j].expires
  }

  /** A rotation whose clock reads no earlier than when the rotated row was made. */
  predicate ClockForward(users: set<User>, rows: seq<Row>, c: Call) {
    Rotates(users, rows, c) ==> rows[Find(rows, c.h)].expires - REFRESH_TTL <= c.now
  }

  ghost predicate AlwaysForward(users: set<User>, calls: seq<Call>) {
    forall i :: 0 <= i < |calls| ==> ClockForward(users, Run(users, calls[..i]).rows, calls[i])
  }

  lemma LeadsAppend(rows: seq<Row>, row: Row, i: nat, j: nat)
    requires Linked(rows) && Linked(rows + [row]) && row.replacedBy.None?
    ensures Leads(rows + [row], i, j) <==> Leads(rows, i, j)
  {
    hide Find;
    if i < |rows| && rows[i].replacedBy.Some? {
      assert LinkOk(rows, i);
      FindIs(rows + [row], rows[i].replacedBy.value, Next(rows, i));
    }
  }

  lemma LeadsRotated(rows: seq<Row>, k: nat, at: Time, h: Hash, i: nat, j: nat)
    requires Linked(rows) && k < |rows| && rows[k].revoked.None? && Linked(Rotated(rows, k, at, h))
    ensures Leads(Rotated(rows, k, at, h), i, j) <==> Leads(rows, i, j) || (i == k && j == |rows|)
  {
    hide Find, Injective;
    var after := Rotated(rows, k, at, h);
    assert LinkOk(rows, k);
    if i == k {
      FindIs(after, h, |rows|);
    } else if i < |rows| && rows[i].replacedBy.Some? {
      assert LinkOk(rows, i);
      FindIs(after, rows[i].replacedBy.value, Next(rows, i));
    }
  }

  lemma ExtendingStep(users: set<User>, s: Store, c: Call)
    requires Linked(s.rows)
    ensures Extending(Step(users, s, c).rows) <==> Extending(s.rows) && ClockForward(users, s.rows, c)
  {
    StepKeepsLinked(users, s, c);
    StepShape(users, s, c);
    hide Find, Linked, Leads, Insertable, Step;
    var rows, after := s.rows, Step(users, s, c).rows;
    if Issues(users, rows, c) {
      var row := Row(c.token.value, c.user, c.now + REFRESH_TTL, None, None);
      forall i: nat, j: nat ensures Leads(after, i, j) <==> Leads(rows, i, j) { LeadsAppend(rows, row, i, j); }
      NoLeadToNew(rows);
    } else if Rotates(users, rows, c) {
      var k := Find(rows, c.h);
      forall i: nat, j: nat ensures Leads(after, i, j) <==> Leads(rows, i, j) || (i == k && j == |rows|) {
        LeadsRotated(rows, k, c.now, c.token.value, i, j);
      }
      NoLeadToNew(rows);
      assert Leads(after, k, |rows|);
    }
  }

  lemma NoLeadToNew(rows: seq<Row>)
    requires Linked(rows)
    ensures forall i: nat, j: nat :: Leads(rows, i, j) ==> i < j < |rows|
  {
    forall i: nat, j: nat | Leads(rows, i, j) ensures i < j < |rows| { assert LinkOk(rows, i); }
  }

  /** Expiry never decreases along any chain of a run exactly when no rotation read a clock behind the one its token was made by. */
  lemma {:induction false} ExtendingExactly(users: set<User>, calls: seq<Call>)
    ensures Extending(Run(users, calls).rows) <==> AlwaysForward(users, calls)
  {
    if calls != [] {
      var n := |calls| - 1;
      var before := calls[..n];
      ExtendingExactly(users, before);
      RunLinked(users, before);
      ExtendingStep(users, Run(users, before), calls[n]);
      hide Extending, ClockForward, Run, Linked;
      ForwardSnoc(users, calls);
      RunSnoc(users, calls);
    }
  }

  lemma ForwardSnoc(users: set<User>, calls: seq<Call>)
    requires calls != []
    ensures var n := |calls| - 1;
      AlwaysForward(users, calls) <==> AlwaysForward(users, calls[..n]) && ClockForward(users, Run(users, calls[..n]).rows, calls[n])
  {
    hide ClockForward, Run;
    var n := |calls| - 1;
    assert forall i :: 0 <= i < n ==> calls[..n][..i] == calls[..i] && calls[..n][i] == calls[i];
  }

  lemma RunSnoc(users: set<User>, calls: seq<Call>)
    requires calls != []
    ensures Run(users, calls) == Step(users, Run(users, calls[..|calls| - 1]), calls[|calls| - 1])
  {
  }

  /** Along a whole chain. */
  lemma {:induction false} ChainExtends(rows: seq<Row>, i: nat, j: nat)
    requires Linked(rows) && Extending(rows) && i < |rows| && Reaches(rows, i, j)
    ensures j < |rows| && rows[i].expires <= rows[j].expires
    decreases |rows| - i
  {
    assert LinkOk(rows, i);
    if i != j {
      assert Leads(rows, i, Next(rows, i));
      ChainExtends(rows, Next(rows, i), j);
    }
  }

  // ---------- a clock that never goes back ----------

  predicate Monotone(calls: seq<Call>) {
    forall i, j :: 0 <= i < j < |calls| ==> calls[i].now <= calls[j].now
  }

  lemma {:induction false} MadeEarlier(users: set<User>, calls: seq<Call>, i: nat)
    requires Monotone(calls) && calls != [] && i < |Run(users, calls).rows|
    ensures Run(users, calls).rows[i].expires <= calls[|calls| - 1].now + REFRESH_TTL
  {
    var n := |calls| - 1;
    var s := Run(users, calls[..n]);
    RunLinked(users, calls[..n]);
    StepShape(users, s, calls[n]);
    hide Find, Step;
    if i < |s.rows| && n > 0 {
      MadeEarlier(users, calls[..n], i);
    }
  }

  /** With a clock that never goes back, every chain of every run keeps its expiry or extends it. */
  lemma MonotoneExtends(users: set<User>, calls: seq<Call>, i: nat, j: nat)
    requires Monotone(calls)
    requires Linked(Run(users, calls).rows) && i < |Run(users, calls).rows| && Reaches(Run(users, calls).rows, i, j)
    ensures j < |Run(users, calls).rows| && Run(users, calls).rows[i].expires <= Run(users, calls).rows[j].expires
  {
    forall k | 0 <= k < |calls| ensures ClockForward(users, Run(users, calls[..k]).rows, calls[k]) {
      var rows := Run(users, calls[..k]).rows;
      hide Step, Find;
      if Rotates(users, rows, calls[k]) && k > 0 { MadeEarlier(users, calls[..k], Find(rows, calls[k].h)); }
    }
    ExtendingExactly(users, calls);
    ChainExtends(Run(users, calls).rows, i, j);
  }

  /** A clock that has gone back between issue and refresh: the new token expires before the old one would have. */
  lemma ClockBack(user: User)
    ensures var calls := [Issue(user, 100, Some("a"), true), Call.Refresh("a", 50, Some("b"), true)];
      var rows := Run({user}, calls).rows;
      rows == [Row("a", user, 100 + REFRESH_TTL, Some(50), Some("b")), Row("b", user, 50 + REFRESH_TTL, None, None)]
      && Leads(rows, 0, 1) && !Extending(rows)
  {
    var calls := [Issue(user, 100, Some("a"), true), Call.Refresh("a", 50, Some("b"), true)];
    var first := [Row("a", user, 100 + REFRESH_TTL, None, None)];
    assert calls[..1] == [calls[0]] && calls[..1][..0] == [];
    assert Run({user}, calls[..1][..0]) == Store([], []);
    assert Run({user}, calls[..1]).rows == first;
    assert "a"[0] != "b"[0];
    assert Find(first, "a") == 0 && Find(first, "b") == 1;
    StepShape({user}, Run({user}, calls[..1]), calls[1]);
    var rows := Rotated(first, 0, 50, "b");
    assert Find(rows, "b") == 1 by {
      var i := Find(rows, "b");
      hide Find;
      assert rows[0].hash != "b" && rows[1].hash == "b";
    }
    assert Leads(rows, 0, 1);
  }
}
