// Refresh-token rotation: issuing and replacing rows of the refresh_tokens table.
module RefreshTokens {
  import opened Outcomes

  type Hash = string
  type User = int
  /** Nanoseconds. */
  type Time = int

  const REFRESH_TTL: Time := 7 * 24 * 3600 * 1_000_000_000

  datatype Row = Row(hash: Hash, user: User, expires: Time, revoked: Option<Time>, replacedBy: Option<Hash>)

  datatype Error = InvalidToken | ExpiredToken | NoRandom | NotStored | NotMinted

  /** The table, and the users of the `token_refresh` events. */
  datatype Store = Store(rows: seq<Row>, events: seq<User>)

  // ---------- rows ----------

  /** The position of the row with a hash, or the number of rows. */
  function Find(rows: seq<Row>, h: Hash): (i: nat)
    ensures i <= |rows| && (i < |rows| ==> rows[i].hash == h)
    ensures forall j :: 0 <= j < i ==> rows[j].hash != h
  {
    if rows == [] then 0 else
      var i := Find(rows[..|rows| - 1], h);
      if i < |rows| - 1 || rows[i].hash == h then i else |rows|
  }

  /** What INSERT needs: no row with this hash yet, and an existing user. */
  predicate Insertable(users: set<User>, rows: seq<Row>, user: User, h: Hash) {
    user in users && Find(rows, h) == |rows|
  }

  /** Every row with this hash is marked. */
  function RevokedRows(rows: seq<Row>, h: Hash, at: Time, successor: Option<Hash>): (r: seq<Row>)
    ensures |r| == |rows|
  {
    seq(|rows|, i requires 0 <= i < |rows| => if rows[i].hash == h then rows[i].(revoked := Some(at), replacedBy := successor) else rows[i])
  }

  class Repository {
    const users: set<User>
    var store: Store

    constructor (users: set<User>)
      ensures this.users == users && store == Store([], [])
    {
      this.users := users;
      store := Store([], []);
    }

    method CreateRefreshToken(user: User, h: Hash, expires: Time) returns (ok: bool)
      modifies this
      ensures ok <==> Insertable(users, old(store.rows), user, h)
      ensures store == if ok then old(store).(rows := old(store.rows) + [Row(h, user, expires, None, None)]) else old(store)
    {
      ok := user in users && Find(store.rows, h) == |store.rows|;
      if ok { store := store.(rows := store.rows + [Row(h, user, expires, None, None)]); }
    }

    method GetRefreshToken(h: Hash) returns (row: Option<Row>)
      ensures row.None? <==> forall r :: r in store.rows ==> r.hash != h
      ensures row.Some? ==> row.value in store.rows && row.value.hash == h && row.value == store.rows[Find(store.rows, h)]
    {
      var i := Find(store.rows, h);
      row := if i < |store.rows| then Some(store.rows[i]) else None;
    }

    method RevokeRefreshToken(h: Hash, at: Time, successor: Option<Hash>)
      modifies this
      ensures store == old(store).(rows := RevokedRows(old(store.rows), h, at, successor))
    {
      store := store.(rows := RevokedRows(store.rows, h, at, successor));
    }

    method AppendAuthEvent(user: User)
      modifies this
      ensures store == old(store).(events := old(store.events) + [user])
    {
      store := store.(events := store.events + [user]);
    }
  }

  // ---------- calls ----------

  /** `token`: the hash of the fresh random token, if the random source delivers; `minted`: whether the access token could be signed. */
  datatype Call =
    | Issue(user: User, now: Time, token: Option<Hash>, minted: bool)
    | Refresh(h: Hash, now: Time, token: Option<Hash>, minted: bool)

  /** The row a refresh call may rotate. */
  predicate Usable(rows: seq<Row>, c: Call) {
    && c.Refresh? && Find(rows, c.h) < |rows|
    && var row := rows[Find(rows, c.h)]; row.revoked.None? && c.now <= row.expires
  }

  predicate Rotates(users: set<User>, rows: seq<Row>, c: Call) {
    && Usable(rows, c) && c.token.Some?
    && Insertable(users, rows, rows[Find(rows, c.h)].user, c.token.value)
  }

  predicate Issues(users: set<User>, rows: seq<Row>, c: Call) {
    c.Issue? && c.token.Some? && Insertable(users, rows, c.user, c.token.value)
  }

  function Step(users: set<User>, s: Store, c: Call): Store {
    if Issues(users, s.rows, c) then
      s.(rows := s.rows + [Row(c.token.value, c.user, c.now + REFRESH_TTL, None, None)])
    else if Rotates(users, s.rows, c) then
      var user := s.rows[Find(s.rows, c.h)].user;
      Store(RevokedRows(s.rows, c.h, c.now, c.token) + [Row(c.token.value, user, c.now + REFRESH_TTL, None, None)],
        s.events + [user])
    else s
  }

  function Reply(users: set<User>, rows: seq<Row>, c: Call): Result<Hash, Error> {
    if c.Refresh? && (Find(rows, c.h) == |rows| || rows[Find(rows, c.h)].revoked.Some?) then Err(InvalidToken)
    else if c.Refresh? && c.now > rows[Find(rows, c.h)].expires then Err(ExpiredToken)
    else if c.token.None? then Err(NoRandom)
    else if !Issues(users, rows, c) && !Rotates(users, rows, c) then Err(NotStored)
    else if !c.minted then Err(NotMinted)
    else Ok(c.token.value)
  }

  class Service {
    const repo: Repository

    constructor (repo: Repository)
      ensures this.repo == repo
    {
      this.repo := repo;
    }

    method Refresh(h: Hash, now: Time, token: Option<Hash>, minted: bool) returns (r: Result<Hash, Error>)
      modifies repo
      ensures var c := Call.Refresh(h, now, token, minted);
        repo.store == Step(repo.users, old(repo.store), c) && r == Reply(repo.users, old(repo.store.rows), c)
    {
      var stored := repo.GetRefreshToken(h);
      if stored.None? || stored.value.revoked.Some? { return Err(InvalidToken); }
      if now > stored.value.expires { return Err(ExpiredToken); }
      if token.None? { return Err(NoRandom); }
      var created := repo.CreateRefreshToken(stored.value.user, token.value, now + REFRESH_TTL);
      if !created { return Err(NotStored); }
      ghost var before := old(repo.store.rows);
      repo.RevokeRefreshToken(h, now, Some(token.value));
      assert repo.store.rows == RevokedRows(before, h, now, token) + [Row(token.value, stored.value.user, now + REFRESH_TTL, None, None)];
      repo.AppendAuthEvent(stored.value.user);
      r := if minted then Ok(token.value) else Err(NotMinted);
    }

    method IssueTokens(user: User, now: Time, token: Option<Hash>, minted: bool) returns (r: Result<Hash, Error>)
      modifies repo
      ensures var c := Issue(user, now, token, minted);
        repo.store == Step(repo.users, old(repo.store), c) && r == Reply(repo.users, old(repo.store.rows), c)
    {
      if token.None? { return Err(NoRandom); }
      var created := repo.CreateRefreshToken(user, token.value, now + REFRESH_TTL);
      if !created { return Err(NotStored); }
      r := if minted then Ok(token.value) else Err(NotMinted);
    }
  }
}
