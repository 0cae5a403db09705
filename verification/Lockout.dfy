// Password login with a lock after repeated failures.
module Lockout {
  import opened Outcomes
  import opened Tally
  import opened Wire

  /** Nanoseconds. */
  type Time = int

  const MAX_FAILURES: nat := 10
  const LOCK_PERIOD: Time := 15 * 60 * 1_000_000_000

  datatype Account = Account(active: bool, legacyHash: bool, failed: nat, lockedUntil: Option<Time>, lastLogin: Option<Time>)

  datatype Error = MissingInput | InvalidCredentials

  /**
    One call of Authenticate. `matches`: the password fits the stored hash; `rehashed`: a new hash could be made;
    the clock is read at `checked`, and again at `settled` once the comparison is over.
  */
  datatype Attempt = Attempt(email: string, password: string, matches: bool, rehashed: bool, checked: Time, settled: Time)

  /** The stored accounts by email, and the outcome of every recorded `login_attempt`. */
  datatype Store = Store(accounts: map<string, Account>, events: seq<(string, bool)>)

  predicate Blank(a: Attempt) { Trim(a.email) == "" || Trim(a.password) == "" }

  /** Whether the attempt gets as far as comparing the password with the account's hash. */
  predicate Compares(acc: Account, a: Attempt) {
    !Blank(a) && acc.active && (acc.lockedUntil.None? || a.checked >= acc.lockedUntil.value)
  }

  function Attempted(acc: Account, a: Attempt): Account {
    if !Compares(acc, a) then acc
    else if a.matches then
      acc.(failed := 0, lockedUntil := None, lastLogin := Some(a.settled), legacyHash := acc.legacyHash && !a.rehashed)
    else if acc.failed + 1 >= MAX_FAILURES then acc.(failed := acc.failed + 1, lockedUntil := Some(a.settled + LOCK_PERIOD))
    else acc.(failed := acc.failed + 1)
  }

  function Step(s: Store, a: Attempt): Store {
    if a.email in s.accounts && Compares(s.accounts[a.email], a) then
      Store(s.accounts[a.email := Attempted(s.accounts[a.email], a)], s.events + [(a.email, a.matches)])
    else s
  }

  function Reply(s: Store, a: Attempt): Result<Time, Error> {
    if Blank(a) then Err(MissingInput)
    else if a.email in s.accounts && Compares(s.accounts[a.email], a) && a.matches then Ok(a.settled)
    else Err(InvalidCredentials)
  }

  class Repository {
    var store: Store

    constructor (accounts: map<string, Account>)
      ensures store == Store(accounts, [])
    {
      store := Store(accounts, []);
    }

    method GetByEmail(email: string) returns (acc: Option<Account>)
      ensures acc == if email in store.accounts then Some(store.accounts[email]) else None
    {
      acc := if email in store.accounts then Some(store.accounts[email]) else None;
    }

    method Update(email: string, acc: Account)
      requires email in store.accounts
      modifies this
      ensures store == old(store).(accounts := old(store.accounts)[email := acc])
    {
      store := store.(accounts := store.accounts[email := acc]);
    }

    method IncrementFailedLogin(email: string) returns (n: nat)
      requires email in store.accounts
      modifies this
      ensures var acc := old(store.accounts[email]);
        n == acc.failed + 1 && store == old(store).(accounts := old(store.accounts)[email := acc.(failed := n)])
    {
      n := store.accounts[email].failed + 1;
      Update(email, store.accounts[email].(failed := n));
    }

    method AppendAuthEvent(email: string, success: bool)
      modifies this
      ensures store == old(store).(events := old(store.events) + [(email, success)])
    {
      store := store.(events := store.events + [(email, success)]);
    }
  }

  class Service {
    const repo: Repository

    constructor (repo: Repository)
      ensures this.repo == repo
    {
      this.repo := repo;
    }

    method Authenticate(a: Attempt) returns (r: Result<Time, Error>)
      modifies repo
      ensures repo.store == Step(old(repo.store), a) && r == Reply(old(repo.store), a)
    {
      if Trim(a.email) == "" || Trim(a.password) == "" { return Err(MissingInput); }
      var user := repo.GetByEmail(a.email);
      if user.None? || !user.value.active { return Err(InvalidCredentials); }
      if user.value.lockedUntil.Some? && a.checked < user.value.lockedUntil.value { return Err(InvalidCredentials); }
      if !a.matches {
        var n := repo.IncrementFailedLogin(a.email);
        if n >= 10 { repo.Update(a.email, repo.store.accounts[a.email].(lockedUntil := Some(a.settled + LOCK_PERIOD))); }
        repo.AppendAuthEvent(a.email, false);
        return Err(InvalidCredentials);
      }
      if user.value.legacyHash && a.rehashed { repo.Update(a.email, repo.store.accounts[a.email].(legacyHash := false)); }
      repo.Update(a.email, repo.store.accounts[a.email].(failed := 0, lockedUntil := None));
      repo.Update(a.email, repo.store.accounts[a.email].(lastLogin := Some(a.settled)));
      repo.AppendAuthEvent(a.email, true);
      r := Ok(a.settled);
    }
  }

  // ---------- runs ----------

  function Run(s: Store, attempts: seq<Attempt>): Store {
    if attempts == [] then s else Step(Run(s, attempts[..|attempts| - 1]), attempts[|attempts| - 1])
  }

  predicate ComparesWith(s: Store, a: Attempt, email: string) {
    a.email == email && email in s.accounts && Compares(s.accounts[email], a)
  }

  /** The attempts of a run that compare a password for one account, in order. */
  function Comparisons(s: Store, attempts: seq<Attempt>, email: string): seq<Attempt> {
    if attempts == [] then [] else
      var before := attempts[..|attempts| - 1];
      var a := attempts[|attempts| - 1];
      Comparisons(s, before, email) + if ComparesWith(Run(s, before), a, email) then [a] else []
  }

  /** Calls are served one at a time, and the clock does not go back. */
  ghost predicate Serial(attempts: seq<Attempt>) {
    && (forall i :: 0 <= i < |attempts| ==> attempts[i].checked <= attempts[i].settled)
    && (forall i, j :: 0 <= i < j < |attempts| ==> attempts[i].settled <= attempts[j].checked)
  }

  predicate AllWrong(cs: seq<Attempt>) { forall i :: 0 <= i < |cs| ==> !cs[i].matches }

  /** What the account holds after a number of failed comparisons and nothing else. */
  ghost predicate Strained(acc: Account, cs: seq<Attempt>) {
    && acc.failed >= |cs|
    && (|cs| >= MAX_FAILURES ==> acc.lockedUntil == Some(cs[|cs| - 1].settled + LOCK_PERIOD))
  }

  /** From the tenth comparison on, each is a full lock period after the one before. */
  ghost predicate Spaced(cs: seq<Attempt>) {
    forall k :: MAX_FAILURES <= k < |cs| ==> cs[k].checked >= cs[k - 1].settled + LOCK_PERIOD
  }

  lemma {:induction false} FailuresSpaced(s: Store, attempts: seq<Attempt>, email: string)
    requires email in s.accounts && AllWrong(Comparisons(s, attempts, email))
    ensures email in Run(s, attempts).accounts
    ensures Strained(Run(s, attempts).accounts[email], Comparisons(s, attempts, email))
    ensures Spaced(Comparisons(s, attempts, email))
    ensures forall c :: c in Comparisons(s, attempts, email) ==> c in attempts
  {
    if attempts != [] {
      var before := attempts[..|attempts| - 1];
      var a := attempts[|attempts| - 1];
      var cs := Comparisons(s, before, email);
      hide Compares, Attempted;
      assert forall i :: 0 <= i < |cs| ==> cs[i] == Comparisons(s, attempts, email)[i];
      FailuresSpaced(s, before, email);
      if ComparesWith(Run(s, before), a, email) {
        assert Comparisons(s, attempts, email)[|cs|] == a;
        OneMoreFailure(Run(s, before).accounts[email], cs, a);
      }
    }
  }

  lemma OneMoreFailure(acc: Account, cs: seq<Attempt>, a: Attempt)
    requires Strained(acc, cs) && Spaced(cs) && Compares(acc, a) && !a.matches
    ensures Strained(Attempted(acc, a), cs + [a]) && Spaced(cs + [a])
  {
    hide Blank;
  }

  lemma {:induction false} SpacedApart(cs: seq<Attempt>, k: nat, m: nat)
    requires Spaced(cs) && MAX_FAILURES - 1 <= k <= m < |cs| && forall c :: c in cs ==> c.checked <= c.settled
    ensures cs[m].checked >= cs[k].checked + (m - k) * LOCK_PERIOD
  {
    if k < m {
      SpacedApart(cs, k, m - 1);
      assert cs[m - 1] in cs;
    }
  }

  function Until(t: Time): Attempt -> bool { (a: Attempt) => a.checked <= t }

  lemma {:induction false} CountAtMost<T>(s: seq<T>, p: T -> bool, n: nat)
    requires forall i :: n <= i < |s| ==> !p(s[i])
    ensures CountIf(s, p) <= n
  {
    if s != [] {
      CountAtMost(s[..|s| - 1], p, if n < |s| then n else |s| - 1);
    }
  }

  lemma {:induction false} PastHorizon(horizon: nat, period: nat, n: nat)
    requires period > 0 && n >= horizon / period + 1
    ensures n * period > horizon
  {
    if n == horizon / period + 1 {
      Quotient(horizon, period);
    } else {
      PastHorizon(horizon, period, n - 1);
      Distribute(n, period);
    }
  }

  lemma Quotient(a: nat, b: nat)
    requires b > 0
    ensures (a / b + 1) * b > a
  {
    assert a == (a / b) * b + a % b;
    Distribute(a / b + 1, b);
  }

  lemma Distribute(n: int, b: int)
    ensures n * b == (n - 1) * b + b
  {
  }

  lemma BeyondHorizon(cs: seq<Attempt>, horizon: nat, i: nat)
    requires Spaced(cs) && |cs| >= MAX_FAILURES && (forall c :: c in cs ==> c.checked <= c.settled)
    requires MAX_FAILURES + horizon / LOCK_PERIOD <= i < |cs|
    ensures cs[i].checked > cs[MAX_FAILURES - 1].checked + horizon
  {
    SpacedApart(cs, MAX_FAILURES - 1, i);
    PastHorizon(horizon, LOCK_PERIOD, i - (MAX_FAILURES - 1));
  }

  lemma SpacedBound(cs: seq<Attempt>, horizon: nat)
    requires Spaced(cs) && |cs| >= MAX_FAILURES && forall c :: c in cs ==> c.checked <= c.settled
    ensures CountIf(cs, Until(cs[MAX_FAILURES - 1].checked + horizon)) <= MAX_FAILURES + horizon / LOCK_PERIOD
  {
    hide Spaced;
    var n := MAX_FAILURES + horizon / LOCK_PERIOD;
    var last := cs[MAX_FAILURES - 1].checked + horizon;
    forall i | n <= i < |cs| ensures !Until(last)(cs[i]) { BeyondHorizon(cs, horizon, i); }
    CountAtMost(cs, Until(last), n);
  }

  /**
    In any run without a successful login, from any state of the account: within a horizon from the tenth
    comparison there are at most ten comparisons, and one more for each lock period of the horizon.
  */
  lemma LockoutBound(s: Store, attempts: seq<Attempt>, email: string, horizon: nat)
    requires email in s.accounts && Serial(attempts)
    requires AllWrong(Comparisons(s, attempts, email)) && |Comparisons(s, attempts, email)| >= MAX_FAILURES
    ensures var cs := Comparisons(s, attempts, email);
      CountIf(cs, Until(cs[MAX_FAILURES - 1].checked + horizon)) <= MAX_FAILURES + horizon / LOCK_PERIOD
  {
    hide Comparisons, Run, Spaced, Until;
    var cs := Comparisons(s, attempts, email);
    FailuresSpaced(s, attempts, email);
    forall c | c in cs ensures c.checked <= c.settled {
      var i :| 0 <= i < |attempts| && attempts[i] == c;
    }
    SpacedBound(cs, horizon);
  }

  /** While an account is locked nothing is compared and nothing about it changes: not even the right password gets in. */
  lemma {:induction false} LockHolds(s: Store, attempts: seq<Attempt>, email: string, until: Time)
    requires email in s.accounts && s.accounts[email].lockedUntil == Some(until)
    requires forall i :: 0 <= i < |attempts| ==> attempts[i].checked < until
    ensures email in Run(s, attempts).accounts && Run(s, attempts).accounts[email] == s.accounts[email]
    ensures Comparisons(s, attempts, email) == []
  {
    if attempts != [] {
      hide Blank;
      LockHolds(s, attempts[..|attempts| - 1], email, until);
    }
  }

  // ---------- what a login comes to ----------

  /**
    In any state a login succeeds if and only if neither field is blank, the account exists and is active, no lock is
    in force when the clock is read, and the password fits. Blank input is told apart; all other refusals look the same.
  */
  lemma LoginExactly(s: Store, a: Attempt)
    ensures var reply := Reply(s, a);
      var blank := Trim(a.email) == "" || Trim(a.password) == "";
      var open := a.email in s.accounts && s.accounts[a.email].active
        && (s.accounts[a.email].lockedUntil.None? || s.accounts[a.email].lockedUntil.value <= a.checked);
      && (reply.Ok? <==> !blank && open && a.matches)
      && (reply.Ok? ==> reply.result == a.settled)
      && (reply == Err(MissingInput) <==> blank)
  {
    hide Trim;
  }

  /**
    A login that compares the password is logged with its outcome; a success clears the counter and the lock, notes the
    time and replaces a legacy hash if it can; a failure counts, and locks for 15 minutes from the tenth on.
    Any other login changes nothing, and no login touches another account.
  */
  lemma LoginEffect(s: Store, a: Attempt)
    ensures var after := Step(s, a);
      if Reply(s, a) == Err(MissingInput) || a.email !in s.accounts || !s.accounts[a.email].active
         || (s.accounts[a.email].lockedUntil.Some? && a.checked < s.accounts[a.email].lockedUntil.value)
      then after == s
      else
        var acc := s.accounts[a.email];
        && after.events == s.events + [(a.email, a.matches)]
        && after.accounts == s.accounts[a.email :=
             if a.matches then Account(true, acc.legacyHash && !a.rehashed, 0, None, Some(a.settled))
             else Account(true, acc.legacyHash, acc.failed + 1,
                          if acc.failed >= 9 then Some(a.settled + 900_000_000_000) else acc.lockedUntil, acc.lastLogin)]
  {
    hide Trim;
  }

  /** Ten failures in a row, the last of them less than 15 minutes before this time. */
  predicate LockedOut(streak: seq<Attempt>, now: Time) {
    |streak| >= 10 && now < streak[|streak| - 1].settled + 900_000_000_000
  }

  /** The failed logins of an account since its last successful one, told from the attempts alone; those made while locked out do not count. */
  function Streak(attempts: seq<Attempt>, email: string): seq<Attempt> {
    if attempts == [] then [] else
      var streak, a := Streak(attempts[..|attempts| - 1], email), attempts[|attempts| - 1];
      if a.email != email || Blank(a) || LockedOut(streak, a.checked) then streak
      else if a.matches then []
      else streak + [a]
  }

  /** What is stored about an active account that started out clean. */
  ghost predicate Mirrors(acc: Account, streak: seq<Attempt>) {
    && acc.active && acc.failed == |streak|
    && acc.lockedUntil == if |streak| >= 10 then Some(streak[|streak| - 1].settled + 900_000_000_000) else None
  }

  lemma {:induction false} StreakStored(s: Store, attempts: seq<Attempt>, email: string)
    requires email in s.accounts && Mirrors(s.accounts[email], [])
    ensures email in Run(s, attempts).accounts && Mirrors(Run(s, attempts).accounts[email], Streak(attempts, email))
  {
    if attempts != [] {
      var before, a := attempts[..|attempts| - 1], attempts[|attempts| - 1];
      StreakStored(s, before, email);
      LoginEffect(Run(s, before), a);
      LoginExactly(Run(s, before), a);
      hide Step, Reply, Trim;
    }
  }

  /**
    Over any run from a clean active account, a login succeeds if and only if it is not blank, the password fits, and
    the account is not locked out by its last ten or more failures: a success starts the count anew, and nine failures
    never lock.
  */
  lemma LoginFromHistory(s: Store, attempts: seq<Attempt>, a: Attempt)
    requires a.email in s.accounts && Mirrors(s.accounts[a.email], [])
    ensures Reply(Run(s, attempts), a).Ok? <==>
      Trim(a.email) != "" && Trim(a.password) != "" && a.matches && !LockedOut(Streak(attempts, a.email), a.checked)
  {
    StreakStored(s, attempts, a.email);
    LoginExactly(Run(s, attempts), a);
    hide Run, Reply, Trim, Streak;
  }
}
