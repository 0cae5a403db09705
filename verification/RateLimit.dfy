// The login rate limiter: a counting window per client address.
module RateLimit {
  import opened Tally

  /** Nanoseconds. */
  type Time = int

  const MINUTE: Time := 60_000_000_000
  const MAX_ATTEMPTS: nat := 5

  datatype Entry = Entry(windowStart: Time, count: nat)

  type Windows = map<string, Entry>

  datatype Request = Request(path: string, ip: string, now: Time)

  predicate Limited(r: Request) { r.path == "/auth/login" }

  /** The address's window as this request leaves it. */
  function Window(w: Windows, r: Request): Entry {
    if r.ip in w && r.now - w[r.ip].windowStart <= MINUTE then w[r.ip].(count := w[r.ip].count + 1) else Entry(r.now, 1)
  }

  function Step(w: Windows, r: Request): Windows {
    if Limited(r) then w[r.ip := Window(w, r)] else w
  }

  predicate Passes(w: Windows, r: Request) { Limited(r) ==> Window(w, r).count <= MAX_ATTEMPTS }

  class Limiter {
    var state: Windows

    constructor ()
      ensures state == map[]
    {
      state := map[];
    }

    method Handle(r: Request) returns (next: bool)
      modifies this
      ensures state == Step(old(state), r) && next == Passes(old(state), r)
    {
      if r.path != "/auth/login" { return true; }
      if r.ip !in state { state := state[r.ip := Entry(r.now, 0)]; }
      if r.now - state[r.ip].windowStart > MINUTE { state := state[r.ip := Entry(r.now, 0)]; }
      state := state[r.ip := state[r.ip].(count := state[r.ip].count + 1)];
      next := state[r.ip].count <= 5;
    }
  }

  // ---------- runs ----------

  function Run(reqs: seq<Request>): Windows {
    if reqs == [] then map[] else Step(Run(reqs[..|reqs| - 1]), reqs[|reqs| - 1])
  }

  /** A login request that got through: when, in which window, and as which one of it. */
  datatype Pass = Pass(at: Time, window: Time, ordinal: nat)

  /** The login requests of one address that got through, in order. */
  function Passed(reqs: seq<Request>, ip: string): seq<Pass> {
    if reqs == [] then [] else
      var before := reqs[..|reqs| - 1];
      var r := reqs[|reqs| - 1];
      Passed(before, ip) +
        if r.ip == ip && Limited(r) && Passes(Run(before), r)
        then [Pass(r.now, Window(Run(before), r).windowStart, Window(Run(before), r).count)] else []
  }

  ghost predicate Monotone(reqs: seq<Request>) {
    forall i, j :: 0 <= i < j < |reqs| ==> reqs[i].now <= reqs[j].now
  }

  predicate PassOk(p: Pass) {
    1 <= p.ordinal <= MAX_ATTEMPTS && p.window <= p.at <= p.window + MINUTE && (p.ordinal == 1 ==> p.at == p.window)
  }

  /** The next one through: the next of the same window, or the first of a window more than a minute later. */
  predicate Follows(p: Pass, q: Pass) {
    || (q.window == p.window && q.ordinal == p.ordinal + 1 && p.at <= q.at)
    || (q.window > p.window + MINUTE && q.ordinal == 1)
  }

  ghost predicate Windowed(ps: seq<Pass>) {
    && (forall i :: 0 <= i < |ps| ==> PassOk(ps[i]))
    && (forall i :: 0 < i < |ps| ==> Follows(ps[i - 1], ps[i]))
  }

  /** The window an address is in is that of its last request through. */
  ghost predicate Current(w: Windows, ip: string, ps: seq<Pass>, now: Time) {
    && (ip in w <==> ps != [])
    && (ip in w ==>
      var p := ps[|ps| - 1];
      w[ip].windowStart == p.window && p.at <= now && p.ordinal == if w[ip].count < MAX_ATTEMPTS then w[ip].count else MAX_ATTEMPTS)
  }

  lemma {:induction false} RunWindowed(reqs: seq<Request>, ip: string, now: Time)
    requires Monotone(reqs) && forall r :: r in reqs ==> r.now <= now
    ensures Windowed(Passed(reqs, ip)) && Current(Run(reqs), ip, Passed(reqs, ip), now)
  {
    if reqs != [] {
      var before := reqs[..|reqs| - 1];
      var r := reqs[|reqs| - 1];
      assert r in reqs;
      RunWindowed(before, ip, r.now);
      hide Limited;
      StepWindowed(Run(before), r, ip, Passed(before, ip), now);
    }
  }

  lemma StepWindowed(w: Windows, r: Request, ip: string, ps: seq<Pass>, now: Time)
    requires Windowed(ps) && Current(w, ip, ps, r.now) && r.now <= now
    ensures var e := Window(w, r);
      var after := ps + if r.ip == ip && Limited(r) && Passes(w, r) then [Pass(r.now, e.windowStart, e.count)] else [];
      Windowed(after) && Current(Step(w, r), ip, after, now)
  {
    hide Limited;
  }

  /**
    After any monotone run a request gets through unless it is a login and the last login of its address to get through
    was the fifth of a window opened at most a minute ago; and only logins are counted.
  */
  lemma BlockedExactly(reqs: seq<Request>, r: Request)
    requires Monotone(reqs + [r])
    ensures var ps := Passed(reqs, r.ip);
      var full := ps != [] && ps[|ps| - 1].ordinal == 5 && r.now <= ps[|ps| - 1].window + 60_000_000_000;
      Passes(Run(reqs), r) <==> r.path != "/auth/login" || !full
    ensures r.path != "/auth/login" ==> Step(Run(reqs), r) == Run(reqs)
  {
    assert forall i :: 0 <= i < |reqs| ==> (reqs + [r])[i] == reqs[i];
    assert (reqs + [r])[|reqs|] == r;
    RunWindowed(reqs, r.ip, r.now);
    hide Run, Passed;
  }

  // ---------- how many get through ----------

  /** Before a window's sixth place there must come another window. */
  lemma {:induction false} NextWindow(ps: seq<Pass>, i: nat)
    requires Windowed(ps) && i < |ps| && i + (MAX_ATTEMPTS + 1 - ps[i].ordinal) < |ps|
    ensures exists j :: i < j <= i + (MAX_ATTEMPTS + 1 - ps[i].ordinal) && ps[j].ordinal == 1 && ps[j].window > ps[i].window + MINUTE
    decreases MAX_ATTEMPTS - ps[i].ordinal
  {
    assert PassOk(ps[i]) && Follows(ps[i], ps[i + 1]) && PassOk(ps[i + 1]);
    if ps[i + 1].ordinal == 1 {
      assert ps[i + 1].window > ps[i].window + MINUTE;
    } else {
      NextWindow(ps, i + 1);
    }
  }

  lemma {:induction false} TimesAscend(ps: seq<Pass>, i: nat, j: nat)
    requires Windowed(ps) && i <= j < |ps|
    ensures ps[i].at <= ps[j].at && ps[i].window <= ps[j].window
  {
    if i < j {
      TimesAscend(ps, i, j - 1);
      assert PassOk(ps[j - 1]) && PassOk(ps[j]) && Follows(ps[j - 1], ps[j]);
    }
  }

  /** Any ten requests through in a row take more than a minute. */
  lemma TenSpread(ps: seq<Pass>, i: nat)
    requires Windowed(ps) && i + 9 < |ps|
    ensures ps[i + 9].at > ps[i].at + MINUTE
  {
    assert PassOk(ps[i]);
    NextWindow(ps, i);
    var j :| i < j <= i + (MAX_ATTEMPTS + 1 - ps[i].ordinal) && ps[j].ordinal == 1 && ps[j].window > ps[i].window + MINUTE;
    assert PassOk(ps[j]);
    if ps[i].ordinal == 1 {
      TimesAscend(ps, j, i + 9);
    } else {
      NextWindow(ps, j);
      var k :| j < k <= j + MAX_ATTEMPTS && ps[k].ordinal == 1 && ps[k].window > ps[j].window + MINUTE;
      assert PassOk(ps[k]);
      TimesAscend(ps, i, j);
      TimesAscend(ps, k, i + 9);
    }
  }

  function Within(from: Time, to: Time): Pass -> bool { (p: Pass) => from <= p.at <= to }

  lemma {:induction false} CountBetween<T>(s: seq<T>, p: T -> bool, a: nat, n: nat)
    requires forall i :: 0 <= i < |s| && !(a <= i < a + n) ==> !p(s[i])
    ensures CountIf(s, p) <= n
  {
    if s != [] {
      var m := |s| - 1;
      CountBetween(s[..m], p, a, if a <= m < a + n then m - a else n);
    }
  }

  ghost function FirstFrom(ps: seq<Pass>, from: Time): (f: nat)
    ensures f <= |ps| && (f < |ps| ==> ps[f].at >= from) && forall i :: 0 <= i < f ==> ps[i].at < from
  {
    if ps == [] then 0 else
      var f := FirstFrom(ps[..|ps| - 1], from);
      if f < |ps| - 1 || ps[f].at >= from then f else |ps|
  }

  /** Whatever the run, at most nine login requests of an address get through in any one minute, both ends counted. */
  lemma MinuteBound(reqs: seq<Request>, ip: string, from: Time)
    requires Monotone(reqs)
    ensures CountIf(Passed(reqs, ip), Within(from, from + MINUTE)) <= 9
  {
    var ps := Passed(reqs, ip);
    var latest := if reqs == [] then 0 else reqs[|reqs| - 1].now;
    RunWindowed(reqs, ip, latest);
    hide Passed, Run, Monotone, Windowed;
    var f := FirstFrom(ps, from);
    hide FirstFrom;
    forall i | 0 <= i < |ps| && !(f <= i < f + 9) ensures !Within(from, from + MINUTE)(ps[i]) {
      if i >= f {
        TenSpread(ps, f);
        TimesAscend(ps, f + 9, i);
      }
    }
    CountBetween(ps, Within(from, from + MINUTE), f, 9);
  }

  // ---------- for which minutes the documented five hold ----------

  /** Requests through in one window and in a stretch of time. */
  function ShareIn(window: Time, from: Time, to: Time): Pass -> bool { (p: Pass) => p.window == window && from <= p.at <= to }

  function Share(ps: seq<Pass>, window: Time, from: Time): nat { CountIf(ps, ShareIn(window, from, from + MINUTE)) }

  /** Some window is opened by a request after `from`, within the minute. */
  predicate OpensWithin(ps: seq<Pass>, window: Time, from: Time) {
    from < window <= from + MINUTE && exists j :: 0 <= j < |ps| && ps[j].window == window
  }

  /** Passes of one window carry one ordinal each. */
  lemma {:induction false} SameWindow(ps: seq<Pass>, i: nat, j: nat)
    requires Windowed(ps) && i <= j < |ps| && ps[i].window == ps[j].window
    ensures ps[j].ordinal == ps[i].ordinal + (j - i)
  {
    if i < j {
      TimesAscend(ps, i, j - 1);
      TimesAscend(ps, j - 1, j);
      SameWindow(ps, i, j - 1);
      assert Follows(ps[j - 1], ps[j]);
    }
  }

  /** The first pass of the list with a property, or its length. */
  ghost function FirstWith(ps: seq<Pass>, p: Pass -> bool): (f: nat)
    ensures f <= |ps| && (f < |ps| ==> p(ps[f])) && forall i :: 0 <= i < f ==> !p(ps[i])
  {
    if ps == [] then 0 else
      var f := FirstWith(ps[..|ps| - 1], p);
      if f < |ps| - 1 || p(ps[f]) then f else |ps|
  }

  /** A window lets at most five through. */
  lemma ShareAtMostFive(ps: seq<Pass>, window: Time, from: Time)
    requires Windowed(ps)
    ensures Share(ps, window, from) <= MAX_ATTEMPTS
  {
    var p := ShareIn(window, from, from + MINUTE);
    var f := FirstWith(ps, p);
    hide FirstWith;
    forall i | 0 <= i < |ps| && !(f <= i < f + MAX_ATTEMPTS) ensures !p(ps[i]) {
      if i >= f && p(ps[i]) {
        SameWindow(ps, f, i);
      }
    }
    hide Windowed;
    CountBetween(ps, p, f, MAX_ATTEMPTS);
  }

  /** Different windows are more than a minute apart. */
  lemma {:induction false} WindowsApart(ps: seq<Pass>, i: nat, j: nat)
    requires Windowed(ps) && i <= j < |ps| && ps[i].window != ps[j].window
    ensures ps[j].window > ps[i].window + MINUTE
  {
    TimesAscend(ps, i, j - 1);
    assert Follows(ps[j - 1], ps[j]);
    if ps[i].window != ps[j - 1].window { WindowsApart(ps, i, j - 1); }
  }

  /** Requests through within the minute belong to one window, or to the window opened within the minute and the one before. */
  lemma TwoWindows(ps: seq<Pass>, from: Time, i: nat, j: nat)
    requires Windowed(ps) && i < |ps| && j < |ps|
    requires Within(from, from + MINUTE)(ps[i]) && Within(from, from + MINUTE)(ps[j]) && ps[i].window < ps[j].window
    ensures OpensWithin(ps, ps[j].window, from) && ps[i].window <= from
  {
    assert PassOk(ps[i]) && PassOk(ps[j]);
    if i <= j { WindowsApart(ps, i, j); } else { TimesAscend(ps, j, i); }
  }

  /** With no window opened after its start, a minute holds passes of one window only. */
  lemma OneWindowAtMostFive(ps: seq<Pass>, from: Time)
    requires Windowed(ps) && forall w :: !OpensWithin(ps, w, from)
    ensures CountIf(ps, Within(from, from + MINUTE)) <= MAX_ATTEMPTS
  {
    var p := Within(from, from + MINUTE);
    var f := FirstWith(ps, p);
    if f == |ps| {
      CountBetween(ps, p, 0, 0);
    } else {
      var q := ShareIn(ps[f].window, from, from + MINUTE);
      forall x | x in ps ensures p(x) == q(x) {
        var i :| 0 <= i < |ps| && ps[i] == x;
        if p(x) && x.window < ps[f].window { TwoWindows(ps, from, i, f); }
        if p(x) && x.window > ps[f].window { TwoWindows(ps, from, f, i); }
      }
      CountSame(ps, p, q);
      ShareAtMostFive(ps, ps[f].window, from);
    }
  }

  /** With a window opened within it, a minute's passes are those of that window and of one before. */
  lemma TwoShares(ps: seq<Pass>, window: Time, from: Time) returns (earlier: Time)
    requires Windowed(ps) && OpensWithin(ps, window, from)
    ensures earlier < window && CountIf(ps, Within(from, from + MINUTE)) == Share(ps, earlier, from) + Share(ps, window, from)
  {
    var p := Within(from, from + MINUTE);
    var older := (x: Pass) => p(x) && x.window != window;
    var f := FirstWith(ps, older);
    hide FirstWith;
    earlier := if f < |ps| then ps[f].window else window - 1;
    var j :| 0 <= j < |ps| && ps[j].window == window;
    forall x | x in ps && p(x) && x.window != window ensures x.window == earlier && earlier < window {
      var i :| 0 <= i < |ps| && ps[i] == x;
      assert PassOk(x) && older(ps[i]) && f < |ps|;
      OlderWindow(ps, from, window, j, i);
      OlderWindow(ps, from, window, j, f);
      if x.window < earlier { TwoWindows(ps, from, i, f); }
      if earlier < x.window { TwoWindows(ps, from, f, i); }
    }
    if f < |ps| { assert ps[f] in ps; }
    CountSplit(ps, p, ShareIn(earlier, from, from + MINUTE), ShareIn(window, from, from + MINUTE));
  }

  lemma OlderWindow(ps: seq<Pass>, from: Time, window: Time, j: nat, i: nat)
    requires Windowed(ps) && i < |ps| && j < |ps| && ps[j].window == window && from < window <= from + MINUTE
    requires Within(from, from + MINUTE)(ps[i]) && ps[i].window != window
    ensures ps[i].window <= from
  {
    assert PassOk(ps[i]);
    if i <= j { WindowsApart(ps, i, j); } else { WindowsApart(ps, j, i); }
  }

  /**
    A minute lets more than the documented five through if and only if a window opens after its start and within it,
    and the shares of that window and of an earlier one add up to more than five.
  */
  lemma MoreThanFiveExactly(reqs: seq<Request>, ip: string, from: Time)
    requires Monotone(reqs)
    ensures var ps := Passed(reqs, ip);
      CountIf(ps, Within(from, from + MINUTE)) > MAX_ATTEMPTS <==>
        exists earlier, window :: earlier < window && OpensWithin(ps, window, from)
          && Share(ps, earlier, from) + Share(ps, window, from) > MAX_ATTEMPTS
  {
    var ps := Passed(reqs, ip);
    RunWindowed(reqs, ip, if reqs == [] then 0 else reqs[|reqs| - 1].now);
    hide Passed, Run, Monotone, Windowed, Share, Within;
    if CountIf(ps, Within(from, from + MINUTE)) > MAX_ATTEMPTS {
      if forall w :: !OpensWithin(ps, w, from) { OneWindowAtMostFive(ps, from); }
      var window :| OpensWithin(ps, window, from);
      var earlier := TwoShares(ps, window, from);
    } else {
      forall earlier, window | earlier < window && OpensWithin(ps, window, from)
        ensures Share(ps, earlier, from) + Share(ps, window, from) <= MAX_ATTEMPTS
      {
        SharesWithin(ps, earlier, window, from);
      }
    }
  }

  lemma SharesWithin(ps: seq<Pass>, earlier: Time, window: Time, from: Time)
    requires earlier < window
    ensures Share(ps, earlier, from) + Share(ps, window, from) <= CountIf(ps, Within(from, from + MINUTE))
  {
    var p, q := ShareIn(earlier, from, from + MINUTE), ShareIn(window, from, from + MINUTE);
    var both := (x: Pass) => p(x) || q(x);
    CountSplit(ps, both, p, q);
    CountPart(ps, both, Within(from, from + MINUTE));
  }

  /** The minute that starts with a request opening its window keeps to five. */
  lemma FiveFromOpening(reqs: seq<Request>, ip: string, i: nat)
    requires Monotone(reqs) && i < |Passed(reqs, ip)| && Passed(reqs, ip)[i].ordinal == 1
    ensures CountIf(Passed(reqs, ip), Within(Passed(reqs, ip)[i].at, Passed(reqs, ip)[i].at + MINUTE)) <= MAX_ATTEMPTS
  {
    var ps := Passed(reqs, ip);
    RunWindowed(reqs, ip, reqs[|reqs| - 1].now);
    hide Passed, Run, Monotone, Within;
    var from := ps[i].at;
    assert PassOk(ps[i]);
    forall w ensures !OpensWithin(ps, w, from) {
      if j :| 0 <= j < |ps| && ps[j].window == w && from < w {
        if i <= j { WindowsApart(ps, i, j); } else { WindowsApart(ps, j, i); }
      }
    }
    OneWindowAtMostFive(ps, from);
  }

  /** The requests of one address at given times. */
  function Knocks(ip: string, times: seq<Time>): seq<Request> {
    seq(|times|, i requires 0 <= i < |times| => Request("/auth/login", ip, times[i]))
  }

  lemma Knock(ip: string, times: seq<Time>, t: Time, e: Entry)
    requires var w := Run(Knocks(ip, times)); ip in w && w[ip] == e && t - e.windowStart <= MINUTE && e.count < MAX_ATTEMPTS
    ensures Run(Knocks(ip, times + [t])) == Run(Knocks(ip, times))[ip := e.(count := e.count + 1)]
    ensures Passed(Knocks(ip, times + [t]), ip) == Passed(Knocks(ip, times), ip) + [Pass(t, e.windowStart, e.count + 1)]
  {
    assert Knocks(ip, times + [t])[..|times|] == Knocks(ip, times);
  }

  lemma NewWindow(ip: string, times: seq<Time>, t: Time)
    requires var w := Run(Knocks(ip, times)); ip in w ==> t - w[ip].windowStart > MINUTE
    ensures Run(Knocks(ip, times + [t])) == Run(Knocks(ip, times))[ip := Entry(t, 1)]
    ensures Passed(Knocks(ip, times + [t]), ip) == Passed(Knocks(ip, times), ip) + [Pass(t, t, 1)]
  {
    assert Knocks(ip, times + [t])[..|times|] == Knocks(ip, times);
  }

  /** How many of an address's requests at these times get through in the minute from `from` on. */
  function Through(ip: string, times: seq<Time>, from: Time): nat {
    CountIf(Passed(Knocks(ip, times), ip), Within(from, from + MINUTE))
  }

  /** `n` more requests at one time into a window that has room for them. */
  lemma {:induction false} Burst(ip: string, times: seq<Time>, t: Time, e: Entry, n: nat, from: Time)
    requires var w := Run(Knocks(ip, times)); ip in w && w[ip] == e && t - e.windowStart <= MINUTE && e.count + n <= MAX_ATTEMPTS
    ensures var w := Run(Knocks(ip, times + Repeat(t, n))); ip in w && w[ip] == e.(count := e.count + n)
    ensures Through(ip, times + Repeat(t, n), from) == Through(ip, times, from) + if from <= t <= from + MINUTE then n else 0
  {
    hide Run, Passed, Knocks;
    if n == 0 {
      assert times + Repeat(t, 0) == times;
    } else {
      var longer := times + Repeat(t, n - 1);
      Burst(ip, times, t, e, n - 1, from);
      Knock(ip, longer, t, e.(count := e.count + n - 1));
      assert times + Repeat(t, n) == longer + [t];
      CountSnoc(Passed(Knocks(ip, longer), ip), Pass(t, e.windowStart, e.count + n), Within(from, from + MINUTE));
    }
  }

  function Repeat(t: Time, n: nat): seq<Time> { seq(n, _ => t) }

  lemma Opening(ip: string, times: seq<Time>, t: Time, from: Time)
    requires var w := Run(Knocks(ip, times)); ip in w ==> t - w[ip].windowStart > MINUTE
    ensures var w := Run(Knocks(ip, times + [t])); ip in w && w[ip] == Entry(t, 1)
    ensures Through(ip, times + [t], from) == Through(ip, times, from) + if from <= t <= from + MINUTE then 1 else 0
  {
    NewWindow(ip, times, t);
    assert Within(from, from + MINUTE)(Pass(t, t, 1)) <==> from <= t <= from + MINUTE;
    hide Run, Passed, Knocks, Within, CountIf, MINUTE;
    CountSnoc(Passed(Knocks(ip, times), ip), Pass(t, t, 1), Within(from, from + MINUTE));
  }

  /** Nine do get through: one early, four at the end of its minute, and five in a window that opens just after. */
  lemma NineAttained(ip: string)
    ensures var times := [0] + Repeat(MINUTE, 4) + [MINUTE + 1] + Repeat(MINUTE + 1, 4);
      Monotone(Knocks(ip, times)) && Through(ip, times, MINUTE) == 9
  {
    assert Run(Knocks(ip, [])) == map[] && Through(ip, [], MINUTE) == 0;
    var minute := [0] + Repeat(MINUTE, 4);
    KnocksMonotone(ip, minute + [MINUTE + 1] + Repeat(MINUTE + 1, 4));
    hide Through, Run, Knocks, Monotone;
    assert [] + [0] == [0];
    Opening(ip, [], 0, MINUTE);
    Burst(ip, [0], MINUTE, Entry(0, 1), 4, MINUTE);
    Opening(ip, minute, MINUTE + 1, MINUTE);
    Burst(ip, minute + [MINUTE + 1], MINUTE + 1, Entry(MINUTE + 1, 1), 4, MINUTE);
  }

  lemma KnocksMonotone(ip: string, times: seq<Time>)
    requires forall i, j :: 0 <= i < j < |times| ==> times[i] <= times[j]
    ensures Monotone(Knocks(ip, times))
  {
  }
}
