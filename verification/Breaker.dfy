// The speech-service client: retries with exponential backoff behind a circuit breaker per base URL.
module Breaker {
  import opened Outcomes
  import opened Tally

  /** Seconds on the monotonic clock. */
  type Time = real

  /** Consecutive failed calls, and until when the circuit is open. */
  datatype Circuit = Circuit(fails: nat, openUntil: Time)

  type Circuits = map<string, Circuit>

  /** What one HTTP attempt comes to: an answer, an error that is retried, or an exception nothing here catches. */
  datatype Attempt = Answered | HttpError | TransportError | Escaping

  predicate Retriable(o: Attempt) { o.HttpError? || o.TransportError? }

  datatype Settings = Settings(threshold: int, openSec: real)

  /** `tries`: what each attempt would come to; `ended`: the clock when the last one is over. */
  datatype Call = Call(key: string, now: Time, ended: Time, tries: seq<Attempt>, retries: int, backoff: real)

  datatype Result = CircuitOpen(until: Time) | Answer | Failure(attempts: nat) | Raised | Unexpected

  function Threshold(s: Settings): nat { if s.threshold < 1 then 1 else s.threshold }

  function OpenPeriod(s: Settings): real { if s.openSec < 1.0 then 1.0 else s.openSec }

  function Of(m: Circuits, key: string): Circuit { Get(m, key, Circuit(0, 0.0)) }

  /** The environment has an outcome for every attempt the call may make. */
  predicate Supplied(c: Call) { c.retries < |c.tries| }

  function Pow2(n: nat): nat { if n == 0 then 1 else 2 * Pow2(n - 1) }

  /** How many attempts the call has made when it stops, once it is at attempt `i`. A negative sleep raises. */
  function Attempts(c: Call, i: nat): nat
    requires Supplied(c) && i <= c.retries
    decreases c.retries - i
  {
    if !Retriable(c.tries[i]) || i == c.retries || c.backoff < 0.0 then i + 1 else Attempts(c, i + 1)
  }

  function Made(m: Circuits, c: Call): nat
    requires Supplied(c)
  {
    if c.now < Of(m, c.key).openUntil || c.retries < 0 then 0 else Attempts(c, 0)
  }

  function Verdict(c: Call, made: nat): Result
    requires Supplied(c) && 1 <= made <= c.retries + 1
  {
    var last := c.tries[made - 1];
    if last.Answered? then Answer
    else if last.Escaping? || made <= c.retries then Raised
    else Failure(made)
  }

  lemma {:induction false} AttemptsShape(c: Call, i: nat)
    requires Supplied(c) && i <= c.retries
    ensures i < Attempts(c, i) <= c.retries + 1
    ensures forall k :: i <= k < Attempts(c, i) - 1 ==> Retriable(c.tries[k])
    ensures Attempts(c, i) <= c.retries ==> !Retriable(c.tries[Attempts(c, i) - 1]) || c.backoff < 0.0
    decreases c.retries - i
  {
    if Retriable(c.tries[i]) && i != c.retries && c.backoff >= 0.0 {
      AttemptsShape(c, i + 1);
    }
  }

  function Reply(m: Circuits, c: Call): Result
    requires Supplied(c)
  {
    if c.now < Of(m, c.key).openUntil then CircuitOpen(Of(m, c.key).openUntil)
    else if c.retries < 0 then Unexpected
    else AttemptsShape(c, 0); Verdict(c, Attempts(c, 0))
  }

  function Failed(prev: Circuit, s: Settings, ended: Time): Circuit {
    if prev.fails + 1 >= Threshold(s) then Circuit(0, ended + OpenPeriod(s)) else Circuit(prev.fails + 1, prev.openUntil)
  }

  function Step(s: Settings, m: Circuits, c: Call): Circuits
    requires Supplied(c)
  {
    match Reply(m, c)
    case Answer => m[c.key := Circuit(0, 0.0)]
    case Failure(_) => m[c.key := Failed(Of(m, c.key), s, c.ended)]
    case _ => m
  }

  lemma Pow2Step(k: nat, backoff: real)
    ensures backoff * (Pow2(k) as real - 1.0) + backoff * Pow2(k) as real == backoff * (Pow2(k + 1) as real - 1.0)
  {
    var p := Pow2(k) as real;
    assert Pow2(k + 1) as real == p + p;
    assert backoff * (p - 1.0) == backoff * p - backoff;
    assert backoff * (p + p - 1.0) == backoff * p + backoff * p - backoff;
  }

  class SpeechService {
    var circuit: Circuits

    constructor ()
      ensures circuit == map[]
    {
      circuit := map[];
    }

    /** `slept`: the total of all backoff sleeps. */
    method TranscribeAudioChunk(c: Call, s: Settings) returns (r: Result, attempts: nat, slept: real)
      requires Supplied(c)
      modifies this
      ensures r == Reply(old(circuit), c) && attempts == Made(old(circuit), c)
      ensures circuit == Step(s, old(circuit), c)
      ensures slept == if attempts == 0 then 0.0 else c.backoff * (Pow2(attempts - 1) as real - 1.0)
    {
      var state := if c.key in circuit then circuit[c.key] else Circuit(0, 0.0);
      slept := 0.0;
      if c.now < state.openUntil { return CircuitOpen(state.openUntil), 0, 0.0; }
      attempts := 0;
      if c.retries >= 0 { AttemptsShape(c, 0); }
      hide Attempts;
      while attempts <= c.retries
        invariant attempts <= (if c.retries < 0 then 0 else c.retries)
        invariant circuit == old(circuit)
        invariant c.retries >= 0 ==> Attempts(c, 0) == Attempts(c, attempts)
        invariant slept == c.backoff * (Pow2(attempts) as real - 1.0)
        decreases c.retries - attempts
      {
        AttemptsUnfold(c, attempts);
        match c.tries[attempts] {
          case Answered =>
            circuit := circuit[c.key := Circuit(0, 0.0)];
            return Answer, attempts + 1, slept;
          case Escaping =>
            return Raised, attempts + 1, slept;
          case _ =>
            if attempts >= c.retries {
              var prev := if c.key in circuit then circuit[c.key] else Circuit(0, 0.0);
              var nfails, openUntil := prev.fails + 1, prev.openUntil;
              var thr := if s.threshold < 1 then 1 else s.threshold;
              if nfails >= thr {
                openUntil := c.ended + if s.openSec < 1.0 then 1.0 else s.openSec;
                nfails := 0;
              }
              circuit := circuit[c.key := Circuit(nfails, openUntil)];
              return Failure(attempts + 1), attempts + 1, slept;
            }
            if c.backoff < 0.0 { return Raised, attempts + 1, slept; }
            Pow2Step(attempts, c.backoff);
            slept := slept + c.backoff * Pow2(attempts) as real;
            attempts := attempts + 1;
        }
      }
      return Unexpected, 0, 0.0;
    }
  }

  lemma AttemptsUnfold(c: Call, i: nat)
    requires Supplied(c) && i <= c.retries
    ensures Attempts(c, i) == if !Retriable(c.tries[i]) || i == c.retries || c.backoff < 0.0 then i + 1 else Attempts(c, i + 1)
  {
  }

  // ---------- what a call comes to, told from its attempts alone ----------

  /** The call gets as far as attempt `k`: all before it came to an error that is retried, and it could sleep in between. */
  predicate Reaches(c: Call, k: int)
    requires Supplied(c)
  {
    && 0 <= k <= c.retries && (k > 0 ==> c.backoff >= 0.0)
    && forall i :: 0 <= i < k ==> c.tries[i].HttpError? || c.tries[i].TransportError?
  }

  /** Attempt `k` is reached and the call does not go on after it. */
  predicate Stops(c: Call, k: int)
    requires Supplied(c)
  {
    Reaches(c, k) && (c.tries[k].Answered? || c.tries[k].Escaping? || k == c.retries || c.backoff < 0.0)
  }

  lemma {:induction false} ReachedAttempts(c: Call, k: nat)
    requires Supplied(c) && Reaches(c, k)
    ensures Attempts(c, 0) == Attempts(c, k)
  {
    if k > 0 {
      ReachedAttempts(c, k - 1);
      AttemptsUnfold(c, k - 1);
    }
  }

  /** The last attempt made is the one the call stops at. */
  lemma LastAttempt(m: Circuits, c: Call, k: int)
    requires Supplied(c) && c.now >= Of(m, c.key).openUntil
    ensures Stops(c, k) <==> 1 <= Made(m, c) == k + 1
  {
    if c.retries >= 0 {
      AttemptsShape(c, 0);
      if Stops(c, k) {
        ReachedAttempts(c, k);
        AttemptsUnfold(c, k);
      }
      AttemptsUnfold(c, 0);
    }
  }

  /** A call answers if and only if its circuit is closed and some attempt it gets to is answered; that resets the circuit. */
  lemma AnswerExactly(s: Settings, m: Circuits, c: Call)
    requires Supplied(c)
    ensures Reply(m, c).Answer? <==> c.now >= Of(m, c.key).openUntil && exists k :: Reaches(c, k) && c.tries[k].Answered?
    ensures Reply(m, c).Answer? ==> Step(s, m, c) == m[c.key := Circuit(0, 0.0)]
    ensures Reply(m, c).Answer? ==> Made(m, c) >= 1 && Reaches(c, Made(m, c) - 1) && c.tries[Made(m, c) - 1].Answered?
  {
    Outcome(m, c);
    hide Attempts, Reaches;
    if c.now >= Of(m, c.key).openUntil {
      forall k | Reaches(c, k) && c.tries[k].Answered? ensures Made(m, c) == k + 1 { LastAttempt(m, c, k); }
    }
  }

  /** Attempt `k` ends the call by an exception nothing catches: its own, or that of the sleep before the next one. */
  predicate Fatal(c: Call, k: int)
    requires Supplied(c) && 0 <= k <= c.retries
  {
    c.tries[k].Escaping? || (!c.tries[k].Answered? && k < c.retries && c.backoff < 0.0)
  }

  /**
    A call raises if and only if its circuit is closed and an attempt it gets to raises something nothing catches, or
    the first one is to be retried after a negative sleep; that leaves the circuit as it was.
  */
  lemma RaisedExactly(s: Settings, m: Circuits, c: Call)
    requires Supplied(c)
    ensures Reply(m, c).Raised? <==> c.now >= Of(m, c.key).openUntil && exists k :: Reaches(c, k) && Fatal(c, k)
    ensures Reply(m, c).Raised? ==> Step(s, m, c) == m
  {
    Outcome(m, c);
    hide Attempts, Reaches;
    if c.now >= Of(m, c.key).openUntil {
      forall k | Reaches(c, k) && Fatal(c, k) ensures Made(m, c) == k + 1 { LastAttempt(m, c, k); }
    }
  }

  /**
    A call fails if and only if its circuit is closed and all its attempts come to errors that are retried; the
    circuit then counts one failure more, or opens for the set period, at least a second, once the threshold is reached.
  */
  lemma FailureExactly(s: Settings, m: Circuits, c: Call)
    requires Supplied(c)
    ensures Reply(m, c).Failure? <==>
      && c.now >= Of(m, c.key).openUntil && c.retries >= 0 && (c.retries > 0 ==> c.backoff >= 0.0)
      && (forall k :: 0 <= k <= c.retries ==> c.tries[k].HttpError? || c.tries[k].TransportError?)
    ensures Reply(m, c).Failure? ==> Reply(m, c).attempts == Made(m, c) == c.retries + 1
    ensures Reply(m, c).Failure? ==>
      var prev := Of(m, c.key);
      Step(s, m, c) == m[c.key :=
        if prev.fails + 1 >= s.threshold
        then Circuit(0, c.ended + if s.openSec >= 1.0 then s.openSec else 1.0)
        else Circuit(prev.fails + 1, prev.openUntil)]
  {
    Outcome(m, c);
    if c.retries >= 0 && c.now >= Of(m, c.key).openUntil { LastAttempt(m, c, c.retries); }
    hide Attempts;
  }

  /** An open circuit answers at once, as does a call without any attempt; neither changes anything. */
  lemma UntriedExactly(s: Settings, m: Circuits, c: Call)
    requires Supplied(c)
    ensures Reply(m, c).CircuitOpen? <==> c.now < Of(m, c.key).openUntil
    ensures Reply(m, c).CircuitOpen? ==> Reply(m, c).until == Of(m, c.key).openUntil
    ensures Reply(m, c).Unexpected? <==> c.now >= Of(m, c.key).openUntil && c.retries < 0
    ensures Reply(m, c).CircuitOpen? || Reply(m, c).Unexpected? <==> Made(m, c) == 0
    ensures Made(m, c) == 0 ==> Step(s, m, c) == m
  {
    Outcome(m, c);
    hide Attempts;
  }

  /** The reply is the verdict on the last attempt. */
  lemma Outcome(m: Circuits, c: Call)
    requires Supplied(c)
    ensures c.now >= Of(m, c.key).openUntil && c.retries >= 0 ==>
      1 <= Made(m, c) <= c.retries + 1 && Stops(c, Made(m, c) - 1) && Reply(m, c) == Verdict(c, Made(m, c))
  {
    if c.now >= Of(m, c.key).openUntil && c.retries >= 0 {
      AttemptsShape(c, 0);
      LastAttempt(m, c, Made(m, c) - 1);
    }
  }

  // ---------- runs with fixed settings ----------

  ghost predicate Serial(calls: seq<Call>) {
    && (forall i :: 0 <= i < |calls| ==> Supplied(calls[i]) && 0.0 <= calls[i].now <= calls[i].ended)
    && (forall i, j :: 0 <= i < j < |calls| ==> calls[i].ended <= calls[j].now)
  }

  function Run(s: Settings, calls: seq<Call>): Circuits
    requires forall i :: 0 <= i < |calls| ==> Supplied(calls[i])
  {
    if calls == [] then map[] else Step(s, Run(s, calls[..|calls| - 1]), calls[|calls| - 1])
  }

  /** What a call means for its circuit; a failed one either opens it or not, seen from the deadline it leaves. */
  datatype Event = Success | Opening(at: Time) | Strike | Nothing

  /** The kind of event is read off the call's attempts: one of them was answered, or all of them failed. */
  ghost function EventOf(before: Circuits, after: Circuits, c: Call): Event
    requires Supplied(c)
  {
    if c.now < Of(before, c.key).openUntil then Nothing
    else if exists k :: Reaches(c, k) && c.tries[k].Answered? then Success
    else if Reaches(c, c.retries) && (c.tries[c.retries].HttpError? || c.tries[c.retries].TransportError?) then
      if Of(after, c.key).openUntil > c.ended then Opening(c.ended) else Strike
    else Nothing
  }

  ghost function History(s: Settings, calls: seq<Call>, key: string): seq<Event>
    requires forall i :: 0 <= i < |calls| ==> Supplied(calls[i])
  {
    if calls == [] then [] else
      var before := calls[..|calls| - 1];
      var c := calls[|calls| - 1];
      History(s, before, key) + if c.key == key then [EventOf(Run(s, before), Run(s, calls), c)] else []
  }

  /** Failed calls since the last success or opening. */
  function Strikes(h: seq<Event>): nat {
    if h == [] then 0 else match h[|h| - 1]
      case Success => 0
      case Opening(_) => 0
      case Strike => Strikes(h[..|h| - 1]) + 1
      case Nothing => Strikes(h[..|h| - 1])
  }

  predicate IsFailure(e: Event) { e.Opening? || e.Strike? }

  function Failures(): Event -> bool { (e: Event) => IsFailure(e) }

  function Openings(): Event -> bool { (e: Event) => e.Opening? }

  /** The times of the openings, in order. */
  function OpeningTimes(h: seq<Event>): seq<Time> {
    if h == [] then [] else OpeningTimes(h[..|h| - 1]) + match h[|h| - 1] case Opening(t) => [t] case _ => []
  }

  ghost predicate Apart(ts: seq<Time>, period: real) {
    forall i :: 0 < i < |ts| ==> ts[i] >= ts[i - 1] + period
  }

  /** What a circuit holds after its history. */
  ghost predicate Kept(s: Settings, cir: Circuit, h: seq<Event>, now: Time) {
    var ts := OpeningTimes(h);
    && cir.fails == Strikes(h) < Threshold(s)
    && CountIf(h, Openings()) * Threshold(s) + Strikes(h) <= CountIf(h, Failures())
    && Apart(ts, OpenPeriod(s))
    && (ts != [] ==> cir.openUntil == ts[|ts| - 1] + OpenPeriod(s) || (cir.openUntil == 0.0 && now >= ts[|ts| - 1] + OpenPeriod(s)))
    && (ts == [] ==> cir.openUntil == 0.0)
  }

  lemma KeptSuccess(s: Settings, cir: Circuit, h: seq<Event>, now: Time, ended: Time)
    requires Kept(s, cir, h, now) && cir.openUntil <= now <= ended
    ensures Kept(s, Circuit(0, 0.0), h + [Success], ended)
  {
    assert (h + [Success])[..|h|] == h;
    CountSnoc(h, Success, Openings());
    CountSnoc(h, Success, Failures());
  }

  lemma KeptNothing(s: Settings, cir: Circuit, h: seq<Event>, now: Time, ended: Time)
    requires Kept(s, cir, h, now) && now <= ended
    ensures Kept(s, cir, h + [Nothing], ended)
  {
    assert (h + [Nothing])[..|h|] == h;
    CountSnoc(h, Nothing, Openings());
    CountSnoc(h, Nothing, Failures());
  }

  lemma KeptStrike(s: Settings, cir: Circuit, h: seq<Event>, now: Time, ended: Time)
    requires Kept(s, cir, h, now) && cir.openUntil <= now <= ended && cir.fails + 1 < Threshold(s)
    ensures Kept(s, Circuit(cir.fails + 1, cir.openUntil), h + [Strike], ended)
  {
    assert (h + [Strike])[..|h|] == h;
    CountSnoc(h, Strike, Openings());
    CountSnoc(h, Strike, Failures());
  }

  lemma KeptOpening(s: Settings, cir: Circuit, h: seq<Event>, now: Time, ended: Time)
    requires Kept(s, cir, h, now) && cir.openUntil <= now <= ended && cir.fails + 1 >= Threshold(s)
    ensures Kept(s, Circuit(0, ended + OpenPeriod(s)), h + [Opening(ended)], ended)
  {
    var e := Opening(ended);
    assert (h + [e])[..|h|] == h && (h + [e])[|h|] == e;
    CountSnoc(h, e, Openings());
    CountSnoc(h, e, Failures());
    var n := CountIf(h, Openings());
    assert (n + 1) * Threshold(s) == n * Threshold(s) + Threshold(s);
    var ts := OpeningTimes(h);
    assert OpeningTimes(h + [e]) == ts + [ended];
    assert Apart(ts + [ended], OpenPeriod(s));
  }

  /** The event agrees with what the caller is told. */
  lemma EventTold(s: Settings, m: Circuits, c: Call)
    requires Supplied(c)
    ensures EventOf(m, Step(s, m, c), c) == match Reply(m, c)
      case Answer => Success
      case Failure(_) => if Of(Step(s, m, c), c.key).openUntil > c.ended then Opening(c.ended) else Strike
      case _ => Nothing
  {
    AnswerExactly(s, m, c);
    FailureExactly(s, m, c);
    hide Reply, Step, Of, Attempts;
  }

  lemma StepKept(s: Settings, m: Circuits, c: Call, h: seq<Event>)
    requires Supplied(c) && 0.0 <= c.now <= c.ended && Kept(s, Of(m, c.key), h, c.now)
    ensures var after := Step(s, m, c);
      Kept(s, Of(after, c.key), h + [EventOf(m, after, c)], c.ended)
  {
    var cir := Of(m, c.key);
    EventTold(s, m, c);
    NotOpen(m, c);
    hide Reply, Kept, Threshold, EventOf;
    match Reply(m, c)
    case Answer => KeptSuccess(s, cir, h, c.now, c.ended);
    case Failure(_) =>
      assert OpenPeriod(s) >= 1.0;
      if cir.fails + 1 >= Threshold(s) {
        KeptOpening(s, cir, h, c.now, c.ended);
      } else {
        KeptStrike(s, cir, h, c.now, c.ended);
      }
    case _ => KeptNothing(s, cir, h, c.now, c.ended);
  }

  lemma NotOpen(m: Circuits, c: Call)
    requires Supplied(c)
    ensures Reply(m, c).CircuitOpen? || Of(m, c.key).openUntil <= c.now
  {
  }

  lemma OtherKept(s: Settings, m: Circuits, c: Call, key: string)
    requires Supplied(c) && c.key != key
    ensures Of(Step(s, m, c), key) == Of(m, key)
  {
    hide Reply;
  }

  lemma KeptLater(s: Settings, cir: Circuit, h: seq<Event>, now: Time, later: Time)
    requires Kept(s, cir, h, now) && now <= later
    ensures Kept(s, cir, h, later)
  {
  }

  lemma {:induction false} RunKept(s: Settings, calls: seq<Call>, key: string, now: Time)
    requires Serial(calls) && 0.0 <= now && forall i :: 0 <= i < |calls| ==> calls[i].ended <= now
    ensures Kept(s, Of(Run(s, calls), key), History(s, calls, key), now)
  {
    if calls != [] {
      var before := calls[..|calls| - 1];
      var c := calls[|calls| - 1];
      RunKept(s, before, key, c.now);
      hide Kept, EventOf, Step, Of, Made, Strikes, OpeningTimes;
      if c.key == key {
        StepKept(s, Run(s, before), c, History(s, before, key));
        KeptLater(s, Of(Run(s, calls), key), History(s, calls, key), c.ended, now);
      } else {
        OtherKept(s, Run(s, before), c, key);
        assert History(s, calls, key) == History(s, before, key);
        KeptLater(s, Of(Run(s, calls), key), History(s, calls, key), c.now, now);
      }
    }
  }

  /**
    Serial calls with fixed settings, seen per base URL: the counter is the number of failed calls since the last
    success or opening and stays below the threshold, every opening used up a threshold of failed calls, and
    openings are at least the open period apart.
  */
  lemma BreakerRefinesHistory(s: Settings, calls: seq<Call>, key: string)
    requires Serial(calls)
    ensures var h := History(s, calls, key);
      && Of(Run(s, calls), key).fails == Strikes(h) < Threshold(s)
      && CountIf(h, Openings()) * Threshold(s) <= CountIf(h, Failures())
      && Apart(OpeningTimes(h), OpenPeriod(s))
  {
    RunKept(s, calls, key, if calls == [] then 0.0 else calls[|calls| - 1].ended);
  }

  /** From an opening until its period is over, no call to that base URL makes an HTTP attempt. */
  lemma NoAttemptWhileOpen(s: Settings, calls: seq<Call>, c: Call)
    requires Serial(calls) && Supplied(c)
    requires var ts := OpeningTimes(History(s, calls, c.key)); ts != [] && c.now < ts[|ts| - 1] + OpenPeriod(s)
    requires calls != [] ==> calls[|calls| - 1].ended <= c.now
    ensures Made(Run(s, calls), c) == 0 && Reply(Run(s, calls), c).CircuitOpen?
    ensures Step(s, Run(s, calls), c) == Run(s, calls)
  {
    RunKept(s, calls, c.key, if calls == [] then 0.0 else calls[|calls| - 1].ended);
  }
}
