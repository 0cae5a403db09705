// How errors counted by the gateway are attributed to reports.
module ErrorCounters {
  import opened Outcomes

  /** The named counters: the six that reports look at, the two for reports sent, and all others. */
  datatype Metric =
    | TextAnalysisErrors | SpeechServiceCircuitOpen | FaceInferenceErrors | AudioFeaturesDegraded
    | ReportPartialErrors | ReportFinalErrors | ReportPartialSent | ReportFinalSent | Other(name: string)

  type Counters = map<Metric, int>

  const WINDOW_KEYS: set<Metric> := {TextAnalysisErrors, SpeechServiceCircuitOpen, FaceInferenceErrors,
                                     AudioFeaturesDegraded, ReportPartialErrors, ReportFinalErrors}

  /** In the order of their names, `face_inference` and `text_asr`. */
  datatype Source = FaceInference | TextAsr

  /** The five `..._since_last_report` notes. */
  datatype Note = TextErrors | CircuitOpened | InferenceErrors | AudioDegraded | EmitErrors

  datatype Quality = Quality(complete: bool, degraded: seq<Source>, notes: seq<Note>, window: map<Metric, int>)

  /** What a counter gained between two readings; a loss counts as nothing. */
  function Gain(curr: Counters, prev: Counters, key: Metric): nat {
    var d := Get(curr, key, 0) - Get(prev, key, 0);
    if d > 0 then d else 0
  }

  /** The counter readings so far: the current values, and those the last report was built from. */
  datatype State = State(counters: Counters, prev: Option<Counters>)

  function Incremented(c: Counters, key: Metric, n: int): Counters { c[key := Get(c, key, 0) + n] }

  /** An error or other event being counted, or a report for some session; `sent`: the socket took it. */
  datatype Event = Incr(key: Metric, n: int) | Report(open: bool, partial: bool, sent: bool)

  /** The counter a report moves itself, after it was built. */
  function SendCounter(e: Event): Metric
    requires e.Report?
  {
    if e.partial then (if e.sent then ReportPartialSent else ReportPartialErrors)
    else (if e.sent then ReportFinalSent else ReportFinalErrors)
  }

  function Step(s: State, e: Event): State {
    match e
    case Incr(key, n) => s.(counters := Incremented(s.counters, key, n))
    case Report(open, _, _) => if open then State(Incremented(s.counters, SendCounter(e), 1), Some(s.counters)) else s
  }

  /** `counters_window`: the gains since the readings of the last report, or none on the first. */
  function Window(s: State): (w: map<Metric, int>)
    ensures forall k :: k in WINDOW_KEYS ==> k in w
  {
    var prev := if s.prev.Some? then s.prev.value else s.counters;
    map k: Metric | k in WINDOW_KEYS :: Gain(s.counters, prev, k)
  }

  /** The quality note of a report, in terms of its error counts. */
  ghost predicate QualityOk(w: map<Metric, int>, q: Quality)
    requires forall k :: k in WINDOW_KEYS ==> k in w
  {
    var asr, face := w[TextAnalysisErrors] > 0 || w[SpeechServiceCircuitOpen] > 0, w[FaceInferenceErrors] > 0;
    && q.window == w
    && (q.complete <==> !asr && !face)
    && q.degraded == Noted(face, FaceInference) + Noted(asr, TextAsr)
    && (forall n :: n in q.notes <==> Noteworthy(w, n))
    && InRank(q.notes)
  }

  /** Which counters a note speaks about. */
  predicate Noteworthy(w: map<Metric, int>, n: Note)
    requires forall k :: k in WINDOW_KEYS ==> k in w
  {
    match n
    case TextErrors => w[TextAnalysisErrors] > 0
    case CircuitOpened => w[SpeechServiceCircuitOpen] > 0
    case InferenceErrors => w[FaceInferenceErrors] > 0
    case AudioDegraded => w[AudioFeaturesDegraded] > 0
    case EmitErrors => w[ReportPartialErrors] > 0 || w[ReportFinalErrors] > 0
  }

  /** Notes come in this order, none of them twice. */
  function Rank(n: Note): nat {
    match n case TextErrors => 0 case CircuitOpened => 1 case InferenceErrors => 2 case AudioDegraded => 3 case EmitErrors => 4
  }

  /** A report is silent exactly when none of the six counters gained anything. */
  lemma SilentExactly(w: map<Metric, int>, q: Quality)
    requires (forall k :: k in WINDOW_KEYS ==> k in w) && QualityOk(w, q)
    ensures q.notes == [] <==> forall k :: k in WINDOW_KEYS ==> w[k] <= 0
  {
    hide Noted, Rank;
    if q.notes == [] {
      assert forall n :: !Noteworthy(w, n);
      assert !Noteworthy(w, TextErrors) && !Noteworthy(w, CircuitOpened) && !Noteworthy(w, InferenceErrors);
      assert !Noteworthy(w, AudioDegraded) && !Noteworthy(w, EmitErrors);
    } else {
      assert q.notes[0] in q.notes && Noteworthy(w, q.notes[0]);
    }
  }

  function Noted<T>(on: bool, note: T): (r: seq<T>)
    ensures |r| == if on then 1 else 0
  {
    if on then [note] else []
  }

  predicate InRank(notes: seq<Note>) { forall i, j :: 0 <= i < j < |notes| ==> Rank(notes[i]) < Rank(notes[j]) }

  /** One more note, of a higher rank than those before. */
  method AddNote(notes: seq<Note>, on: bool, n: Note) returns (r: seq<Note>)
    requires InRank(notes) && forall x :: x in notes ==> Rank(x) < Rank(n)
    ensures InRank(r) && forall x :: x in r <==> x in notes || (on && x == n)
  {
    hide Rank;
    r := if on then notes + [n] else notes;
    assert forall i :: 0 <= i < |notes| ==> notes[i] in notes;
  }

  method AugmentReportDataQuality(curr: Counters, prev: Option<Counters>) returns (q: Quality)
    ensures QualityOk(Window(State(curr, prev)), q)
  {
    var delta := Window(State(curr, prev));
    assert TextAnalysisErrors in delta && SpeechServiceCircuitOpen in delta && FaceInferenceErrors in delta;
    hide *;
    var asr := delta[TextAnalysisErrors] > 0 || delta[SpeechServiceCircuitOpen] > 0;
    var face := delta[FaceInferenceErrors] > 0;
    var notes := AddNotes(delta);
    q := Quality(!asr && !face, Noted(face, FaceInference) + Noted(asr, TextAsr), notes, delta);
    QualityIs(delta, q);
  }

  method AddNotes(w: map<Metric, int>) returns (notes: seq<Note>)
    requires forall k :: k in WINDOW_KEYS ==> k in w
    ensures InRank(notes) && forall n :: n in notes <==> Noteworthy(w, n)
  {
    NoNotes();
    hide InRank;
    notes := AddNote([], w[TextAnalysisErrors] > 0, TextErrors);
    notes := AddNote(notes, w[SpeechServiceCircuitOpen] > 0, CircuitOpened);
    notes := AddNote(notes, w[FaceInferenceErrors] > 0, InferenceErrors);
    notes := AddNote(notes, w[AudioFeaturesDegraded] > 0, AudioDegraded);
    notes := AddNote(notes, w[ReportPartialErrors] > 0 || w[ReportFinalErrors] > 0, EmitErrors);
  }

  lemma QualityIs(w: map<Metric, int>, q: Quality)
    requires forall k :: k in WINDOW_KEYS ==> k in w
    requires InRank(q.notes) && forall n :: n in q.notes <==> Noteworthy(w, n)
    requires var asr, face := w[TextAnalysisErrors] > 0 || w[SpeechServiceCircuitOpen] > 0, w[FaceInferenceErrors] > 0;
      q.window == w && (q.complete <==> !asr && !face) && q.degraded == Noted(face, FaceInference) + Noted(asr, TextAsr)
    ensures QualityOk(w, q)
  {
  }

  lemma NoNotes()
    ensures InRank([])
  {
  }

  class ReportLoop {
    var counters: Counters
    var qualityPrev: Option<Counters>

    constructor ()
      ensures Now() == State(map[], None)
    {
      counters, qualityPrev := map[], None;
    }

    function Now(): State
      reads this
    {
      State(counters, qualityPrev)
    }

    method Incr(key: Metric, n: int)
      modifies this
      ensures Now() == Step(old(Now()), Event.Incr(key, n))
    {
      counters := counters[key := (if key in counters then counters[key] else 0) + n];
    }

    method SendReport(open: bool, partial: bool, sent: bool) returns (q: Option<Quality>)
      modifies this
      ensures Now() == Step(old(Now()), Report(open, partial, sent))
      ensures q.Some? <==> open
      ensures open ==> QualityOk(Window(old(Now())), q.value)
      ensures open ==> qualityPrev == Some(old(counters))
      ensures open && partial && sent ==> counters == Incremented(old(counters), ReportPartialSent, 1)
      ensures open && partial && !sent ==> counters == Incremented(old(counters), ReportPartialErrors, 1)
      ensures open && !partial && sent ==> counters == Incremented(old(counters), ReportFinalSent, 1)
      ensures open && !partial && !sent ==> counters == Incremented(old(counters), ReportFinalErrors, 1)
    {
      if !open { return None; }
      var curr := counters;
      var quality := AugmentReportDataQuality(curr, qualityPrev);
      qualityPrev := Some(curr);
      q := Some(quality);
      Incr(if partial then (if sent then ReportPartialSent else ReportPartialErrors)
           else (if sent then ReportFinalSent else ReportFinalErrors), 1);
    }

    /** One tick: a report for every target session whose report module is on; `taken`: the sessions the socket takes reports for. */
    method Tick(targets: seq<int>, enabled: set<int>, open: bool, partial: bool, taken: set<int>)
      modifies this
      ensures Now() == Run(old(Now()), TickEvents(targets, enabled, open, partial, taken))
    {
      for i := 0 to |targets|
        invariant Now() == Run(old(Now()), TickEvents(targets[..i], enabled, open, partial, taken))
      {
        TickSnoc(targets, i, enabled, open, partial, taken);
        if targets[i] in enabled {
          var _ := SendReport(open, partial, targets[i] in taken);
          RunSnoc(old(Now()), TickEvents(targets[..i], enabled, open, partial, taken), Report(open, partial, targets[i] in taken));
        }
      }
      assert targets[..|targets|] == targets;
    }
  }

  function TickEvents(targets: seq<int>, enabled: set<int>, open: bool, partial: bool, taken: set<int>): seq<Event> {
    if targets == [] then [] else
      var sid := targets[|targets| - 1];
      TickEvents(targets[..|targets| - 1], enabled, open, partial, taken) +
        if sid in enabled then [Report(open, partial, sid in taken)] else []
  }

  lemma TickSnoc(targets: seq<int>, i: nat, enabled: set<int>, open: bool, partial: bool, taken: set<int>)
    requires i < |targets|
    ensures var before := TickEvents(targets[..i], enabled, open, partial, taken);
      TickEvents(targets[..i + 1], enabled, open, partial, taken) ==
        if targets[i] in enabled then before + [Report(open, partial, targets[i] in taken)] else before
  {
    assert targets[..i + 1][..i] == targets[..i];
  }

  // ---------- runs ----------

  function Run(s: State, events: seq<Event>): State {
    if events == [] then s else Step(Run(s, events[..|events| - 1]), events[|events| - 1])
  }

  lemma RunSnoc(s: State, events: seq<Event>, e: Event)
    ensures Run(s, events + [e]) == Step(Run(s, events), e)
  {
    assert (events + [e])[..|events|] == events;
  }

  lemma RunLast(s: State, events: seq<Event>)
    requires events != []
    ensures Run(s, events) == Step(Run(s, events[..|events| - 1]), events[|events| - 1])
  {
  }

  predicate Built(e: Event) { e.Report? && e.open }

  /** What the reports built in a run charge to one counter, all together. */
  function Charged(s: State, events: seq<Event>, key: Metric): int
    requires key in WINDOW_KEYS
  {
    if events == [] then 0 else
      var before := events[..|events| - 1];
      var e := events[|events| - 1];
      Charged(s, before, key) + if Built(e) then Window(Run(s, before))[key] else 0
  }

  /** The readings of one counter at the reports built in a run, in order. */
  function Readings(s: State, events: seq<Event>, key: Metric): seq<int> {
    if events == [] then [] else
      var before := events[..|events| - 1];
      Readings(s, before, key) + if Built(events[|events| - 1]) then [Get(Run(s, before).counters, key, 0)] else []
  }

  ghost predicate NeverFalls(rs: seq<int>) { forall i :: 0 < i < |rs| ==> rs[i - 1] <= rs[i] }

  function Gained(rs: seq<int>): int { if rs == [] then 0 else rs[|rs| - 1] - rs[0] }

  /** The sum of the gains between successive readings. */
  function GainSum(rs: seq<int>): nat {
    if |rs| <= 1 then 0 else
      var d := rs[|rs| - 1] - rs[|rs| - 2];
      GainSum(rs[..|rs| - 1]) + if d > 0 then d else 0
  }

  lemma {:induction false} GainsTelescope(rs: seq<int>)
    ensures GainSum(rs) >= Gained(rs)
    ensures GainSum(rs) == Gained(rs) <==> NeverFalls(rs)
  {
    if |rs| > 1 {
      var before := rs[..|rs| - 1];
      GainsTelescope(before);
      assert rs[|rs| - 2] == before[|before| - 1];
      forall i | 0 < i < |before| ensures before[i - 1] <= before[i] <==> rs[i - 1] <= rs[i] {}
    }
  }

  /** The readings a report is compared with are those of the last report built. */
  predicate Remembers(s: State, rs: seq<int>, key: Metric) {
    (s.prev.None? <==> rs == []) && (rs != [] ==> s.prev.Some? && Get(s.prev.value, key, 0) == rs[|rs| - 1])
  }

  lemma StepRemembers(s: State, e: Event, rs: seq<int>, key: Metric)
    requires Remembers(s, rs, key)
    ensures Remembers(Step(s, e), if Built(e) then rs + [Get(s.counters, key, 0)] else rs, key)
  {
  }

  lemma ReadingsLast(s: State, events: seq<Event>, key: Metric)
    requires events != []
    ensures var before := events[..|events| - 1];
      Readings(s, events, key) ==
        if Built(events[|events| - 1]) then Readings(s, before, key) + [Get(Run(s, before).counters, key, 0)] else Readings(s, before, key)
  {
  }

  lemma {:induction false} RunCharged(counters: Counters, events: seq<Event>, key: Metric)
    requires key in WINDOW_KEYS
    ensures var s := State(counters, None);
      Charged(s, events, key) == GainSum(Readings(s, events, key)) && Remembers(Run(s, events), Readings(s, events, key), key)
  {
    if events != [] {
      var s := State(counters, None);
      var before := events[..|events| - 1];
      var e := events[|events| - 1];
      RunCharged(counters, before, key);
      RunLast(s, events);
      ReadingsLast(s, events, key);
      hide Window, GainSum, Run, Readings, Remembers, Step;
      StepRemembers(Run(s, before), e, Readings(s, before, key), key);
      if Built(e) { BuiltCharged(Run(s, before), Readings(s, before, key), key); }
    }
  }

  /** One more report. */
  lemma BuiltCharged(s: State, rs: seq<int>, key: Metric)
    requires key in WINDOW_KEYS && Remembers(s, rs, key)
    ensures GainSum(rs + [Get(s.counters, key, 0)]) == GainSum(rs) + Window(s)[key]
  {
    GainSnoc(rs, Get(s.counters, key, 0));
    WindowGain(s, key);
    hide Window, GainSum;
  }

  lemma GainSnoc(rs: seq<int>, x: int)
    ensures GainSum(rs + [x]) == GainSum(rs) + if rs != [] && x > rs[|rs| - 1] then x - rs[|rs| - 1] else 0
  {
    assert (rs + [x])[..|rs|] == rs;
  }

  lemma WindowGain(s: State, key: Metric)
    requires key in WINDOW_KEYS
    ensures key in Window(s) && Window(s)[key] == if s.prev.Some? then Gain(s.counters, s.prev.value, key) else 0
  {
  }

  /**
    All reports together charge a counter with what it gained from the first report to the last, whatever sessions
    they are for, exactly when it never fell from one report to the next.
  */
  lemma ChargesTelescope(counters: Counters, events: seq<Event>, key: Metric)
    requires key in WINDOW_KEYS
    ensures var s := State(counters, None);
      var rs := Readings(s, events, key);
      Charged(s, events, key) == Gained(rs) <==> NeverFalls(rs)
  {
    RunCharged(counters, events, key);
    GainsTelescope(Readings(State(counters, None), events, key));
  }

  predicate OnlyGrows(events: seq<Event>, key: Metric) { forall e :: e in events && e.Incr? && e.key == key ==> e.n >= 0 }

  lemma CounterGrows(s: State, e: Event, key: Metric)
    requires e.Incr? && e.key == key ==> e.n >= 0
    ensures Get(s.counters, key, 0) <= Get(Step(s, e).counters, key, 0)
  {
  }

  lemma {:induction false} GrowingReadings(s: State, events: seq<Event>, key: Metric)
    requires OnlyGrows(events, key)
    ensures NeverFalls(Readings(s, events, key))
    ensures var rs := Readings(s, events, key); rs != [] ==> rs[|rs| - 1] <= Get(Run(s, events).counters, key, 0)
  {
    if events != [] {
      var before := events[..|events| - 1];
      var e := events[|events| - 1];
      assert e in events && forall x :: x in before ==> x in events;
      GrowingReadings(s, before, key);
      CounterGrows(Run(s, before), e, key);
      RunLast(s, events);
      hide Step, Run, OnlyGrows;
    }
  }

  /** With increments that are never negative, a report leaves every error since the first report charged to exactly one report. */
  lemma ErrorsChargedOnce(counters: Counters, events: seq<Event>, key: Metric, e: Event)
    requires key in WINDOW_KEYS && OnlyGrows(events, key) && Built(e)
    ensures var s := State(counters, None);
      Charged(s, events + [e], key) == Get(Run(s, events).counters, key, 0) - Readings(s, events + [e], key)[0]
  {
    var s := State(counters, None);
    assert (events + [e])[..|events|] == events;
    assert OnlyGrows(events + [e], key);
    hide OnlyGrows;
    GrowingReadings(s, events + [e], key);
    ChargesTelescope(counters, events + [e], key);
    hide Charged, NeverFalls;
  }

  lemma ReadingsSnoc(s: State, events: seq<Event>, e: Event, key: Metric)
    ensures Readings(s, events + [e], key) ==
      if Built(e) then Readings(s, events, key) + [Get(Run(s, events).counters, key, 0)] else Readings(s, events, key)
  {
    assert (events + [e])[..|events|] == events;
  }

  lemma CounterAfter(s: State, events: seq<Event>, e: Event, key: Metric)
    requires key in WINDOW_KEYS
    requires e.Report? ==> e.sent
    ensures Get(Run(s, events + [e]).counters, key, 0) == Get(Run(s, events).counters, key, 0) + if e.Incr? && e.key == key then e.n else 0
  {
    RunSnoc(s, events, e);
    hide Run;
  }

  lemma StartReads(s: State, key: Metric)
    requires s.counters == map[]
    ensures Get(Run(s, []).counters, key, 0) == 0 && Readings(s, [], key) == []
    ensures Built(Report(true, true, true)) && forall n :: !Built(Incr(key, n))
  {
  }

  lemma TwoReadings(a: int, b: int)
    requires b < a
    ensures GainSum([a, b]) == 0 && Gained([a, b]) == b - a
  {
    assert [a, b][..1] == [a];
  }

  /** Another count, then another report. */
  function Counted(before: seq<Event>, key: Metric, n: int): seq<Event> {
    before + [Incr(key, n)] + [Report(true, true, true)]
  }

  lemma CountThenReport(s: State, before: seq<Event>, key: Metric, n: int)
    requires key in WINDOW_KEYS
    ensures var now := Get(Run(s, before).counters, key, 0) + n;
      Readings(s, Counted(before, key, n), key) == Readings(s, before, key) + [now]
      && Get(Run(s, Counted(before, key, n)).counters, key, 0) == now
  {
    var counted, built := before + [Incr(key, n)], Report(true, true, true);
    CounterAfter(s, before, Incr(key, n), key);
    CounterAfter(s, counted, built, key);
    ReadingsSnoc(s, before, Incr(key, n), key);
    ReadingsSnoc(s, counted, built, key);
    hide Run, Readings;
  }

  /** Some errors counted and reported, then some taken back and reported. */
  function Falling(key: Metric, up: int, down: int): seq<Event> { Counted(Counted([], key, up), key, -down) }

  lemma FallingReads(s: State, key: Metric, up: int, down: int)
    requires key in WINDOW_KEYS && s.counters == map[]
    ensures Readings(s, Falling(key, up, down), key) == [up, up - down]
  {
    var none: seq<Event> := [];
    var once := Counted(none, key, up);
    assert Falling(key, up, down) == Counted(once, key, -down);
    StartReads(s, key);
    hide *;
    CountThenReport(s, none, key, up);
    CountThenReport(s, once, key, -down);
    TwoLong(Readings(s, none, key), up, up - down);
  }

  lemma TwoLong(none: seq<int>, a: int, b: int)
    requires none == []
    ensures none + [a] + [b] == [a, b]
  {
  }

  /** A counter that falls between two reports: they charge nothing, though what it gained between them is negative. */
  lemma CounterFell(key: Metric, up: int, down: int)
    requires key in WINDOW_KEYS && down > 0
    ensures var s, events := State(map[], None), Falling(key, up, down);
      Readings(s, events, key) == [up, up - down] && Charged(s, events, key) == 0 && Gained(Readings(s, events, key)) == -down
  {
    FallingReads(State(map[], None), key, up, down);
    TwoReadings(up, up - down);
    hide *;
    RunCharged(map[], Falling(key, up, down), key);
  }
}
