// Sliding-window transcription of growing audio segments, one stream per session and participant.
module AsrWindow {
  import opened Outcomes
  import opened Features

  const SAMPLE_RATE: real := 16000.0

  /** Seconds. */
  datatype Settings = Settings(window: real, step: real)

  datatype Stream = Stream(lastText: string, lastDuration: real)

  datatype Key = Key(session: int, participant: string)

  type Streams = map<Key, Stream>

  /**
    `size`: the samples decoded so far, or none when the chunk is missing, too small or cannot be decoded;
    `text`: what the recogniser makes of the window, if it is run.
  */
  datatype Request = Request(key: Key, size: Option<nat>, last: bool, text: string)

  datatype Response = Response(partial: string, complete: Option<string>)

  const SILENT := Response("", None)

  const FRESH := Stream("", 0.0)

  predicate Accepted(r: Request) { r.size.Some? && r.size.value > 0 }

  function Duration(size: nat): real { size as real / SAMPLE_RATE }

  function WindowSamples(s: Settings): nat {
    var n := (s.window * SAMPLE_RATE).Floor;
    if n < 1 then 1 else n
  }

  predicate ShouldRun(s: Settings, st: Stream, r: Request)
    requires Accepted(r)
  {
    r.last || (Duration(r.size.value) >= s.window && Duration(r.size.value) - st.lastDuration >= s.step)
  }

  /** The text a run puts out: not the same twice in a row, unless the segment ends. */
  function Emitted(st: Stream, r: Request): string {
    if Strip(r.text) == st.lastText && !r.last then "" else Strip(r.text)
  }

  function After(s: Settings, st: Stream, r: Request): Stream
    requires Accepted(r) && !r.last
  {
    if ShouldRun(s, st, r) then Stream(if Strip(r.text) != "" then Strip(r.text) else st.lastText, Duration(r.size.value)) else st
  }

  function Of(m: Streams, key: Key): Stream { Get(m, key, FRESH) }

  function Step(s: Settings, m: Streams, r: Request): Streams {
    if !Accepted(r) || !ShouldRun(s, Of(m, r.key), r) then m
    else if r.last then m - {r.key}
    else m[r.key := After(s, Of(m, r.key), r)]
  }

  function Reply(s: Settings, m: Streams, r: Request): Response {
    if !Accepted(r) || !ShouldRun(s, Of(m, r.key), r) then SILENT
    else
      var text := Emitted(Of(m, r.key), r);
      Response(text, if r.last && text != "" then Some(text) else None)
  }

  /** Sample positions `from` up to `to`. */
  datatype Range = Range(from: nat, to: nat)

  /** The samples a run transcribes: the last window, or all there is. */
  function Heard(s: Settings, size: nat): Range {
    Range(if size > WindowSamples(s) then size - WindowSamples(s) else 0, size)
  }

  function Least(a: nat, b: nat): nat { if a < b then a else b }

  class Service {
    const settings: Settings
    var streams: Streams

    constructor (settings: Settings)
      ensures this.settings == settings && streams == map[]
    {
      this.settings := settings;
      streams := map[];
    }

    /** `heard`: the samples given to the recogniser, when it is run. */
    method WhisperSync(r: Request) returns (out: Response, heard: Option<Range>)
      modifies this
      ensures out == Reply(settings, old(streams), r) && streams == Step(settings, old(streams), r)
      ensures heard.Some? <==> Accepted(r) && ShouldRun(settings, Of(old(streams), r.key), r)
      ensures heard.Some? ==> heard.value == Heard(settings, r.size.value)
      ensures heard.Some? ==>
        var n := (settings.window * 16000.0).Floor;
        heard.value.to == r.size.value && heard.value.to - heard.value.from == Least(r.size.value, if n < 1 then 1 else n)
    {
      if r.size.None? { return SILENT, None; }
      if r.size.value == 0 { return SILENT, None; }
      var duration := r.size.value as real / SAMPLE_RATE;
      var st := if r.key in streams then streams[r.key] else FRESH;
      var shouldRun := r.last || (duration >= settings.window && duration - st.lastDuration >= settings.step);
      if !shouldRun { return SILENT, None; }
      var window := (settings.window * SAMPLE_RATE).Floor;
      if window < 1 { window := 1; }
      heard := Some(Range(if r.size.value > window then r.size.value - window else 0, r.size.value));
      var emit := Strip(r.text);
      if emit != "" && emit == st.lastText && !r.last { emit := ""; }
      if r.last {
        streams := streams - {r.key};
      } else {
        streams := streams[r.key := Stream(if Strip(r.text) != "" then Strip(r.text) else st.lastText, duration)];
      }
      out := Response(emit, if r.last && emit != "" then Some(emit) else None);
    }
  }

  // ---------- one segment of one stream ----------

  function Run(s: Settings, reqs: seq<Request>): Streams {
    if reqs == [] then map[] else Step(s, Run(s, reqs[..|reqs| - 1]), reqs[|reqs| - 1])
  }

  /** The accepted chunks of a stream since its last final one. */
  function Segment(reqs: seq<Request>, key: Key): seq<Request> {
    if reqs == [] then [] else
      var r := reqs[|reqs| - 1];
      var before := Segment(reqs[..|reqs| - 1], key);
      if r.key != key || !Accepted(r) then before else if r.last then [] else before + [r]
  }

  predicate Open(seg: seq<Request>) { forall i :: 0 <= i < |seg| ==> Accepted(seg[i]) && !seg[i].last }

  /** A stream's state after the chunks of a segment that is still open. */
  function Fold(s: Settings, seg: seq<Request>): Stream
    requires Open(seg)
  {
    if seg == [] then FRESH else After(s, Fold(s, seg[..|seg| - 1]), seg[|seg| - 1])
  }

  lemma {:induction false} SegmentOpen(reqs: seq<Request>, key: Key)
    ensures Open(Segment(reqs, key))
  {
    if reqs != [] { SegmentOpen(reqs[..|reqs| - 1], key); }
  }

  lemma FoldSnoc(s: Settings, seg: seq<Request>, r: Request)
    requires Open(seg) && Accepted(r) && !r.last
    ensures Open(seg + [r]) && Fold(s, seg + [r]) == After(s, Fold(s, seg), r)
  {
    assert (seg + [r])[..|seg|] == seg;
  }

  /** What a request does to one stream. */
  lemma StepOf(s: Settings, m: Streams, r: Request, key: Key)
    ensures Of(Step(s, m, r), key) ==
      if r.key != key || !Accepted(r) then Of(m, key) else if r.last then FRESH else After(s, Of(m, key), r)
  {
    hide Strip, Duration;
  }

  /** What is stored for a stream depends only on the chunks of its current segment. */
  lemma {:induction false} SegmentDecides(s: Settings, reqs: seq<Request>, key: Key)
    ensures Open(Segment(reqs, key)) && Of(Run(s, reqs), key) == Fold(s, Segment(reqs, key))
  {
    SegmentOpen(reqs, key);
    if reqs != [] {
      var before := reqs[..|reqs| - 1];
      var r := reqs[|reqs| - 1];
      SegmentDecides(s, before, key);
      StepOf(s, Run(s, before), r, key);
      if r.key == key && Accepted(r) && !r.last { FoldSnoc(s, Segment(before, key), r); }
      hide Step, After, Of, Open;
    }
  }

  // ---------- what is transcribed ----------

  /** The chunks of an open segment on which the recogniser ran. */
  function Runs(s: Settings, seg: seq<Request>): seq<Request>
    requires Open(seg)
  {
    if seg == [] then [] else
      var before := seg[..|seg| - 1];
      Runs(s, before) + if ShouldRun(s, Fold(s, before), seg[|seg| - 1]) then [seg[|seg| - 1]] else []
  }

  /** The chunks of a stream's current segment on which the recogniser ran, in a run of the whole service. */
  function HeardSince(s: Settings, reqs: seq<Request>, key: Key): seq<Request> {
    if reqs == [] then [] else
      var before, r := reqs[..|reqs| - 1], reqs[|reqs| - 1];
      if r.key != key || !Accepted(r) then HeardSince(s, before, key)
      else if r.last then []
      else HeardSince(s, before, key) + if ShouldRun(s, Of(Run(s, before), key), r) then [r] else []
  }

  /** The service runs the recogniser on a stream exactly where its current segment alone says so. */
  lemma {:induction false} HeardIsRuns(s: Settings, reqs: seq<Request>, key: Key)
    ensures Open(Segment(reqs, key)) && HeardSince(s, reqs, key) == Runs(s, Segment(reqs, key))
  {
    SegmentOpen(reqs, key);
    if reqs != [] {
      var before, r := reqs[..|reqs| - 1], reqs[|reqs| - 1];
      HeardIsRuns(s, before, key);
      SegmentDecides(s, before, key);
      if r.key == key && Accepted(r) && !r.last { RunsSnoc(s, Segment(before, key), r); }
      hide ShouldRun, Of, Run, Fold, Open, Runs;
    }
  }

  function SizeOf(r: Request): nat { if r.size.Some? then r.size.value else 0 }

  /** Non-final runs are at least a step apart, the first at least a step in. */
  ghost predicate StepApart(s: Settings, runs: seq<Request>) {
    && (forall i :: 0 < i < |runs| ==> Duration(SizeOf(runs[i])) - Duration(SizeOf(runs[i - 1])) >= s.step)
    && (runs != [] ==> Duration(SizeOf(runs[0])) >= s.step)
  }

  lemma {:induction false} RunsStepApart(s: Settings, seg: seq<Request>)
    requires Open(seg)
    ensures StepApart(s, Runs(s, seg))
    ensures Fold(s, seg).lastDuration == if Runs(s, seg) == [] then 0.0 else Duration(SizeOf(Runs(s, seg)[|Runs(s, seg)| - 1]))
  {
    hide Duration;
    assert Duration(0) == 0.0 by { DurationZero(); }
    if seg != [] {
      RunsStepApart(s, seg[..|seg| - 1]);
    }
  }

  lemma DurationZero()
    ensures Duration(0) == 0.0
  {
  }

  /** Sizes that never shrink, and grow by at most `most` samples a chunk. */
  ghost predicate Growing(sizes: seq<nat>, most: nat) {
    && (sizes != [] ==> sizes[0] <= most)
    && (forall i :: 0 < i < |sizes| ==> sizes[i - 1] <= sizes[i] <= sizes[i - 1] + most)
  }

  function Sizes(seg: seq<Request>): seq<nat> { seq(|seg|, i requires 0 <= i < |seg| => SizeOf(seg[i])) }

  predicate Hears(s: Settings, r: Request, x: nat) { Heard(s, SizeOf(r)).from <= x < SizeOf(r) }

  ghost predicate Transcribed(s: Settings, runs: seq<Request>, x: nat) { exists r :: r in runs && Hears(s, r, x) }

  /** Every sample from `from` up to `to` lies in the window of some run. */
  ghost predicate Covered(s: Settings, runs: seq<Request>, from: nat, to: nat) {
    forall x: nat :: from <= x < to ==> Transcribed(s, runs, x)
  }

  function LastSize(runs: seq<Request>): nat { if runs == [] then 0 else SizeOf(runs[|runs| - 1]) }

  /** No run is due at this size after one at `last`. */
  predicate Recent(s: Settings, last: nat, size: nat) {
    Duration(size) - Duration(last) < s.step || size == last
  }

  /** Where a segment that is still open stands. */
  ghost predicate Standing(s: Settings, seg: seq<Request>, gap: nat, most: nat)
    requires Open(seg)
  {
    var runs := Runs(s, seg);
    var size := LastSize(seg);
    && LastSize(runs) <= size
    && (runs == [] ==> seg == [] || Duration(size) < s.window)
    && (runs != [] ==> Duration(LastSize(runs)) >= s.window && Recent(s, LastSize(runs), size))
    && (runs != [] ==> Covered(s, runs, gap, LastSize(runs)) && GapOk(s, gap, most))
  }

  predicate Whole(s: Settings) { s.window * SAMPLE_RATE == WindowSamples(s) as real }

  /** The gap at the start is at most one chunk, and shorter when the window is a whole number of samples. */
  predicate GapOk(s: Settings, gap: nat, most: nat) { gap <= most && (Whole(s) ==> gap < most) }

  predicate Fits(s: Settings, most: nat) {
    0.0 <= s.step <= s.window && Duration(most) <= s.window - s.step
  }

  lemma Extend(s: Settings, runs: seq<Request>, gap: nat, r: Request)
    requires Covered(s, runs, gap, LastSize(runs)) && (runs == [] ==> gap == Heard(s, SizeOf(r)).from)
    requires runs != [] ==> Heard(s, SizeOf(r)).from <= LastSize(runs)
    ensures Covered(s, runs + [r], gap, SizeOf(r))
  {
    assert r in runs + [r];
    forall x: nat | gap <= x < SizeOf(r) ensures Transcribed(s, runs + [r], x) {
      if x < LastSize(runs) {
        assert Transcribed(s, runs, x);
        var q :| q in runs && Hears(s, q, x);
        assert q in runs + [r];
      } else {
        assert Hears(s, r, x);
      }
    }
  }

  /** The next window reaches back to the end of the one before. */
  lemma WindowsMeet(s: Settings, last: nat, prev: nat, size: nat, most: nat)
    requires Fits(s, most) && last <= prev <= size <= prev + most && Recent(s, last, prev)
    ensures Heard(s, size).from <= last
  {
    assert (size - last) as real <= s.window * SAMPLE_RATE;
    assert size - last <= (s.window * SAMPLE_RATE).Floor;
  }

  lemma FirstWindow(s: Settings, prev: nat, size: nat, most: nat)
    requires Fits(s, most) && prev <= size <= prev + most && 0 < most
    requires Duration(prev) < s.window || prev == 0
    ensures GapOk(s, Heard(s, size).from, most)
  {
    assert prev as real <= s.window * SAMPLE_RATE;
    assert prev <= (s.window * SAMPLE_RATE).Floor;
  }

  /** One more run, final or not, on a segment that stands as above. */
  lemma RunCovers(s: Settings, seg: seq<Request>, r: Request, gap: nat, most: nat) returns (from: nat)
    requires Open(seg) && Standing(s, seg, gap, most) && Fits(s, most) && 0 < most
    requires LastSize(seg) <= SizeOf(r) <= LastSize(seg) + most
    ensures Covered(s, Runs(s, seg) + [r], from, SizeOf(r)) && GapOk(s, from, most)
    ensures Runs(s, seg) != [] ==> from == gap
  {
    hide Fits, GapOk, Runs, Open, Duration;
    var runs := Runs(s, seg);
    if runs == [] {
      from := Heard(s, SizeOf(r)).from;
      FirstWindow(s, LastSize(seg), SizeOf(r), most);
    } else {
      from := gap;
      WindowsMeet(s, LastSize(runs), LastSize(seg), SizeOf(r), most);
    }
    Extend(s, runs, from, r);
  }

  lemma StillWaits(s: Settings, seg: seq<Request>, r: Request, gap: nat, most: nat)
    requires Open(seg) && Accepted(r) && Standing(s, seg, gap, most) && s.step <= s.window && LastSize(seg) <= SizeOf(r)
    requires !ShouldRun(s, Fold(s, seg), r)
    ensures var runs := Runs(s, seg);
      if runs == [] then Duration(SizeOf(r)) < s.window else Recent(s, LastSize(runs), SizeOf(r))
  {
    RunsStepApart(s, seg);
    hide Fold, Runs, Covered;
  }

  lemma GrowingInit(sizes: seq<nat>, most: nat)
    requires Growing(sizes, most) && sizes != []
    ensures Growing(sizes[..|sizes| - 1], most)
  {
  }

  lemma RunsSnoc(s: Settings, seg: seq<Request>, r: Request)
    requires Open(seg) && Accepted(r) && !r.last
    ensures Open(seg + [r]) && LastSize(seg + [r]) == SizeOf(r)
    ensures Runs(s, seg + [r]) == if ShouldRun(s, Fold(s, seg), r) then Runs(s, seg) + [r] else Runs(s, seg)
  {
    assert (seg + [r])[..|seg|] == seg;
  }

  lemma StandsOn(s: Settings, seg: seq<Request>, r: Request, gap: nat, most: nat) returns (from: nat)
    requires Open(seg) && Accepted(r) && !r.last && Standing(s, seg, gap, most) && Fits(s, most) && 0 < most
    requires LastSize(seg) <= SizeOf(r) <= LastSize(seg) + most
    ensures Open(seg + [r]) && Standing(s, seg + [r], from, most)
  {
    RunsStepApart(s, seg);
    RunsSnoc(s, seg, r);
    hide Open, Fold, Runs, Covered, GapOk;
    if ShouldRun(s, Fold(s, seg), r) {
      from := RunCovers(s, seg, r, gap, most);
    } else {
      from := gap;
      StillWaits(s, seg, r, gap, most);
    }
  }

  lemma {:induction false} SegmentStands(s: Settings, seg: seq<Request>, most: nat) returns (gap: nat)
    requires Open(seg) && Fits(s, most) && 0 < most && Growing(Sizes(seg), most)
    ensures Standing(s, seg, gap, most)
  {
    gap := 0;
    if seg != [] {
      var before := seg[..|seg| - 1];
      var r := seg[|seg| - 1];
      assert Sizes(before) == Sizes(seg)[..|before|];
      GrowingInit(Sizes(seg), most);
      gap := SegmentStands(s, before, most);
      assert Sizes(seg)[|before|] == SizeOf(r);
      assert before != [] ==> Sizes(seg)[|before| - 1] == LastSize(before);
      assert seg == before + [r];
      hide Standing, Fits;
      gap := StandsOn(s, before, r, gap, most);
    }
  }

  /**
    A finished segment whose chunks never shrink and add at most `most` samples, with a step and a chunk fitting
    into the window: the windows transcribed cover all of it but for an initial gap of at most one chunk.
  */
  lemma SegmentCovered(s: Settings, seg: seq<Request>, final: Request, most: nat) returns (gap: nat)
    requires Open(seg) && Accepted(final) && final.last
    requires Fits(s, most) && Growing(Sizes(seg + [final]), most)
    ensures Covered(s, Runs(s, seg) + [final], gap, SizeOf(final)) && GapOk(s, gap, most)
  {
    var sizes := Sizes(seg + [final]);
    assert Sizes(seg) == sizes[..|seg|] && sizes[|seg|] == SizeOf(final);
    GrowingInit(sizes, most);
    MostPositive(sizes, most);
    gap := SegmentStands(s, seg, most);
    assert seg != [] ==> sizes[|seg| - 1] == LastSize(seg);
    gap := RunCovers(s, seg, final, gap, most);
  }

  lemma {:induction false} MostPositive(sizes: seq<nat>, most: nat)
    requires Growing(sizes, most) && sizes != [] && sizes[|sizes| - 1] > 0
    ensures most > 0
  {
    if |sizes| > 1 && sizes[|sizes| - 2] > 0 {
      GrowingInit(sizes, most);
      MostPositive(sizes[..|sizes| - 1], most);
    }
  }

  /** The same for the service: what it has heard of a stream when the segment is finished. */
  lemma FinishedCovered(s: Settings, reqs: seq<Request>, final: Request, most: nat) returns (gap: nat)
    requires Accepted(final) && final.last && Fits(s, most)
    requires Growing(Sizes(Segment(reqs, final.key) + [final]), most)
    ensures Covered(s, HeardSince(s, reqs, final.key) + [final], gap, SizeOf(final)) && GapOk(s, gap, most)
  {
    HeardIsRuns(s, reqs, final.key);
    gap := SegmentCovered(s, Segment(reqs, final.key), final, most);
  }

  // ---------- when the initial gap is a whole chunk ----------

  /** A finished segment of chunks that add at most `most` samples each. */
  ghost predicate Finished(seg: seq<Request>, final: Request, most: nat) {
    Open(seg) && Accepted(final) && final.last && Growing(Sizes(seg + [final]), most)
  }

  /** A finished segment is covered after less than one chunk. */
  ghost predicate GapUnder(s: Settings, seg: seq<Request>, final: Request, most: nat)
    requires Open(seg)
  {
    exists gap: nat :: gap < most && Covered(s, Runs(s, seg) + [final], gap, SizeOf(final))
  }

  /** Chunks that bring one more sample each. */
  function Trickle(key: Key, n: nat): seq<Request> {
    seq(n, i requires 0 <= i < n => Request(key, Some(i + 1), false, ""))
  }

  /** While a window is not full nothing is run. */
  lemma {:induction false} TrickleWaits(s: Settings, key: Key, n: nat)
    requires n as real < s.window * SAMPLE_RATE
    ensures Open(Trickle(key, n)) && Runs(s, Trickle(key, n)) == []
  {
    if n > 0 {
      TrickleWaits(s, key, n - 1);
      var r := Request(key, Some(n), false, "");
      assert Trickle(key, n) == Trickle(key, n - 1) + [r];
      RunsSnoc(s, Trickle(key, n - 1), r);
    }
  }

  function Ending(key: Key, size: nat): Request { Request(key, Some(size), true, "") }

  lemma TrickleGrows(key: Key, n: nat, most: nat)
    requires 0 < most && 0 < n
    ensures Finished(Trickle(key, n), Ending(key, n + most), most)
  {
    var sizes := Sizes(Trickle(key, n) + [Ending(key, n + most)]);
    assert forall i :: 0 <= i < n ==> sizes[i] == i + 1;
    assert sizes[n] == n + most;
  }

  lemma WindowShort(s: Settings, most: nat)
    requires Fits(s, most) && 0 < most && !Whole(s)
    ensures 0 < WindowSamples(s) && WindowSamples(s) as real < s.window * SAMPLE_RATE
  {
    assert most as real <= s.window * SAMPLE_RATE;
  }

  /** With a fractional window: as many samples as a window transcribes, then one last full chunk, miss that whole chunk. */
  lemma WholeChunkMissed(s: Settings, key: Key, most: nat)
    requires Fits(s, most) && 0 < most && !Whole(s)
    ensures var n := WindowSamples(s);
      Finished(Trickle(key, n), Ending(key, n + most), most) && !GapUnder(s, Trickle(key, n), Ending(key, n + most), most)
  {
    var n := WindowSamples(s);
    WindowShort(s, most);
    TrickleGrows(key, n, most);
    TrickleWaits(s, key, n);
    hide Fits, Whole, Trickle, Runs, Growing, Open;
    var final := Ending(key, n + most);
    assert !Hears(s, final, most - 1);
    hide Hears;
    assert [] + [final] == [final];
    forall gap: nat | gap < most ensures !Covered(s, [final], gap, SizeOf(final)) {
      assert !Transcribed(s, [final], most - 1);
    }
  }

  /** The initial gap is shorter than one chunk in every finished segment if and only if the window is a whole number of samples. */
  lemma GapUnderExactly(s: Settings, key: Key, most: nat)
    requires Fits(s, most) && 0 < most
    ensures Whole(s) <==> forall seg, final :: Finished(seg, final, most) ==> GapUnder(s, seg, final, most)
  {
    if Whole(s) {
      forall seg, final | Finished(seg, final, most) ensures GapUnder(s, seg, final, most) {
        var gap := SegmentCovered(s, seg, final, most);
        assert gap < most;
      }
    } else {
      WholeChunkMissed(s, key, most);
    }
  }

  // ---------- what is put out ----------

  /** The last text the recogniser made of these chunks that was not blank. */
  function LastSaid(runs: seq<Request>): string {
    if runs == [] then ""
    else if Strip(runs[|runs| - 1].text) != "" then Strip(runs[|runs| - 1].text)
    else LastSaid(runs[..|runs| - 1])
  }

  lemma SaidSnoc(runs: seq<Request>, r: Request)
    ensures LastSaid(runs + [r]) == if Strip(r.text) != "" then Strip(r.text) else LastSaid(runs)
  {
    assert (runs + [r])[..|runs|] == runs;
    hide Strip;
  }

  /** What is remembered for deduplication is the last non-blank text, put out or not. */
  lemma {:induction false} RemembersSaid(s: Settings, seg: seq<Request>)
    requires Open(seg)
    ensures Fold(s, seg).lastText == LastSaid(Runs(s, seg))
  {
    if seg != [] {
      var before, r := seg[..|seg| - 1], seg[|seg| - 1];
      RemembersSaid(s, before);
      assert seg == before + [r];
      RunsSnoc(s, before, r);
      SaidSnoc(Runs(s, before), r);
      hide ShouldRun, Strip, LastSaid, Runs;
    }
  }

  /**
    What the service answers to a chunk after any calls, told from the chunks of its stream it has run the recogniser
    on since the last final one: nothing, unless the chunk is long enough and far enough after those, or final; then
    the stripped text, unless it is the last one said and the chunk is not final.
  */
  lemma AnsweredExactly(s: Settings, reqs: seq<Request>, r: Request)
    ensures var runs := HeardSince(s, reqs, r.key);
      var size := SizeOf(r);
      var run := size > 0 && (r.last || (size as real / 16000.0 >= s.window && (size - LastSize(runs)) as real / 16000.0 >= s.step));
      var out := Reply(s, Run(s, reqs), r);
      && (run <==> Accepted(r) && ShouldRun(s, Of(Run(s, reqs), r.key), r))
      && out.partial == (if run && (r.last || Strip(r.text) != LastSaid(runs)) then Strip(r.text) else "")
      && (out.complete.Some? <==> run && r.last && Strip(r.text) != "")
      && (out.complete.Some? ==> out.complete.value == Strip(r.text))
  {
    var seg := Segment(reqs, r.key);
    SegmentDecides(s, reqs, r.key);
    HeardIsRuns(s, reqs, r.key);
    RunsStepApart(s, seg);
    RemembersSaid(s, seg);
    assert Duration(0) == 0.0;
    hide Strip, LastSaid, Fold, Runs, Run, HeardSince, Of, Open, Segment;
  }

  /** The partial texts that were not empty, as answered to a stream's chunks since its last final one in a run of the service. */
  function Partials(s: Settings, reqs: seq<Request>, key: Key): seq<string> {
    if reqs == [] then [] else
      var before, r := reqs[..|reqs| - 1], reqs[|reqs| - 1];
      if r.key != key || !Accepted(r) then Partials(s, before, key)
      else if r.last then []
      else
        var text := Reply(s, Run(s, before), r).partial;
        Partials(s, before, key) + if text != "" then [text] else []
  }

  ghost predicate NoRepeat(texts: seq<string>) { forall i :: 0 < i < |texts| ==> texts[i - 1] != texts[i] }

  function LastOf(texts: seq<string>): string { if texts == [] then "" else texts[|texts| - 1] }

  /** What a chunk adds to the texts put out and to the chunks heard; every other one leaves them or starts afresh. */
  lemma PartialsSnoc(s: Settings, reqs: seq<Request>, r: Request, key: Key)
    ensures var texts, runs := Partials(s, reqs + [r], key), HeardSince(s, reqs + [r], key);
      if r.key != key || !Accepted(r) then texts == Partials(s, reqs, key) && runs == HeardSince(s, reqs, key)
      else if r.last then texts == [] && runs == []
      else
        var text := Reply(s, Run(s, reqs), r).partial;
        && texts == Partials(s, reqs, key) + (if text != "" then [text] else [])
        && runs == HeardSince(s, reqs, key) + if ShouldRun(s, Of(Run(s, reqs), key), r) then [r] else []
  {
    assert (reqs + [r])[..|reqs|] == reqs;
    hide Strip, Run, Reply, ShouldRun, Of;
  }

  lemma OneMoreText(texts: seq<string>, text: string)
    requires NoRepeat(texts) && "" !in texts && text != "" && text != LastOf(texts)
    ensures NoRepeat(texts + [text]) && "" !in texts + [text] && LastOf(texts + [text]) == text
  {
  }

  /** No two consecutive partial texts of a segment are equal, whatever the streams between, and the last one is the last said. */
  lemma {:induction false} PartialsDiffer(s: Settings, reqs: seq<Request>, key: Key)
    ensures NoRepeat(Partials(s, reqs, key)) && "" !in Partials(s, reqs, key)
    ensures LastOf(Partials(s, reqs, key)) == LastSaid(HeardSince(s, reqs, key))
  {
    if reqs != [] {
      var before, r := reqs[..|reqs| - 1], reqs[|reqs| - 1];
      assert reqs == before + [r];
      PartialsDiffer(s, before, key);
      PartialsSnoc(s, before, r, key);
      var texts, runs := Partials(s, before, key), HeardSince(s, before, key);
      var text := Reply(s, Run(s, before), r).partial;
      assert NoRepeat([]) && LastOf([]) == LastSaid([]);
      hide Strip, LastSaid, Run, Reply, ShouldRun, Of, HeardSince, Partials, NoRepeat, LastOf;
      if r.key == key && Accepted(r) && !r.last {
        AnsweredExactly(s, before, r);
        SaidSnoc(runs, r);
        if text != "" {
          OneMoreText(texts, text);
        } else {
          assert texts + [] == texts && runs + [] == runs;
        }
      }
    }
  }

  /**
    The text a final chunk puts out repeats the last partial text put out if and only if the recogniser makes the
    same of it as of the last chunk it was run on that was not blank.
  */
  lemma FinalRepeats(s: Settings, reqs: seq<Request>, final: Request)
    requires Accepted(final) && final.last
    ensures var texts := Partials(s, reqs, final.key);
      var text := Reply(s, Run(s, reqs), final).partial;
      (texts != [] && text == texts[|texts| - 1]) <==>
        Strip(final.text) != "" && Strip(final.text) == LastSaid(HeardSince(s, reqs, final.key))
  {
    PartialsDiffer(s, reqs, final.key);
    AnsweredExactly(s, reqs, final);
    hide Strip, LastSaid, Run, Reply, ShouldRun, Of, HeardSince, Partials;
    var texts := Partials(s, reqs, final.key);
    if texts != [] { assert texts[|texts| - 1] in texts; }
  }

  /** Four seconds of speech, then the same four seconds once more as the final chunk. */
  lemma RepeatedEnding(key: Key)
    ensures var s, chunk, final := Settings(4.0, 2.0), Request(key, Some(64000), false, "da"), Request(key, Some(64000), true, "da");
      && Reply(s, Run(s, []), chunk) == Response("da", None)
      && Reply(s, Run(s, [chunk]), final) == Response("da", Some("da"))
  {
    var s, chunk := Settings(4.0, 2.0), Request(key, Some(64000), false, "da");
    assert Run(s, []) == map[] && [chunk][..0] == [];
    assert Duration(64000) == 4.0;
    assert !IsSpace("da"[0]) && !IsSpace("da"[1]);
    assert Strip("da") == "da";
    hide Strip;
  }
}
