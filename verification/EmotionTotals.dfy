// Conservation: every view of a report totals the same accepted face rows, and when the bounded views lose some.
module EmotionTotals {
  import opened Outcomes
  import opened Tally
  import opened Sorting
  import opened Features
  import opened StubReport
  import opened EmotionViews

  ghost function TilesTotal(tiles: seq<Tile>): int {
    if tiles == [] then 0 else TilesTotal(tiles[..|tiles| - 1]) + tiles[|tiles| - 1].events
  }

  ghost function RowsTotal(out: seq<TimelineRow>): int {
    if out == [] then 0 else RowsTotal(out[..|out| - 1]) + MapTotal(out[|out| - 1].counts)
  }

  ghost function RowsOf(tl: map<string, seq<TimelineRow>>): string -> int {
    (p: string) => if p in tl then RowsTotal(tl[p]) else 0
  }

  ghost function TimelinesTotal(tl: map<string, seq<TimelineRow>>): int { SumOver(tl.Keys, RowsOf(tl)) }

  ghost function Elements<T>(s: seq<T>): set<T> { set x | x in s }

  function ByParticipant(): string -> (Feature -> bool) { (p: string) => EmotionsBy(p) }

  lemma SummaryTotal(rows: seq<Feature>, summary: Counts)
    requires SummaryOk(rows, summary)
    ensures MapTotal(summary) == CountIf(rows, AnyEmotion())
  {
    hide Accepted, PidOf;
    forall f | f in rows && AnyEmotion()(f) ensures PidOf(f) in summary {
      assert EmotionsBy(PidOf(f))(f);
    }
    TableTotal(rows, summary, AnyEmotion(), PidOf, ByParticipant());
  }

  ghost function SeqTotal<K>(ks: seq<K>, f: K -> int): int {
    if ks == [] then 0 else SeqTotal(ks[..|ks| - 1], f) + f(ks[|ks| - 1])
  }

  /** Adding up along an ascending list is summing over the set of its elements. */
  lemma {:induction false} AscendingSum<K(!new)>(ks: seq<K>, lt: (K, K) -> bool, f: K -> int)
    requires StrictOrder(lt) && Ascending(ks, lt)
    ensures SeqTotal(ks, f) == SumOver(Elements(ks), f)
  {
    if ks != [] {
      var n := |ks| - 1;
      AscendingSum(ks[..n], lt, f);
      assert ks == ks[..n] + [ks[n]];
      assert Elements(ks) - {ks[n]} == Elements(ks[..n]);
      SumTake(Elements(ks), f, ks[n]);
    } else {
      assert Elements(ks) == {};
    }
  }

  lemma {:induction false} TilesSum(tiles: seq<Tile>, f: string -> int)
    requires forall t :: t in tiles ==> t.events == f(t.pid)
    ensures TilesTotal(tiles) == SeqTotal(TilePids(tiles), f)
  {
    if tiles != [] {
      var n := |tiles| - 1;
      TilesSum(tiles[..n], f);
      assert tiles[n] in tiles;
      assert TilePids(tiles)[..n] == TilePids(tiles[..n]);
    }
  }

  lemma TilesConserve(rows: seq<Feature>, tiles: seq<Tile>)
    requires TilesOk(rows, tiles)
    ensures TilesTotal(tiles) == CountIf(rows, AnyEmotion())
  {
    hide Accepted, PidOf, TextLt;
    var f := (p: string) => CountIf(rows, EmotionsBy(p)) as int;
    assert forall t :: t in tiles ==> TileOk(rows, t) && t.events == f(t.pid);
    TilesSum(tiles, f);
    TextOrder();
    AscendingSum(TilePids(tiles), TextLt, f);
    forall x | x in rows && AnyEmotion()(x) ensures PidOf(x) in Elements(TilePids(tiles)) {
      assert Appears(x);
    }
    CountByKey(rows, AnyEmotion(), PidOf, Elements(TilePids(tiles)), ByParticipant(), f);
  }

  lemma RollupTotal(rows: seq<Feature>, g: Counts)
    requires Counted(rows, Overall(), g)
    ensures MapTotal(g) == CountIf(rows, AnyEmotion())
  {
    hide Accepted, EmotionOf;
    CountedTotal(rows, Overall(), AnyEmotion(), g);
  }

  /** The emotions that occur. */
  ghost function EmotionsSeen(rows: seq<Feature>): set<string> {
    set f | f in rows && Accepted(f) :: EmotionOf(f)
  }

  lemma SeenIs(rows: seq<Feature>, g: Counts)
    requires Counted(rows, Overall(), g)
    ensures g.Keys == EmotionsSeen(rows)
  {
    hide Accepted, EmotionOf;
    forall em ensures em in g <==> em in EmotionsSeen(rows) {
      assert Overall()(em) == OfEmotion(em) && Get(g, em, 0) == CountIf(rows, Overall()(em));
      CountPositive(rows, OfEmotion(em));
      if em in g { var f :| f in rows && OfEmotion(em)(f); }
      if em in EmotionsSeen(rows) { var f :| f in rows && Accepted(f) && EmotionOf(f) == em; assert OfEmotion(em)(f); }
    }
  }

  // ---------- timelines ----------

  lemma {:induction false} RowsSum(out: seq<TimelineRow>, f: int -> int)
    requires forall r :: r in out ==> MapTotal(r.counts) == f(r.index)
    ensures RowsTotal(out) == SeqTotal(Indices(out), f)
  {
    if out != [] {
      var n := |out| - 1;
      RowsSum(out[..n], f);
      assert out[n] in out;
      assert Indices(out)[..n] == Indices(out[..n]);
    }
  }

  function BySlot(p: string, size: real): int -> (Feature -> bool)
    requires size > 0.0
  {
    (b: int) => TimedIn(p, b, size)
  }

  lemma SlotTotal(rows: seq<Feature>, p: string, size: real, r: TimelineRow)
    requires size > 0.0 && RowOk(rows, p, size, r)
    ensures MapTotal(r.counts) == CountIf(rows, TimedIn(p, r.index, size))
  {
    hide Accepted, PidOf, EmotionOf, Bucket, TimeOf, Timed;
    CountedTotal(rows, InSlot(p, r.index, size), TimedIn(p, r.index, size), r.counts);
  }

  lemma SlotsTotal(rows: seq<Feature>, p: string, size: real, f: int -> int)
    requires size > 0.0 && forall b :: f(b) == CountIf(rows, TimedIn(p, b, size))
    ensures SumOver(UsedBuckets(rows, p, size), f) == CountIf(rows, TimedBy(p))
    ensures forall b :: b in UsedBuckets(rows, p, size) ==> f(b) > 0
  {
    hide Accepted, PidOf, Bucket, TimeOf, Timed;
    var key := (x: Feature) => Bucket(TimeOf(x), size);
    CountByKey(rows, TimedBy(p), key, UsedBuckets(rows, p, size), BySlot(p, size), f);
    forall b | b in UsedBuckets(rows, p, size) ensures f(b) > 0 {
      var x :| x in rows && TimedBy(p)(x) && Bucket(TimeOf(x), size) == b;
      assert TimedIn(p, b, size)(x);
      CountPositive(rows, TimedIn(p, b, size));
    }
  }

  /** A participant's timeline misses nothing exactly when no bucket was cut. */
  lemma TimelineTotal(rows: seq<Feature>, p: string, size: real, out: seq<TimelineRow>)
    requires size > 0.0 && TimelineOk(rows, p, size, out)
    ensures RowsTotal(out) <= CountIf(rows, TimedBy(p))
    ensures RowsTotal(out) == CountIf(rows, TimedBy(p)) <==> |UsedBuckets(rows, p, size)| <= 20
  {
    hide RowOk, TimedIn, IntLt;
    var used := UsedBuckets(rows, p, size);
    var f := (b: int) => CountIf(rows, TimedIn(p, b, size)) as int;
    forall r | r in out ensures MapTotal(r.counts) == f(r.index) { SlotTotal(rows, p, size, r); }
    RowsSum(out, f);
    IntOrder();
    AscendingSum(Indices(out), IntLt, f);
    SlotsTotal(rows, p, size, f);
    hide UsedBuckets;
    var kept := Elements(Indices(out));
    IndicesWithin(out, used);
    SumPart(used, kept, f);
    if |used| <= MAX_BUCKETS { SubsetSameSize(kept, used); }
  }

  lemma IndicesWithin(out: seq<TimelineRow>, used: set<int>)
    requires Ascending(Indices(out), IntLt) && forall r :: r in out ==> r.index in used
    ensures Elements(Indices(out)) <= used && |Elements(Indices(out))| == |out|
  {
    IntOrder();
    AscendingLength(Indices(out), IntLt);
    forall b | b in Elements(Indices(out)) ensures b in used {
      var i :| 0 <= i < |out| && out[i].index == b;
      assert out[i] in out;
    }
  }

  predicate AllTimed(rows: seq<Feature>) { forall f :: f in rows && Accepted(f) ==> Timed(f) }

  ghost predicate Uncut(rows: seq<Feature>, size: real)
    requires size > 0.0
  {
    forall p :: |UsedBuckets(rows, p, size)| <= 20
  }

  function TimedPart(): string -> (Feature -> bool) { (p: string) => TimedBy(p) }

  lemma TimelinesSum(rows: seq<Feature>, size: real, tl: map<string, seq<TimelineRow>>)
    requires size > 0.0 && TimelinesOk(rows, size, tl)
    ensures TimelinesTotal(tl) <= CountIf(rows, TimedEmotion())
    ensures TimelinesTotal(tl) == CountIf(rows, TimedEmotion()) <==> Uncut(rows, size)
  {
    hide Accepted, PidOf, Timed, TimelineOk, RowsTotal;
    var f := (p: string) => CountIf(rows, TimedBy(p)) as int;
    forall p | p in tl.Keys
      ensures RowsOf(tl)(p) <= f(p) && (RowsOf(tl)(p) == f(p) <==> |UsedBuckets(rows, p, size)| <= 20)
    {
      TimelineTotal(rows, p, size, tl[p]);
    }
    SumAtMost(tl.Keys, RowsOf(tl), f);
    forall x | x in rows && TimedEmotion()(x) ensures PidOf(x) in tl.Keys {
      assert Bucket(TimeOf(x), size) in UsedBuckets(rows, PidOf(x), size);
    }
    CountByKey(rows, TimedEmotion(), PidOf, tl.Keys, TimedPart(), f);
    assert forall p :: p !in tl ==> |UsedBuckets(rows, p, size)| == 0;
  }

  /** The timelines hold every accepted face row exactly when each has a numeric time and no participant's timeline is cut. */
  lemma TimelinesConserve(rows: seq<Feature>, size: real, tl: map<string, seq<TimelineRow>>)
    requires TimelinesOk(rows, size, tl)
    ensures TimelinesTotal(tl) <= CountIf(rows, AnyEmotion())
    ensures TimelinesTotal(tl) == CountIf(rows, AnyEmotion())
      <==> if size > 0.0 then AllTimed(rows) && Uncut(rows, size) else EmotionsSeen(rows) == {}
  {
    hide Accepted, Timed, EmotionOf;
    if size > 0.0 {
      hide TimelinesOk, TimelinesTotal, Uncut;
      TimelinesSum(rows, size, tl);
      CountPart(rows, TimedEmotion(), AnyEmotion());
    } else {
      CountPositive(rows, AnyEmotion());
      NobodySeen(rows);
    }
  }

  lemma NobodySeen(rows: seq<Feature>)
    ensures EmotionsSeen(rows) == {} <==> !exists f :: f in rows && AnyEmotion()(f)
  {
    hide Accepted, EmotionOf;
    if f :| f in rows && AnyEmotion()(f) { assert EmotionOf(f) in EmotionsSeen(rows); }
    if em :| em in EmotionsSeen(rows) { var f :| f in rows && Accepted(f) && EmotionOf(f) == em; assert AnyEmotion()(f); }
  }

  /** All the unbounded views of a report total the accepted face rows; the top list and the timelines do exactly when uncut. */
  lemma EmotionsConserved(rows: seq<Feature>, size: real, r: Report)
    requires IsReport(rows, size, r)
    ensures MapTotal(r.summary) == TilesTotal(r.tiles) == MapTotal(r.rollup) == CountIf(rows, AnyEmotion())
    ensures RankedTotal(r.distributionTop) <= CountIf(rows, AnyEmotion())
    ensures RankedTotal(r.distributionTop) == CountIf(rows, AnyEmotion()) <==> |EmotionsSeen(rows)| <= 8
    ensures TimelinesTotal(r.timelines) <= CountIf(rows, AnyEmotion())
    ensures TimelinesTotal(r.timelines) == CountIf(rows, AnyEmotion())
      <==> if size > 0.0 then AllTimed(rows) && Uncut(rows, size) else EmotionsSeen(rows) == {}
  {
    SummaryTotal(rows, r.summary);
    TilesConserve(rows, r.tiles);
    RollupTotal(rows, r.rollup);
    SeenIs(rows, r.rollup);
    assert |r.rollup| == |r.rollup.Keys|;
    TopKTotal(r.rollup, TOP_EMOTIONS, r.distributionTop);
    TimelinesConserve(rows, size, r.timelines);
  }
}
