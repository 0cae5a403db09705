// The emotion views of a whole stub report, stated over the rows, and how their totals are related.
module EmotionViews {
  import opened Outcomes
  import opened Tally
  import opened Sorting
  import opened Features
  import opened StubReport

  const MAX_BUCKETS: nat := 20
  const TOP_EMOTIONS: nat := 8

  datatype TimelineRow = TimelineRow(index: int, start: real, top: string, counts: Counts)

  datatype Report = Report(
    summary: Counts,
    timelines: map<string, seq<TimelineRow>>,
    tiles: seq<Tile>,
    rollup: Counts,
    distributionTop: seq<Ranked>)

  // ---------- what a report says about the rows ----------

  /** A table holds the exact count of every emotion that occurs at all. */
  ghost predicate Counted(rows: seq<Feature>, part: string -> (Feature -> bool), c: Counts) {
    Positive(c) && forall em :: Get(c, em, 0) == CountIf(rows, part(em))
  }

  function ByPid(p: string): string -> (Feature -> bool) { (em: string) => Emo(p, em) }

  function Overall(): string -> (Feature -> bool) { (em: string) => OfEmotion(em) }

  function InSlot(p: string, b: int, size: real): string -> (Feature -> bool)
    requires size > 0.0
  {
    (em: string) => EmoIn(p, b, em, size)
  }

  ghost predicate HasEmotion(rows: seq<Feature>, p: string) { exists f :: f in rows && EmotionsBy(p)(f) }

  ghost predicate SummaryOk(rows: seq<Feature>, summary: Counts) {
    && (forall p :: p in summary <==> HasEmotion(rows, p))
    && (forall p :: p in summary ==> summary[p] == CountIf(rows, EmotionsBy(p)))
  }

  ghost predicate TileOk(rows: seq<Feature>, t: Tile) {
    && t.events == CountIf(rows, EmotionsBy(t.pid))
    && (exists c: Counts :: Counted(rows, ByPid(t.pid), c) && IsTopK(c, 3, t.top3))
  }

  ghost predicate TilesOk(rows: seq<Feature>, tiles: seq<Tile>) {
    && Ascending(TilePids(tiles), TextLt)
    && (forall p :: p in TilePids(tiles) <==> Appeared(rows, p))
    && (forall t :: t in tiles ==> TileOk(rows, t))
  }

  /** The buckets in which a participant shows an emotion. */
  ghost function UsedBuckets(rows: seq<Feature>, p: string, size: real): set<int>
    requires size > 0.0
  {
    set f | f in rows && TimedBy(p)(f) :: Bucket(TimeOf(f), size)
  }

  predicate IntLt(a: int, b: int) { a < b }

  function Indices(out: seq<TimelineRow>): seq<int> {
    seq(|out|, i requires 0 <= i < |out| => out[i].index)
  }

  ghost predicate RowOk(rows: seq<Feature>, p: string, size: real, r: TimelineRow)
    requires size > 0.0
  {
    && Counted(rows, InSlot(p, r.index, size), r.counts)
    && r.start == r.index as real * size
    && r.top in r.counts && (forall em :: em in r.counts ==> r.counts[em] <= r.counts[r.top])
  }

  /** The last `MAX_BUCKETS` of a participant's buckets, in time order. */
  ghost predicate TimelineOk(rows: seq<Feature>, p: string, size: real, out: seq<TimelineRow>)
    requires size > 0.0
  {
    var used := UsedBuckets(rows, p, size);
    && Ascending(Indices(out), IntLt)
    && |out| == (if |used| < MAX_BUCKETS then |used| else MAX_BUCKETS)
    && (forall r :: r in out ==> r.index in used && RowOk(rows, p, size, r))
    && (forall b, r :: b in used && b !in Indices(out) && r in out ==> b < r.index)
  }

  ghost predicate TimelinesOk(rows: seq<Feature>, size: real, tl: map<string, seq<TimelineRow>>) {
    if size <= 0.0 then tl == map[] else
      && (forall p :: p in tl <==> UsedBuckets(rows, p, size) != {})
      && (forall p :: p in tl ==> TimelineOk(rows, p, size, tl[p]))
  }

  ghost predicate IsReport(rows: seq<Feature>, size: real, r: Report) {
    && SummaryOk(rows, r.summary)
    && TilesOk(rows, r.tiles)
    && Counted(rows, Overall(), r.rollup)
    && IsTopK(r.rollup, TOP_EMOTIONS, r.distributionTop)
    && TimelinesOk(rows, size, r.timelines)
  }

  // ---------- from the tables to the rows ----------

  /** A table of counts per emotion totals the rows it was counted from. */
  lemma CountedTotal(rows: seq<Feature>, part: string -> (Feature -> bool), whole: Feature -> bool, c: Counts)
    requires Counted(rows, part, c)
    requires forall f, em {:trigger part(em)(f)} :: part(em)(f) <==> whole(f) && EmotionOf(f) == em
    ensures MapTotal(c) == CountIf(rows, whole)
  {
    forall f | f in rows && whole(f) ensures EmotionOf(f) in c {
      assert part(EmotionOf(f))(f);
      CountPositive(rows, part(EmotionOf(f)));
      assert Get(c, EmotionOf(f), 0) > 0;
    }
    hide EmotionOf;
    TableTotal(rows, c, whole, EmotionOf, part);
  }

  lemma CountedOf(rows: seq<Feature>, e: map<string, Counts>, p: string)
    requires EmotionTable(rows, e)
    ensures Counted(rows, ByPid(p), EmotionsOf(e, p))
    ensures MapTotal(EmotionsOf(e, p)) == CountIf(rows, EmotionsBy(p))
  {
    hide Accepted, PidOf, EmotionOf, Positive;
    assert Positive(EmotionsOf(e, p));
    forall em ensures Get(EmotionsOf(e, p), em, 0) == CountIf(rows, ByPid(p)(em)) { assert ByPid(p)(em) == Emo(p, em); }
    CountedTotal(rows, ByPid(p), EmotionsBy(p), EmotionsOf(e, p));
  }

  lemma EmotionKeys(rows: seq<Feature>, e: map<string, Counts>, p: string)
    requires EmotionTable(rows, e)
    ensures p in e <==> HasEmotion(rows, p)
  {
    hide Accepted, PidOf, EmotionOf;
    CountedOf(rows, e, p);
    CountPositive(rows, EmotionsBy(p));
    if p in e {
      assert EmotionsOf(e, p) == e[p] != map[];
      assert Positive(EmotionsOf(e, p));
      MapTotalPositive(e[p]);
    } else {
      assert EmotionsOf(e, p) == map[];
    }
  }

  lemma SummaryIs(rows: seq<Feature>, e: map<string, Counts>, summary: Counts)
    requires EmotionTable(rows, e) && summary.Keys == e.Keys && forall p :: p in e ==> summary[p] == MapTotal(e[p])
    ensures SummaryOk(rows, summary)
  {
    hide EmotionTable, EmotionsBy;
    forall p ensures p in summary <==> HasEmotion(rows, p) { EmotionKeys(rows, e, p); }
    forall p | p in summary ensures summary[p] == CountIf(rows, EmotionsBy(p)) { CountedOf(rows, e, p); }
  }

  lemma TilesAre(rows: seq<Feature>, t: Tables, tiles: seq<Tile>)
    requires EmotionTable(rows, t.emotions) && ParticipantTable(rows, t.participants)
    requires Ascending(TilePids(tiles), TextLt) && forall p :: p in TilePids(tiles) <==> p in t.participants
    requires forall x :: x in tiles ==>
      x.events == MapTotal(EmotionsOf(t.emotions, x.pid)) && IsTopK(EmotionsOf(t.emotions, x.pid), 3, x.top3)
    ensures TilesOk(rows, tiles)
  {
    hide EmotionTable, IsTopK, Counted, EmotionsBy, EmotionsOf, Appeared;
    forall x | x in tiles ensures TileOk(rows, x) { CountedOf(rows, t.emotions, x.pid); }
  }

  lemma RollupIs(rows: seq<Feature>, e: map<string, Counts>, g: Counts)
    requires EmotionTable(rows, e) && RolledUp(e, e.Keys, g)
    ensures Counted(rows, Overall(), g)
  {
    hide Accepted, PidOf, EmotionOf;
    forall em ensures Get(g, em, 0) == CountIf(rows, Overall()(em)) && (em in g ==> g[em] > 0) {
      RollupCell(rows, e, g, em);
      assert Overall()(em) == OfEmotion(em);
    }
  }

  lemma RollupCell(rows: seq<Feature>, e: map<string, Counts>, g: Counts, em: string)
    requires EmotionTable(rows, e) && RolledUp(e, e.Keys, g)
    ensures Get(g, em, 0) == CountIf(rows, OfEmotion(em)) && (em in g ==> g[em] > 0)
  {
    hide Accepted, EmotionOf, PidOf;
    forall f | f in rows && OfEmotion(em)(f) ensures PidOf(f) in e.Keys {
      EmotionKeys(rows, e, PidOf(f));
      assert EmotionsBy(PidOf(f))(f);
    }
    var part := (p: string) => Emo(p, em);
    forall p | p in e ensures Across(e, em)(p) == CountIf(rows, part(p)) {
      assert Get(EmotionsOf(e, p), em, 0) == CountIf(rows, Emo(p, em));
    }
    CountByKey(rows, OfEmotion(em), PidOf, e.Keys, part, Across(e, em));
    if em in g {
      var p :| p in e.Keys && em in EmotionsOf(e, p);
      assert Positive(EmotionsOf(e, p));
      var zero := (q: string) => 0;
      SumZero(e.Keys, zero);
      SumAtMost(e.Keys, zero, Across(e, em));
      assert zero(p) != Across(e, em)(p);
    }
  }

  // ---------- timelines ----------

  lemma UsedIs(rows: seq<Feature>, size: real, b: map<string, map<int, Counts>>, p: string)
    requires size > 0.0 && BucketTable(rows, size, b)
    ensures BucketsOf(b, p).Keys == UsedBuckets(rows, p, size)
    ensures forall i :: i in BucketsOf(b, p) ==> BucketsOf(b, p)[i] != map[] && Counted(rows, InSlot(p, i, size), BucketsOf(b, p)[i])
  {
    hide Accepted, PidOf, EmotionOf, Bucket, TimeOf, Timed;
    forall i ensures Counted(rows, InSlot(p, i, size), BucketOf(b, p, i)) {
      assert Positive(BucketOf(b, p, i));
      forall em ensures Get(BucketOf(b, p, i), em, 0) == CountIf(rows, InSlot(p, i, size)(em)) {
        assert InSlot(p, i, size)(em) == EmoIn(p, i, em, size);
      }
    }
    forall i ensures i in BucketsOf(b, p) <==> i in UsedBuckets(rows, p, size) { UsedCell(rows, size, b, p, i); }
  }

  lemma UsedCell(rows: seq<Feature>, size: real, b: map<string, map<int, Counts>>, p: string, i: int)
    requires size > 0.0 && BucketTable(rows, size, b)
    ensures i in BucketsOf(b, p) <==> i in UsedBuckets(rows, p, size)
  {
    hide Accepted, PidOf, EmotionOf, Bucket, TimeOf, Timed;
    if i in BucketsOf(b, p) {
      var c := BucketsOf(b, p)[i];
      assert c == BucketOf(b, p, i) && c != map[] && Positive(c);
      var em :| em in c;
      assert Get(BucketOf(b, p, i), em, 0) == CountIf(rows, EmoIn(p, i, em, size));
      CountPositive(rows, EmoIn(p, i, em, size));
      var f :| f in rows && EmoIn(p, i, em, size)(f);
      assert TimedBy(p)(f);
    }
    if i in UsedBuckets(rows, p, size) {
      var f :| f in rows && TimedBy(p)(f) && Bucket(TimeOf(f), size) == i;
      CountPositive(rows, EmoIn(p, i, EmotionOf(f), size));
      assert Get(BucketOf(b, p, i), EmotionOf(f), 0) > 0;
    }
  }

  lemma IntOrder()
    ensures StrictOrder(IntLt) && forall a, b :: IntLt(a, b) <==> a < b
  {
  }

  method Timeline(bs: map<int, Counts>, size: real, ghost rows: seq<Feature>, ghost p: string) returns (out: seq<TimelineRow>)
    requires size > 0.0 && bs.Keys == UsedBuckets(rows, p, size)
    requires forall i :: i in bs ==> bs[i] != map[] && Counted(rows, InSlot(p, i, size), bs[i])
    ensures TimelineOk(rows, p, size, out)
  {
    hide *;
    IntOrder();
    var keys := SortSet(bs.Keys, IntLt);
    out := [];
    for i := 0 to |keys|
      invariant |out| == i && forall j :: 0 <= j < i ==> out[j].index == keys[j] && RowOk(rows, p, size, out[j])
    {
      var counts := bs[keys[i]];
      var ranking := TopKCounts(counts, 1);
      MostFrequent(counts, ranking);
      var row := TimelineRow(keys[i], keys[i] as real * size, ranking[0].key, counts);
      RowFilled(rows, p, size, row);
      out := out + [row];
    }
    LastBuckets(rows, p, size, keys, out);
    if |out| > MAX_BUCKETS { out := out[|out| - MAX_BUCKETS..]; }
  }

  lemma RowFilled(rows: seq<Feature>, p: string, size: real, r: TimelineRow)
    requires size > 0.0 && Counted(rows, InSlot(p, r.index, size), r.counts) && r.start == r.index as real * size
    requires r.top in r.counts && forall em :: em in r.counts ==> r.counts[em] <= r.counts[r.top]
    ensures RowOk(rows, p, size, r)
  {
  }

  lemma MostFrequent(c: Counts, ranking: seq<Ranked>)
    requires c != map[] && IsTopK(c, 1, ranking)
    ensures |ranking| == 1 && ranking[0].key in c && forall em :: em in c ==> c[em] <= c[ranking[0].key]
  {
    assert |c.Keys| != 0;
    assert ranking[0] in ranking;
    forall em | em in c ensures c[em] <= c[ranking[0].key] {
      if em in RankedKeys(ranking) { assert em == ranking[0].key; }
    }
  }

  lemma LastBuckets(rows: seq<Feature>, p: string, size: real, keys: seq<int>, all: seq<TimelineRow>)
    requires size > 0.0 && Ascending(keys, IntLt) && forall i :: i in UsedBuckets(rows, p, size) <==> i in keys
    requires |all| == |keys| && forall j :: 0 <= j < |keys| ==> all[j].index == keys[j] && RowOk(rows, p, size, all[j])
    ensures TimelineOk(rows, p, size, if |all| > MAX_BUCKETS then all[|all| - MAX_BUCKETS..] else all)
  {
    hide RowOk, UsedBuckets, IntLt;
    var n := if |all| > MAX_BUCKETS then |all| - MAX_BUCKETS else 0;
    var out := all[n..];
    var used := UsedBuckets(rows, p, size);
    IntOrder();
    assert forall i :: i in used ==> i in keys;
    assert forall j :: 0 <= j < |keys| ==> keys[j] in keys;
    AscendingSize(keys, IntLt, used);
    AscendingSuffix(keys, IntLt, n, used);
    assert Indices(out) == keys[n..];
    forall r | r in out ensures r.index in used && RowOk(rows, p, size, r) {
      var j :| n <= j < |all| && all[j] == r;
      assert keys[j] in keys;
    }
    forall b, r | b in used && b !in Indices(out) && r in out ensures b < r.index {
      var j :| 0 <= j < |out| && out[j] == r;
      assert Indices(out)[j] == r.index;
      assert IntLt(b, r.index);
    }
  }

  /** What a suffix of an ascending sequence leaves out is below everything it keeps. */
  lemma AscendingSuffix<T(!new)>(s: seq<T>, lt: (T, T) -> bool, n: nat, elems: set<T>)
    requires Ascending(s, lt) && n <= |s| && forall x :: x in elems ==> x in s
    ensures Ascending(s[n..], lt)
    ensures forall x, y :: x in elems && x !in s[n..] && y in s[n..] ==> lt(x, y)
  {
    forall x, y | x in elems && x !in s[n..] && y in s[n..] ensures lt(x, y) {
      var i :| 0 <= i < |s| && s[i] == x;
      var j :| n <= j < |s| && s[j] == y;
      assert forall k :: n <= k < |s| ==> s[k] in s[n..];
    }
  }

  lemma AscendingSize<T(!new)>(s: seq<T>, lt: (T, T) -> bool, elems: set<T>)
    requires StrictOrder(lt) && Ascending(s, lt)
    requires (forall i :: 0 <= i < |s| ==> s[i] in elems) && forall x :: x in elems ==> x in s
    ensures |s| == |elems|
  {
    AscendingLength(s, lt);
    assert (set x | x in s) == elems;
  }

  method Timelines(b: map<string, map<int, Counts>>, size: real, ghost rows: seq<Feature>) returns (tl: map<string, seq<TimelineRow>>)
    requires BucketTable(rows, size, b)
    ensures TimelinesOk(rows, size, tl)
  {
    tl := map[];
    hide *;
    if size > 0.0 {
      var todo := b.Keys;
      while todo != {}
        invariant todo <= b.Keys && tl.Keys == b.Keys - todo
        invariant forall p :: p in tl ==> TimelineOk(rows, p, size, tl[p])
        decreases todo
      {
        var p :| p in todo;
        UsedIs(rows, size, b, p);
        Looked(b, p);
        var out := Timeline(b[p], size, rows, p);
        tl := tl[p := out];
        todo := todo - {p};
      }
    }
    TimelinesAre(b, size, rows, tl);
  }

  lemma Looked(b: map<string, map<int, Counts>>, p: string)
    requires p in b
    ensures BucketsOf(b, p) == b[p]
  {
  }

  lemma TimelinesAre(b: map<string, map<int, Counts>>, size: real, rows: seq<Feature>, tl: map<string, seq<TimelineRow>>)
    requires BucketTable(rows, size, b)
    requires if size > 0.0 then tl.Keys == b.Keys && forall p :: p in tl ==> TimelineOk(rows, p, size, tl[p]) else tl == map[]
    ensures TimelinesOk(rows, size, tl)
  {
    hide TimelineOk, UsedBuckets;
    if size > 0.0 {
      forall p ensures p in b <==> UsedBuckets(rows, p, size) != {} {
        UsedIs(rows, size, b, p);
        if p in b { assert b[p] != map[]; }
      }
    }
  }

  /** The emotion part of `build_stub_report`. */
  method BuildStubReport(features: seq<Feature>, size: real) returns (r: Report)
    ensures IsReport(features, size, r)
  {
    hide *;
    var t := Tabulate(features, size);
    var summary := EmotionSummary(t.emotions);
    SummaryIs(features, t.emotions, summary);
    var timelines := Timelines(t.buckets, size, features);
    var tiles := Tiles(t.participants, t.emotions);
    TilesAre(features, t, tiles);
    var rollup := Rollup(t.emotions);
    RollupIs(features, t.emotions, rollup);
    var top := TopKCounts(rollup, TOP_EMOTIONS);
    r := Report(summary, timelines, tiles, rollup, top);
    Assembled(features, size, r);
  }

  lemma Assembled(rows: seq<Feature>, size: real, r: Report)
    requires SummaryOk(rows, r.summary) && TilesOk(rows, r.tiles) && Counted(rows, Overall(), r.rollup)
    requires IsTopK(r.rollup, TOP_EMOTIONS, r.distributionTop) && TimelinesOk(rows, size, r.timelines)
    ensures IsReport(rows, size, r)
  {
  }
}
