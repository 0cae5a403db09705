// The stub report's aggregation: one pass over the feature rows fills nested dictionaries, from which each view is built.
module StubReport {
  import opened Outcomes
  import opened Tally
  import opened Sorting
  import opened Features

  type Counts = map<string, nat>

  /** The dictionaries the one pass over the rows fills. `participants` holds audio chunk counts. */
  datatype Tables = Tables(participants: Counts, emotions: map<string, Counts>, buckets: map<string, map<int, Counts>>)

  datatype Ranked = Ranked(key: string, events: nat)

  datatype Tile = Tile(pid: string, events: int, top3: seq<Ranked>)

  // ---------- reading a row ----------

  function FaceOf(f: Feature): FaceFeatures {
    if f.face.Some? then f.face.value else if f.payloadFace.Some? then f.payloadFace.value else FaceFeatures(false, Absent)
  }

  /** A face row that contributes an emotion. */
  predicate Accepted(f: Feature) {
    KindOf(f) == Some("face") && !FaceOf(f).detectedFalse && FaceOf(f).dominant.Text? && Strip(FaceOf(f).dominant.text) != ""
  }

  function EmotionOf(f: Feature): string {
    if FaceOf(f).dominant.Text? then FaceOf(f).dominant.text else ""
  }

  predicate Timed(f: Feature) { f.ts.Number? }

  /** A row that makes its participant appear: audio, an accepted emotion, or a transcript that is not blank. */
  predicate Appears(f: Feature) {
    KindOf(f) == Some("audio") || Accepted(f) || (KindOf(f) == Some("text") && f.transcript.Text? && Strip(f.transcript.text) != "")
  }

  /** The dictionary of face features a row carries: the one in its data, or else the one in its payload. */
  ghost predicate Carries(f: Feature, ff: FaceFeatures) {
    f.face == Some(ff) || (f.face.None? && f.payloadFace == Some(ff))
  }

  /**
    A row counts as an emotion if and only if its kind is face, and it carries face features that do not say that no
    face was detected and name a dominant emotion that is a text and not blank; that text, unstripped, is the emotion.
    It is timed if and only if its timestamp is a number.
  */
  lemma AcceptedExactly(f: Feature)
    ensures Accepted(f) <==>
      f.kind == Text("face") && exists ff :: Carries(f, ff) && !ff.detectedFalse && ff.dominant.Text? && Speaks(ff.dominant.text)
    ensures forall ff :: Accepted(f) && Carries(f, ff) ==> ff.dominant == Text(EmotionOf(f))
    ensures var said := f.kind == Text("text") && f.transcript.Text? && Speaks(f.transcript.text);
      Appears(f) <==> f.kind == Text("audio") || Accepted(f) || said
    ensures Timed(f) <==> f.ts.Number?
  {
    var ff := FaceOf(f);
    if ff.dominant.Text? { StripBlank(ff.dominant.text); }
    if f.transcript.Text? { StripBlank(f.transcript.text); }
    hide Strip, Speaks;
    if f.face.Some? || f.payloadFace.Some? { assert Carries(f, ff); }
  }

  // ---------- what the tables count ----------

  function AnyEmotion(): Feature -> bool { (f: Feature) => Accepted(f) }

  function EmotionsBy(p: string): Feature -> bool { (f: Feature) => Accepted(f) && PidOf(f) == p }

  function OfEmotion(em: string): Feature -> bool { (f: Feature) => Accepted(f) && EmotionOf(f) == em }

  function Emo(p: string, em: string): Feature -> bool { (f: Feature) => Accepted(f) && PidOf(f) == p && EmotionOf(f) == em }

  function TimedEmotion(): Feature -> bool { (f: Feature) => Accepted(f) && Timed(f) }

  function TimedBy(p: string): Feature -> bool { (f: Feature) => Accepted(f) && Timed(f) && PidOf(f) == p }

  function TimedIn(p: string, b: int, size: real): Feature -> bool
    requires size > 0.0
  {
    (f: Feature) => Accepted(f) && Timed(f) && PidOf(f) == p && Bucket(TimeOf(f), size) == b
  }

  function EmoIn(p: string, b: int, em: string, size: real): Feature -> bool
    requires size > 0.0
  {
    (f: Feature) => Accepted(f) && Timed(f) && PidOf(f) == p && Bucket(TimeOf(f), size) == b && EmotionOf(f) == em
  }

  function AudioBy(p: string): Feature -> bool { (f: Feature) => KindOf(f) == Some("audio") && PidOf(f) == p }

  predicate Positive(c: Counts) { forall k :: k in c ==> c[k] > 0 }

  function EmotionsOf(e: map<string, Counts>, p: string): Counts { Get(e, p, map[]) }

  function BucketsOf(b: map<string, map<int, Counts>>, p: string): map<int, Counts> { Get(b, p, map[]) }

  function BucketOf(b: map<string, map<int, Counts>>, p: string, i: int): Counts { Get(BucketsOf(b, p), i, map[]) }

  ghost predicate EmotionTable(rows: seq<Feature>, e: map<string, Counts>) {
    && (forall p :: p in e ==> e[p] != map[])
    && (forall p :: Positive(EmotionsOf(e, p)))
    && (forall p, em :: Get(EmotionsOf(e, p), em, 0) == CountIf(rows, Emo(p, em)))
  }

  ghost predicate BucketTable(rows: seq<Feature>, size: real, b: map<string, map<int, Counts>>) {
    if size <= 0.0 then b == map[] else
      && (forall p :: p in b ==> b[p] != map[])
      && (forall p, i :: i in BucketsOf(b, p) ==> BucketsOf(b, p)[i] != map[])
      && (forall p, i :: Positive(BucketOf(b, p, i)))
      && (forall p, i, em :: Get(BucketOf(b, p, i), em, 0) == CountIf(rows, EmoIn(p, i, em, size)))
  }

  ghost predicate Appeared(rows: seq<Feature>, p: string) { exists f :: f in rows && PidOf(f) == p && Appears(f) }

  ghost predicate ParticipantTable(rows: seq<Feature>, ps: Counts) {
    && (forall p :: p in ps <==> Appeared(rows, p))
    && (forall p :: p in ps ==> ps[p] == CountIf(rows, AudioBy(p)))
  }

  // ---------- one more row ----------

  function Bump(c: Counts, k: string): Counts { c[k := Get(c, k, 0) + 1] }

  lemma BumpCell(c: Counts, k: string, em: string)
    ensures Get(Bump(c, k), em, 0) == Get(c, em, 0) + if em == k then 1 else 0
    ensures Bump(c, k) != map[] && (Positive(c) ==> Positive(Bump(c, k)))
  {
    assert k in Bump(c, k);
  }

  lemma EmotionSnoc(rows: seq<Feature>, f: Feature, e: map<string, Counts>)
    requires EmotionTable(rows, e)
    ensures EmotionTable(rows + [f], if Accepted(f) then e[PidOf(f) := Bump(EmotionsOf(e, PidOf(f)), EmotionOf(f))] else e)
  {
    var p0, em0 := PidOf(f), EmotionOf(f);
    var e' := if Accepted(f) then e[p0 := Bump(EmotionsOf(e, p0), em0)] else e;
    hide Accepted, PidOf, EmotionOf;
    forall p, em ensures Get(EmotionsOf(e', p), em, 0) == CountIf(rows + [f], Emo(p, em)) {
      CountSnoc(rows, f, Emo(p, em));
      assert Get(EmotionsOf(e, p), em, 0) == CountIf(rows, Emo(p, em));
      BumpCell(EmotionsOf(e, p), em0, em);
      hide Bump;
    }
    forall p ensures Positive(EmotionsOf(e', p)) && (p in e' ==> e'[p] != map[]) {
      assert Positive(EmotionsOf(e, p));
      BumpCell(EmotionsOf(e, p), em0, em0);
      hide Bump, Positive;
    }
    hide Bump, Positive, Emo;
  }

  /** One cell of the bucket tables after one more row. */
  lemma BucketCell(rows: seq<Feature>, f: Feature, size: real, b: map<string, map<int, Counts>>, q: string, j: int)
    requires size > 0.0 && BucketTable(rows, size, b)
    ensures var p, i := PidOf(f), Bucket(TimeOf(f), size);
      var b' := if Accepted(f) && Timed(f) then b[p := BucketsOf(b, p)[i := Bump(BucketOf(b, p, i), EmotionOf(f))]] else b;
      && (forall em :: Get(BucketOf(b', q, j), em, 0) == CountIf(rows + [f], EmoIn(q, j, em, size)))
      && Positive(BucketOf(b', q, j)) && (j in BucketsOf(b', q) ==> BucketsOf(b', q)[j] != map[])
  {
    hide Accepted, PidOf, EmotionOf, Timed, Bucket, TimeOf;
    assert Positive(BucketOf(b, q, j)) && (j in BucketsOf(b, q) ==> BucketsOf(b, q)[j] != map[]);
    forall em
      ensures Get(BucketOf(b, q, j), em, 0) == CountIf(rows, EmoIn(q, j, em, size))
      ensures CountIf(rows + [f], EmoIn(q, j, em, size)) == CountIf(rows, EmoIn(q, j, em, size)) + if EmoIn(q, j, em, size)(f) then 1 else 0
    {
      CountSnoc(rows, f, EmoIn(q, j, em, size));
    }
    hide BucketTable, CountIf;
  }

  lemma BucketSnoc(rows: seq<Feature>, f: Feature, size: real, b: map<string, map<int, Counts>>)
    requires size > 0.0 && BucketTable(rows, size, b)
    ensures var p, i := PidOf(f), Bucket(TimeOf(f), size);
      BucketTable(rows + [f], size,
        if Accepted(f) && Timed(f) then b[p := BucketsOf(b, p)[i := Bump(BucketOf(b, p, i), EmotionOf(f))]] else b)
  {
    var p, i := PidOf(f), Bucket(TimeOf(f), size);
    var b' := if Accepted(f) && Timed(f) then b[p := BucketsOf(b, p)[i := Bump(BucketOf(b, p, i), EmotionOf(f))]] else b;
    assert forall q :: q in b' ==> b'[q] != map[];
    hide Accepted, PidOf, EmotionOf, Timed, Bucket, TimeOf, BucketsOf, BucketOf, Positive, Bump, EmoIn;
    forall q, j
      ensures forall em :: Get(BucketOf(b', q, j), em, 0) == CountIf(rows + [f], EmoIn(q, j, em, size))
      ensures Positive(BucketOf(b', q, j)) && (j in BucketsOf(b', q) ==> BucketsOf(b', q)[j] != map[])
    {
      BucketCell(rows, f, size, b, q, j);
    }
  }

  lemma AppearedSnoc(rows: seq<Feature>, f: Feature, p: string)
    ensures Appeared(rows + [f], p) <==> Appeared(rows, p) || (PidOf(f) == p && Appears(f))
  {
    hide PidOf, Appears;
    assert f in rows + [f];
    if Appeared(rows, p) {
      var g :| g in rows && PidOf(g) == p && Appears(g);
      assert g in rows + [f];
    }
  }

  lemma NoAudioYet(rows: seq<Feature>, p: string)
    requires !Appeared(rows, p)
    ensures CountIf(rows, AudioBy(p)) == 0
  {
    hide PidOf, Accepted;
    CountPositive(rows, AudioBy(p));
    if f :| f in rows && AudioBy(p)(f) { AudioAppears(f); }
  }

  lemma ParticipantSnoc(rows: seq<Feature>, f: Feature, ps: Counts)
    requires ParticipantTable(rows, ps)
    ensures ParticipantTable(rows + [f],
      if Appears(f) then ps[PidOf(f) := Get(ps, PidOf(f), 0) + if KindOf(f) == Some("audio") then 1 else 0] else ps)
  {
    if KindOf(f) == Some("audio") { AudioAppears(f); }
    if PidOf(f) !in ps { NoAudioYet(rows, PidOf(f)); }
    hide PidOf, Appears, KindOf, Appeared;
    forall p
      ensures CountIf(rows + [f], AudioBy(p)) == CountIf(rows, AudioBy(p)) + if AudioBy(p)(f) then 1 else 0
      ensures Appeared(rows + [f], p) <==> Appeared(rows, p) || (PidOf(f) == p && Appears(f))
    {
      CountSnoc(rows, f, AudioBy(p));
      AppearedSnoc(rows, f, p);
    }
    hide CountIf;
  }

  lemma AudioAppears(f: Feature)
    requires KindOf(f) == Some("audio")
    ensures Appears(f)
  {
  }

  // ---------- the pass over the rows ----------

  method Tabulate(features: seq<Feature>, size: real) returns (t: Tables)
    ensures ParticipantTable(features, t.participants)
    ensures EmotionTable(features, t.emotions)
    ensures BucketTable(features, size, t.buckets)
  {
    var participants: Counts := map[];
    var emotions: map<string, Counts> := map[];
    var buckets: map<string, map<int, Counts>> := map[];
    hide *;
    EmptyTables(size);
    assert features[..0] == [];
    for i := 0 to |features|
      invariant ParticipantTable(features[..i], participants)
      invariant EmotionTable(features[..i], emotions)
      invariant if size > 0.0 then BucketTable(features[..i], size, buckets) else buckets == map[]
    {
      var f := features[i];
      assert features[..i + 1] == features[..i] + [f];
      ParticipantSnoc(features[..i], f, participants);
      EmotionSnoc(features[..i], f, emotions);
      if size > 0.0 { BucketSnoc(features[..i], f, size, buckets); }
      var pid := PidOf(f);
      if Appears(f) {
        participants := participants[pid := Get(participants, pid, 0) + if KindOf(f) == Some("audio") then 1 else 0];
      }
      if Accepted(f) {
        emotions := emotions[pid := Bump(EmotionsOf(emotions, pid), EmotionOf(f))];
        if size > 0.0 && Timed(f) {
          var b := Bucket(TimeOf(f), size);
          buckets := buckets[pid := BucketsOf(buckets, pid)[b := Bump(BucketOf(buckets, pid, b), EmotionOf(f))]];
        }
      }
    }
    assert features[..|features|] == features;
    if size <= 0.0 { NoBuckets(features, size); }
    t := Tables(participants, emotions, buckets);
  }

  lemma EmptyTables(size: real)
    ensures ParticipantTable([], map[]) && EmotionTable([], map[]) && BucketTable([], size, map[])
  {
  }

  lemma NoBuckets(rows: seq<Feature>, size: real)
    requires size <= 0.0
    ensures BucketTable(rows, size, map[])
  {
  }

  // ---------- ranking ----------

  predicate Descending(out: seq<Ranked>) {
    forall i, j :: 0 <= i < j < |out| ==> out[i].events >= out[j].events
  }

  predicate NoRepeats(out: seq<Ranked>) {
    forall i, j :: 0 <= i < j < |out| ==> out[i].key != out[j].key
  }

  predicate Recounts(c: Counts, out: seq<Ranked>) {
    forall r :: r in out ==> r.key in c && r.events == c[r.key]
  }

  function RankedKeys(out: seq<Ranked>): set<string> { set r | r in out :: r.key }

  /** Descending by count, no key twice, the right counts, and nothing left out that counts more than something listed. */
  ghost predicate IsTopK(c: Counts, k: nat, out: seq<Ranked>) {
    && |out| == (if |c| < k then |c| else k)
    && Descending(out) && NoRepeats(out) && Recounts(c, out)
    && (forall key, r :: key in c && key !in RankedKeys(out) && r in out ==> c[key] <= r.events)
  }

  /** Some of the dictionary in descending order of count; ties stay in the order they were listed in. */
  ghost predicate IsRanking(c: Counts, keys: set<string>, out: seq<Ranked>) {
    Descending(out) && NoRepeats(out) && Recounts(c, out) && RankedKeys(out) == keys
  }

  method TopKCounts(c: Counts, k: nat) returns (out: seq<Ranked>)
    ensures IsTopK(c, k, out)
  {
    out := [];
    var todo := c.Keys;
    while todo != {}
      invariant todo <= c.Keys && IsRanking(c, c.Keys - todo, out)
      decreases todo
    {
      hide IsRanking;
      var key :| key in todo;
      out := Rank(c, c.Keys - todo, out, key);
      assert c.Keys - todo + {key} == c.Keys - (todo - {key});
      todo := todo - {key};
    }
    assert c.Keys - todo == c.Keys;
    RankingCut(c, k, out);
    out := if |out| <= k then out else out[..k];
  }

  lemma RankingCut(c: Counts, k: nat, out: seq<Ranked>)
    requires IsRanking(c, c.Keys, out)
    ensures IsTopK(c, k, if |out| <= k then out else out[..k])
  {
    KeptSize(c, out);
    if |out| > k {
      hide RankedKeys;
      assert Recounts(c, out[..k]);
      forall key, r | key in c && key !in RankedKeys(out[..k]) && r in out[..k] ensures c[key] <= r.events {
        Outranked(c, k, out, key, r);
      }
    }
  }

  lemma Outranked(c: Counts, k: nat, out: seq<Ranked>, key: string, r: Ranked)
    requires Recounts(c, out) && Descending(out) && k < |out|
    requires key in c && key in RankedKeys(out) && key !in RankedKeys(out[..k]) && r in out[..k]
    ensures c[key] <= r.events
  {
    var i :| 0 <= i < k && out[i] == r;
    var last :| last in out && last.key == key;
    var j :| 0 <= j < |out| && out[j] == last;
    assert forall q :: 0 <= q < k ==> out[..k][q].key in RankedKeys(out[..k]);
    assert out[..k][i] == r;
  }

  method Rank(c: Counts, ghost keys: set<string>, out: seq<Ranked>, key: string) returns (r: seq<Ranked>)
    requires IsRanking(c, keys, out) && key in c && key !in keys
    ensures IsRanking(c, keys + {key}, r)
  {
    var i := 0;
    while i < |out| && out[i].events >= c[key]
      invariant 0 <= i <= |out|
      invariant forall j :: 0 <= j < i ==> out[j].events >= c[key]
    {
      i := i + 1;
    }
    r := out[..i] + [Ranked(key, c[key])] + out[i..];
    RankPlaced(c, keys, out, i, Ranked(key, c[key]));
  }

  lemma RankPlaced(c: Counts, keys: set<string>, out: seq<Ranked>, i: nat, e: Ranked)
    requires IsRanking(c, keys, out) && i <= |out| && e.key in c && e.events == c[e.key] && e.key !in keys
    requires forall j :: 0 <= j < i ==> out[j].events >= e.events
    requires i < |out| ==> out[i].events < e.events
    ensures IsRanking(c, keys + {e.key}, out[..i] + [e] + out[i..])
  {
    var r := out[..i] + [e] + out[i..];
    RankDescends(out, i, e);
    RankMembers(out, i, e);
    hide Descending;
    assert Recounts(c, r);
    hide Recounts;
    assert RankedKeys(r) == keys + {e.key};
    hide RankedKeys;
    assert NoRepeats(r);
  }

  lemma RankMembers(out: seq<Ranked>, i: nat, e: Ranked)
    requires i <= |out| && e.key !in RankedKeys(out)
    ensures forall x :: x in out[..i] + [e] + out[i..] <==> x in out || x == e
    ensures forall j :: 0 <= j < |out| ==> out[j].key != e.key
  {
    assert out == out[..i] + out[i..];
    assert forall j :: 0 <= j < |out| ==> out[j].key in RankedKeys(out);
  }

  lemma RankDescends(out: seq<Ranked>, i: nat, e: Ranked)
    requires Descending(out) && i <= |out|
    requires forall j :: 0 <= j < i ==> out[j].events >= e.events
    requires i < |out| ==> out[i].events < e.events
    ensures Descending(out[..i] + [e] + out[i..])
  {
  }

  ghost function RankedTotal(out: seq<Ranked>): int {
    if out == [] then 0 else RankedTotal(out[..|out| - 1]) + out[|out| - 1].events
  }

  /** The cut keeps at most everything, and everything exactly when there are no more than `k` keys. */
  lemma TopKTotal(c: Counts, k: nat, out: seq<Ranked>)
    requires IsTopK(c, k, out) && Positive(c)
    ensures RankedTotal(out) <= MapTotal(c)
    ensures RankedTotal(out) == MapTotal(c) <==> |c| <= k
  {
    RankedSum(c, out);
    KeptSize(c, out);
    hide IsTopK, RankedKeys;
    SumPart(c.Keys, RankedKeys(out), Entry(c));
    assert |c| == |c.Keys|;
    if |c| <= k { SubsetSameSize(RankedKeys(out), c.Keys); }
  }

  /** A sum of positive summands over a part reaches the sum over the whole only when the part is the whole. */
  lemma SumPart<K>(ks: set<K>, part: set<K>, f: K -> int)
    requires part <= ks && forall k :: k in ks ==> f(k) > 0
    ensures SumOver(part, f) <= SumOver(ks, f)
    ensures SumOver(part, f) == SumOver(ks, f) <==> part == ks
  {
    var shown := (k: K) => if k in part then f(k) else 0;
    SumRestrict(ks, part, f, shown);
    SumAtMost(ks, shown, f);
    if part != ks {
      var k :| k in ks && k !in part;
      assert shown(k) != f(k);
    }
  }

  lemma {:induction false} SubsetSameSize<T>(a: set<T>, b: set<T>)
    requires a <= b && |a| == |b|
    ensures a == b
  {
    if x :| x in b && x !in a {
      assert a <= b - {x};
      SubsetSize(a, b - {x});
    }
  }

  lemma {:induction false} SubsetSize<T>(a: set<T>, b: set<T>)
    requires a <= b
    ensures |a| <= |b|
  {
    if a != {} {
      var x :| x in a;
      SubsetSize(a - {x}, b - {x});
    }
  }

  /** A sum of summands that vanish outside a subset. */
  lemma {:induction false} SumRestrict<K>(ks: set<K>, part: set<K>, f: K -> int, g: K -> int)
    requires part <= ks && forall k :: k in ks ==> g(k) == if k in part then f(k) else 0
    ensures SumOver(part, f) == SumOver(ks, g)
  {
    if ks != {} {
      var k :| k in ks;
      SumTake(ks, g, k);
      if k in part {
        SumTake(part, f, k);
        SumRestrict(ks - {k}, part - {k}, f, g);
      } else {
        SumRestrict(ks - {k}, part, f, g);
      }
    }
  }

  lemma RankedSnoc(out: seq<Ranked>)
    requires out != [] && NoRepeats(out)
    ensures RankedKeys(out) == RankedKeys(out[..|out| - 1]) + {out[|out| - 1].key}
    ensures out[|out| - 1].key !in RankedKeys(out[..|out| - 1])
  {
    assert out == out[..|out| - 1] + [out[|out| - 1]];
  }

  lemma {:induction false} RankedSum(c: Counts, out: seq<Ranked>)
    requires Recounts(c, out) && NoRepeats(out)
    ensures RankedTotal(out) == SumOver(RankedKeys(out), Entry(c))
  {
    if out != [] {
      var n := |out| - 1;
      RankedSum(c, out[..n]);
      RankedSnoc(out);
      assert out[n] in out;
      SumWith(RankedKeys(out[..n]), Entry(c), out[n].key);
    } else {
      assert RankedKeys(out) == {};
    }
  }

  lemma SumWith<K>(ks: set<K>, f: K -> int, k: K)
    requires k !in ks
    ensures SumOver(ks + {k}, f) == SumOver(ks, f) + f(k)
  {
    SumTake(ks + {k}, f, k);
    assert ks + {k} - {k} == ks;
  }

  lemma {:induction false} KeptSize(c: Counts, out: seq<Ranked>)
    requires Recounts(c, out) && NoRepeats(out)
    ensures RankedKeys(out) <= c.Keys && |RankedKeys(out)| == |out|
  {
    if out != [] {
      KeptSize(c, out[..|out| - 1]);
      RankedSnoc(out);
    }
  }

  // ---------- the views ----------

  /** `sum(counts.values())`. */
  method SumValues(c: Counts) returns (total: nat)
    ensures total == MapTotal(c)
  {
    total := 0;
    var todo := c.Keys;
    while todo != {}
      invariant todo <= c.Keys && total + SumOver(todo, Entry(c)) == MapTotal(c)
      decreases todo
    {
      var k :| k in todo;
      SumTake(todo, Entry(c), k);
      total := total + c[k];
      todo := todo - {k};
    }
  }

  method EmotionSummary(e: map<string, Counts>) returns (summary: map<string, nat>)
    ensures summary.Keys == e.Keys && forall p :: p in e ==> summary[p] == MapTotal(e[p])
  {
    summary := map[];
    var todo := e.Keys;
    while todo != {}
      invariant todo <= e.Keys && summary.Keys == e.Keys - todo
      invariant forall p :: p in summary ==> summary[p] == MapTotal(e[p])
      decreases todo
    {
      var p :| p in todo;
      var total := SumValues(e[p]);
      summary := summary[p := total];
      todo := todo - {p};
    }
  }

  method Tiles(participants: Counts, e: map<string, Counts>) returns (tiles: seq<Tile>)
    ensures Ascending(TilePids(tiles), TextLt) && (forall p :: p in TilePids(tiles) <==> p in participants)
    ensures forall t :: t in tiles ==> t.events == MapTotal(EmotionsOf(e, t.pid)) && IsTopK(EmotionsOf(e, t.pid), 3, t.top3)
  {
    hide *;
    TextOrder();
    var pids := SortSet(participants.Keys, TextLt);
    tiles := [];
    for i := 0 to |pids|
      invariant |tiles| == i && forall j :: 0 <= j < i ==> tiles[j].pid == pids[j]
      invariant forall t :: t in tiles ==> t.events == MapTotal(EmotionsOf(e, t.pid)) && IsTopK(EmotionsOf(e, t.pid), 3, t.top3)
    {
      var counts := EmotionsOf(e, pids[i]);
      var total := SumValues(counts);
      var top3 := TopKCounts(counts, 3);
      tiles := tiles + [Tile(pids[i], total, top3)];
    }
    TilePidsAre(tiles, pids);
  }

  function TilePids(tiles: seq<Tile>): seq<string> {
    seq(|tiles|, i requires 0 <= i < |tiles| => tiles[i].pid)
  }

  lemma TilePidsAre(tiles: seq<Tile>, pids: seq<string>)
    requires |tiles| == |pids| && forall j :: 0 <= j < |tiles| ==> tiles[j].pid == pids[j]
    ensures TilePids(tiles) == pids
  {
  }

  /** Counts of one emotion over the participants in `ps`. */
  ghost function Across(e: map<string, Counts>, em: string): string -> int {
    (p: string) => Get(EmotionsOf(e, p), em, 0) as int
  }

  /** `global_emo` after the participants in `done`. */
  ghost predicate RolledUp(e: map<string, Counts>, done: set<string>, g: Counts) {
    && (forall em :: Get(g, em, 0) as int == SumOver(done, Across(e, em)))
    && (forall em :: em in g <==> exists p :: p in done && em in EmotionsOf(e, p))
  }

  method Rollup(e: map<string, Counts>) returns (g: Counts)
    ensures RolledUp(e, e.Keys, g)
  {
    g := map[];
    var todo := e.Keys;
    while todo != {}
      invariant todo <= e.Keys && RolledUp(e, e.Keys - todo, g)
      decreases todo
    {
      var p :| p in todo;
      var g' := AddAll(g, e[p]);
      RolledUpStep(e, e.Keys - todo, p, g, g');
      assert e.Keys - todo + {p} == e.Keys - (todo - {p});
      g, todo := g', todo - {p};
    }
    assert e.Keys - todo == e.Keys;
  }

  method AddAll(g: Counts, c: Counts) returns (r: Counts)
    ensures r.Keys == g.Keys + c.Keys && forall em :: Get(r, em, 0) == Get(g, em, 0) + Get(c, em, 0)
  {
    r := g;
    var todo := c.Keys;
    while todo != {}
      invariant todo <= c.Keys && r.Keys == g.Keys + (c.Keys - todo)
      invariant forall em :: Get(r, em, 0) == Get(g, em, 0) + if em in todo then 0 else Get(c, em, 0)
      decreases todo
    {
      var em :| em in todo;
      r := r[em := Get(r, em, 0) + c[em]];
      todo := todo - {em};
    }
  }

  lemma RolledUpStep(e: map<string, Counts>, done: set<string>, p: string, g: Counts, g': Counts)
    requires p in e && p !in done && RolledUp(e, done, g)
    requires g'.Keys == g.Keys + e[p].Keys && forall em :: Get(g', em, 0) == Get(g, em, 0) + Get(e[p], em, 0)
    ensures RolledUp(e, done + {p}, g')
  {
    forall em ensures Get(g', em, 0) as int == SumOver(done + {p}, Across(e, em)) {
      SumTake(done + {p}, Across(e, em), p);
      assert done + {p} - {p} == done;
    }
    forall em ensures em in g' <==> exists q :: q in done + {p} && em in EmotionsOf(e, q) {
      if em in e[p] { assert p in done + {p} && em in EmotionsOf(e, p); }
      if em in g { var q :| q in done && em in EmotionsOf(e, q); assert q in done + {p}; }
    }
  }
}
