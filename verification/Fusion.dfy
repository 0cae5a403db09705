// Time buckets and the trace index of a report.
module Fusion {
  import opened Outcomes
  import opened Tally
  import opened Sorting
  import opened Features

  datatype Slot = Slot(pid: string, index: int, kinds: map<string, nat>, traces: set<string>)

  datatype BucketRow = BucketRow(pid: string, index: int, start: real, kinds: map<string, nat>, traces: seq<string>)

  datatype TraceRow = TraceRow(pid: string, traces: seq<string>)

  datatype Meta = Meta(bucketSec: real, traces: seq<TraceRow>, buckets: seq<BucketRow>)

  // ---------- what the result says about the rows ----------

  predicate InBucket(f: Feature, pid: string, b: int, size: real)
    requires size > 0.0
  {
    PidOf(f) == pid && Bucket(TimeOf(f), size) == b
  }

  function OfKind(pid: string, b: int, size: real, kind: string): Feature -> bool
    requires size > 0.0
  {
    (f: Feature) => InBucket(f, pid, b, size) && KindOf(f) == Some(kind)
  }

  ghost predicate HasTrace(rows: seq<Feature>, pid: string, t: string) {
    exists f :: f in rows && PidOf(f) == pid && TraceOf(f) == Some(t)
  }

  ghost predicate HasBucketTrace(rows: seq<Feature>, pid: string, b: int, size: real, t: string)
    requires size > 0.0
  {
    exists f :: f in rows && InBucket(f, pid, b, size) && TraceOf(f) == Some(t)
  }

  ghost predicate HasRow(rows: seq<Feature>, pid: string, b: int, size: real)
    requires size > 0.0
  {
    exists f :: f in rows && InBucket(f, pid, b, size)
  }

  ghost predicate Counts(rows: seq<Feature>, pid: string, b: int, size: real, kinds: map<string, nat>)
    requires size > 0.0
  {
    && (forall k :: k in kinds <==> CountIf(rows, OfKind(pid, b, size, k)) > 0)
    && (forall k :: k in kinds ==> kinds[k] == CountIf(rows, OfKind(pid, b, size, k)))
  }

  ghost predicate IsSlot(rows: seq<Feature>, size: real, s: Slot)
    requires size > 0.0
  {
    && Counts(rows, s.pid, s.index, size, s.kinds)
    && (forall t :: t in s.traces <==> HasBucketTrace(rows, s.pid, s.index, size, t))
  }

  ghost predicate IsBucket(rows: seq<Feature>, size: real, r: BucketRow)
    requires size > 0.0
  {
    && HasRow(rows, r.pid, r.index, size)
    && r.start == r.index as real * size
    && Counts(rows, r.pid, r.index, size, r.kinds)
    && Ascending(r.traces, TextLt)
    && (forall t :: t in r.traces <==> HasBucketTrace(rows, r.pid, r.index, size, t))
  }

  ghost predicate IsTraceRow(rows: seq<Feature>, r: TraceRow) {
    && r.traces != []
    && Ascending(r.traces, TextLt)
    && (forall t :: t in r.traces <==> HasTrace(rows, r.pid, t))
  }

  function KeyOf(r: BucketRow): (string, int) { (r.pid, r.index) }

  function Keys(rows: seq<BucketRow>): seq<(string, int)> {
    seq(|rows|, i requires 0 <= i < |rows| => KeyOf(rows[i]))
  }

  function Pids(rows: seq<TraceRow>): seq<string> {
    seq(|rows|, i requires 0 <= i < |rows| => rows[i].pid)
  }

  /** One trace row for each participant with a trace, ascending, complete and exact. */
  ghost predicate IsTraceIndex(rows: seq<Feature>, index: seq<TraceRow>) {
    && Ascending(Pids(index), TextLt)
    && (forall r :: r in index ==> IsTraceRow(rows, r))
    && (forall f :: f in rows && TraceOf(f).Some? ==> PidOf(f) in Pids(index))
  }

  /** One bucket row for each participant and index with a row, ascending, complete and exact. */
  ghost predicate IsBuckets(rows: seq<Feature>, size: real, buckets: seq<BucketRow>)
    requires size > 0.0
  {
    && Ascending(Keys(buckets), KeyLt)
    && (forall r :: r in buckets ==> IsBucket(rows, size, r))
    && (forall f :: f in rows ==> (PidOf(f), Bucket(TimeOf(f), size)) in Keys(buckets))
  }

  ghost predicate IsFusion(rows: seq<Feature>, size: real, m: Meta) {
    && IsTraceIndex(rows, m.traces)
    && m.bucketSec == (if size > 0.0 then size else 0.0)
    && if size > 0.0 then IsBuckets(rows, size, m.buckets) else m.buckets == []
  }

  // ---------- one more row ----------

  lemma TraceSnoc(rows: seq<Feature>, f: Feature, pid: string, t: string)
    ensures HasTrace(rows + [f], pid, t) <==> HasTrace(rows, pid, t) || (PidOf(f) == pid && TraceOf(f) == Some(t))
  {
    if HasTrace(rows, pid, t) {
      var g :| g in rows && PidOf(g) == pid && TraceOf(g) == Some(t);
      assert g in rows + [f];
    }
    assert f in rows + [f];
  }

  lemma BucketTraceSnoc(rows: seq<Feature>, f: Feature, pid: string, b: int, size: real, t: string)
    requires size > 0.0
    ensures HasBucketTrace(rows + [f], pid, b, size, t) <==>
              HasBucketTrace(rows, pid, b, size, t) || (InBucket(f, pid, b, size) && TraceOf(f) == Some(t))
  {
    if HasBucketTrace(rows, pid, b, size, t) {
      var g :| g in rows && InBucket(g, pid, b, size) && TraceOf(g) == Some(t);
      assert g in rows + [f];
    }
    assert f in rows + [f];
  }

  function Bumped(kinds: map<string, nat>, kind: Option<string>): map<string, nat> {
    if kind.Some? then kinds[kind.value := Get(kinds, kind.value, 0) + 1] else kinds
  }

  function Noted(s: Slot, f: Feature): Slot {
    s.(kinds := Bumped(s.kinds, KindOf(f)), traces := s.traces + if TraceOf(f).Some? then {TraceOf(f).value} else {})
  }

  lemma SlotSnoc(rows: seq<Feature>, f: Feature, size: real, s: Slot)
    requires size > 0.0 && IsSlot(rows, size, s)
    ensures IsSlot(rows + [f], size, if InBucket(f, s.pid, s.index, size) then Noted(s, f) else s)
  {
    hide Strip;
    forall k
      ensures CountIf(rows + [f], OfKind(s.pid, s.index, size, k))
           == CountIf(rows, OfKind(s.pid, s.index, size, k))
              + if InBucket(f, s.pid, s.index, size) && KindOf(f) == Some(k) then 1 else 0
    {
      CountSnoc(rows, f, OfKind(s.pid, s.index, size, k));
    }
    forall t ensures HasBucketTrace(rows + [f], s.pid, s.index, size, t) <==>
              HasBucketTrace(rows, s.pid, s.index, size, t) || (InBucket(f, s.pid, s.index, size) && TraceOf(f) == Some(t)) {
      BucketTraceSnoc(rows, f, s.pid, s.index, size, t);
    }
  }

  lemma EmptySlot(rows: seq<Feature>, size: real, pid: string, b: int)
    requires size > 0.0 && !HasRow(rows, pid, b, size)
    ensures IsSlot(rows, size, Slot(pid, b, map[], {}))
  {
    forall k ensures CountIf(rows, OfKind(pid, b, size, k)) == 0 {
      CountPositive(rows, OfKind(pid, b, size, k));
    }
  }

  // ---------- the computation ----------

  /** The table under construction after the rows so far. */
  ghost predicate Filled(rows: seq<Feature>, size: real, byKey: map<string, Slot>)
    requires size > 0.0
  {
    && (forall k :: k in byKey ==> Filed(rows, size, k, byKey[k]))
    && (forall f :: f in rows ==> Key(PidOf(f), Bucket(TimeOf(f), size)) in byKey)
  }

  ghost predicate Filed(rows: seq<Feature>, size: real, k: string, s: Slot)
    requires size > 0.0
  {
    k == Key(s.pid, s.index) && IsSlot(rows, size, s) && HasRow(rows, s.pid, s.index, size)
  }

  lemma FilledSnoc(rows: seq<Feature>, f: Feature, size: real, byKey: map<string, Slot>)
    requires size > 0.0 && Filled(rows, size, byKey)
    ensures var pid, b := PidOf(f), Bucket(TimeOf(f), size);
      Filled(rows + [f], size, byKey[Key(pid, b) := Noted(Get(byKey, Key(pid, b), Slot(pid, b, map[], {})), f)])
  {
    hide Strip, Key, IsSlot, Digits;
    var pid, b := PidOf(f), Bucket(TimeOf(f), size);
    var key := Key(pid, b);
    var slot := Get(byKey, key, Slot(pid, b, map[], {}));
    if key in byKey {
      assert Filed(rows, size, key, byKey[key]);
      KeyInjective(slot.pid, slot.index, pid, b);
    } else {
      NoRowYet(rows, size, byKey, pid, b);
      EmptySlot(rows, size, pid, b);
    }
    SlotSnoc(rows, f, size, slot);
    assert f in rows + [f] && InBucket(f, pid, b, size);
    var byKey' := byKey[key := Noted(slot, f)];
    forall k | k in byKey' ensures Filed(rows + [f], size, k, byKey'[k]) {
      if k != key {
        var s := byKey[k];
        assert Filed(rows, size, k, s);
        SlotSnoc(rows, f, size, s);
        var g :| g in rows && InBucket(g, s.pid, s.index, size);
        assert g in rows + [f];
      }
    }
  }

  lemma NoRowYet(rows: seq<Feature>, size: real, byKey: map<string, Slot>, pid: string, b: int)
    requires size > 0.0 && Filled(rows, size, byKey) && Key(pid, b) !in byKey
    ensures !HasRow(rows, pid, b, size)
  {
    hide Key;
  }

  /** Trace sets by participant, after the rows so far. */
  ghost predicate Traced(rows: seq<Feature>, byPid: map<string, set<string>>) {
    && (forall p :: p in byPid ==> byPid[p] != {})
    && (forall p, t :: t in Get(byPid, p, {}) <==> HasTrace(rows, p, t))
  }

  method IndexTraces(features: seq<Feature>) returns (byPid: map<string, set<string>>)
    ensures Traced(features, byPid)
  {
    byPid := map[];
    for i := 0 to |features|
      invariant Traced(features[..i], byPid)
    {
      var f := features[i];
      assert features[..i + 1] == features[..i] + [f];
      ghost var before := byPid;
      if TraceOf(f).Some? {
        byPid := byPid[PidOf(f) := Get(byPid, PidOf(f), {}) + {TraceOf(f).value}];
      }
      forall p, t ensures t in Get(byPid, p, {}) <==> HasTrace(features[..i + 1], p, t) {
        TraceSnoc(features[..i], f, p, t);
        assert t in Get(before, p, {}) <==> HasTrace(features[..i], p, t);
      }
    }
    assert features[..|features|] == features;
  }

  lemma NothingFilled(size: real)
    requires size > 0.0
    ensures Filled([], size, map[])
  {
  }

  method FillBuckets(features: seq<Feature>, size: real) returns (byKey: map<string, Slot>)
    requires size > 0.0
    ensures Filled(features, size, byKey)
  {
    hide *;
    NothingFilled(size);
    byKey := map[];
    assert features[..0] == [];
    for i := 0 to |features|
      invariant Filled(features[..i], size, byKey)
    {
      var f := features[i];
      assert features[..i + 1] == features[..i] + [f];
      FilledSnoc(features[..i], f, size, byKey);
      var pid, b := PidOf(f), Bucket(TimeOf(f), size);
      var slot := Get(byKey, Key(pid, b), Slot(pid, b, map[], {}));
      byKey := byKey[Key(pid, b) := Noted(slot, f)];
    }
    assert features[..|features|] == features;
  }

  method TraceRowOf(pid: string, traces: set<string>, ghost features: seq<Feature>) returns (row: TraceRow)
    requires traces != {} && forall t :: t in traces <==> HasTrace(features, pid, t)
    ensures IsTraceRow(features, row) && row.pid == pid
  {
    TextOrder();
    var sorted := SortSet(traces, TextLt);
    ghost var t :| t in traces;
    assert t in sorted;
    row := TraceRow(pid, sorted);
  }

  method SortTraces(byPid: map<string, set<string>>, ghost features: seq<Feature>) returns (index: seq<TraceRow>)
    requires Traced(features, byPid)
    ensures IsTraceIndex(features, index)
  {
    hide *;
    TextOrder();
    var pids := SortSet(byPid.Keys, TextLt);
    index := [];
    for i := 0 to |pids|
      invariant |index| == i && forall j :: 0 <= j < i ==> index[j].pid == pids[j] && IsTraceRow(features, index[j])
    {
      TracedEntry(features, byPid, pids[i]);
      var row := TraceRowOf(pids[i], byPid[pids[i]], features);
      index := index + [row];
    }
    TraceIndexComplete(features, byPid, pids, index);
  }

  lemma TracedEntry(features: seq<Feature>, byPid: map<string, set<string>>, pid: string)
    requires Traced(features, byPid) && pid in byPid
    ensures byPid[pid] != {} && forall t :: t in byPid[pid] <==> HasTrace(features, pid, t)
  {
    hide HasTrace;
    forall t ensures t in byPid[pid] <==> HasTrace(features, pid, t) {
      assert t in Get(byPid, pid, {}) <==> HasTrace(features, pid, t);
    }
  }

  lemma TraceIndexComplete(features: seq<Feature>, byPid: map<string, set<string>>, pids: seq<string>, index: seq<TraceRow>)
    requires Traced(features, byPid) && Ascending(pids, TextLt) && forall p :: p in pids <==> p in byPid.Keys
    requires |index| == |pids| && forall j :: 0 <= j < |pids| ==> index[j].pid == pids[j] && IsTraceRow(features, index[j])
    ensures IsTraceIndex(features, index)
  {
    hide Strip, IsTraceRow, TextLt;
    assert Pids(index) == pids;
    forall f | f in features && TraceOf(f).Some? ensures PidOf(f) in Pids(index) {
      assert HasTrace(features, PidOf(f), TraceOf(f).value);
      assert TraceOf(f).value in Get(byPid, PidOf(f), {});
    }
  }

  method SortBuckets(byKey: map<string, Slot>, size: real, ghost features: seq<Feature>) returns (buckets: seq<BucketRow>)
    requires size > 0.0 && Filled(features, size, byKey)
    ensures IsBuckets(features, size, buckets)
  {
    hide *;
    KeyOrder();
    ghost var all := set k | k in byKey :: (byKey[k].pid, byKey[k].index);
    var keys := SortSet(set k | k in byKey :: (byKey[k].pid, byKey[k].index), KeyLt);
    buckets := [];
    for i := 0 to |keys|
      invariant |buckets| == i && forall j :: 0 <= j < i ==> KeyOf(buckets[j]) == keys[j] && IsBucket(features, size, buckets[j])
    {
      assert keys[i] in all;
      FiledUnder(features, size, byKey, keys[i]);
      var row := RowOf(byKey[Key(keys[i].0, keys[i].1)], size, features);
      buckets := buckets + [row];
    }
    BucketsComplete(features, size, byKey, keys, buckets);
  }

  lemma FiledUnder(features: seq<Feature>, size: real, byKey: map<string, Slot>, key: (string, int))
    requires size > 0.0 && Filled(features, size, byKey) && exists k :: k in byKey && (byKey[k].pid, byKey[k].index) == key
    ensures Key(key.0, key.1) in byKey
    ensures var s := byKey[Key(key.0, key.1)];
      IsSlot(features, size, s) && HasRow(features, s.pid, s.index, size) && (s.pid, s.index) == key
  {
    hide IsSlot, HasRow, Key;
    var k :| k in byKey && (byKey[k].pid, byKey[k].index) == key;
    assert Filed(features, size, k, byKey[k]);
  }

  lemma BucketsComplete(features: seq<Feature>, size: real, byKey: map<string, Slot>, keys: seq<(string, int)>, buckets: seq<BucketRow>)
    requires size > 0.0 && Filled(features, size, byKey) && Ascending(keys, KeyLt)
    requires forall x :: x in keys <==> x in set k | k in byKey :: (byKey[k].pid, byKey[k].index)
    requires |buckets| == |keys| && forall j :: 0 <= j < |keys| ==> KeyOf(buckets[j]) == keys[j] && IsBucket(features, size, buckets[j])
    ensures IsBuckets(features, size, buckets)
  {
    hide Strip, IsBucket, IsSlot, HasRow, KeyLt, Key, Bucket;
    assert Keys(buckets) == keys;
    forall f | f in features ensures (PidOf(f), Bucket(TimeOf(f), size)) in Keys(buckets) {
      var pid, b := PidOf(f), Bucket(TimeOf(f), size);
      assert Filed(features, size, Key(pid, b), byKey[Key(pid, b)]);
      KeyInjective(byKey[Key(pid, b)].pid, byKey[Key(pid, b)].index, pid, b);
      assert (pid, b) in keys;
    }
  }

  method RowOf(slot: Slot, size: real, ghost features: seq<Feature>) returns (row: BucketRow)
    requires size > 0.0 && IsSlot(features, size, slot) && HasRow(features, slot.pid, slot.index, size)
    ensures IsBucket(features, size, row) && KeyOf(row) == (slot.pid, slot.index)
  {
    TextOrder();
    var traces := SortSet(slot.traces, TextLt);
    row := BucketRow(slot.pid, slot.index, slot.index as real * size, slot.kinds, traces);
  }

  method ComputeFusionMeta(features: seq<Feature>, size: real) returns (m: Meta)
    ensures IsFusion(features, size, m)
  {
    var byPid := IndexTraces(features);
    var index := SortTraces(byPid, features);
    var buckets: seq<BucketRow> := [];
    if size > 0.0 {
      var byKey := FillBuckets(features, size);
      buckets := SortBuckets(byKey, size, features);
    }
    m := Meta(if size > 0.0 then size else 0.0, index, buckets);
  }

  // ---------- the result is a function of the multiset of rows ----------

  lemma SameMembers(a: seq<Feature>, b: seq<Feature>)
    requires multiset(a) == multiset(b)
    ensures forall f :: f in a <==> f in b
  {
    forall f ensures f in a <==> f in b {
      assert f in a <==> f in multiset(a);
      assert f in b <==> f in multiset(b);
    }
  }

  lemma BucketUnique(a: seq<Feature>, b: seq<Feature>, size: real, r: BucketRow, q: BucketRow)
    requires size > 0.0 && multiset(a) == multiset(b)
    requires IsBucket(a, size, r) && IsBucket(b, size, q) && KeyOf(r) == KeyOf(q)
    ensures r == q
  {
    hide Strip;
    SameMembers(a, b);
    forall k ensures CountIf(a, OfKind(r.pid, r.index, size, k)) == CountIf(b, OfKind(r.pid, r.index, size, k)) {
      CountPermutation(a, b, OfKind(r.pid, r.index, size, k));
    }
    assert r.kinds == q.kinds;
    TextOrder();
    AscendingUnique(r.traces, q.traces, TextLt);
  }

  lemma BucketsUnique(a: seq<Feature>, b: seq<Feature>, size: real, x: seq<BucketRow>, y: seq<BucketRow>)
    requires size > 0.0 && multiset(a) == multiset(b) && IsBuckets(a, size, x) && IsBuckets(b, size, y)
    ensures x == y
  {
    hide IsBucket;
    SameMembers(a, b);
    KeysWithin(a, b, size, x, y);
    KeysWithin(b, a, size, y, x);
    KeyOrder();
    AscendingUnique(Keys(x), Keys(y), KeyLt);
    forall i | 0 <= i < |x| ensures x[i] == y[i] {
      assert KeyOf(x[i]) == Keys(x)[i] == Keys(y)[i] == KeyOf(y[i]);
      assert x[i] in x && y[i] in y;
      BucketUnique(a, b, size, x[i], y[i]);
    }
  }

  lemma KeysWithin(a: seq<Feature>, b: seq<Feature>, size: real, x: seq<BucketRow>, y: seq<BucketRow>)
    requires size > 0.0 && (forall f :: f in a <==> f in b) && IsBuckets(a, size, x) && IsBuckets(b, size, y)
    ensures forall k :: k in Keys(x) ==> k in Keys(y)
  {
    hide Strip;
    forall k | k in Keys(x) ensures k in Keys(y) {
      var i :| 0 <= i < |x| && KeyOf(x[i]) == k;
      assert x[i] in x;
      var f :| f in a && InBucket(f, x[i].pid, x[i].index, size);
    }
  }

  lemma TraceIndexUnique(a: seq<Feature>, b: seq<Feature>, x: seq<TraceRow>, y: seq<TraceRow>)
    requires (forall f :: f in a <==> f in b) && IsTraceIndex(a, x) && IsTraceIndex(b, y)
    ensures x == y
  {
    hide Strip;
    PidsWithin(a, b, x, y);
    PidsWithin(b, a, y, x);
    TextOrder();
    AscendingUnique(Pids(x), Pids(y), TextLt);
    forall i | 0 <= i < |x| ensures x[i] == y[i] {
      assert x[i].pid == Pids(x)[i] == Pids(y)[i] == y[i].pid;
      assert x[i] in x && y[i] in y;
      forall t ensures t in x[i].traces <==> t in y[i].traces {
        assert HasTrace(a, x[i].pid, t) <==> HasTrace(b, x[i].pid, t);
      }
      AscendingUnique(x[i].traces, y[i].traces, TextLt);
    }
  }

  lemma PidsWithin(a: seq<Feature>, b: seq<Feature>, x: seq<TraceRow>, y: seq<TraceRow>)
    requires (forall f :: f in a <==> f in b) && IsTraceIndex(a, x) && IsTraceIndex(b, y)
    ensures forall p :: p in Pids(x) ==> p in Pids(y)
  {
    hide Strip;
    forall p | p in Pids(x) ensures p in Pids(y) {
      var i :| 0 <= i < |x| && x[i].pid == p;
      assert x[i] in x && x[i].traces[0] in x[i].traces;
      assert HasTrace(a, p, x[i].traces[0]);
      var f :| f in a && PidOf(f) == p && TraceOf(f) == Some(x[i].traces[0]);
    }
  }

  /** Whatever order the rows come in, the fusion meta is the same. */
  lemma FusionOrderFree(a: seq<Feature>, b: seq<Feature>, size: real, x: Meta, y: Meta)
    requires multiset(a) == multiset(b) && IsFusion(a, size, x) && IsFusion(b, size, y)
    ensures x == y
  {
    SameMembers(a, b);
    TraceIndexUnique(a, b, x.traces, y.traces);
    if size > 0.0 { BucketsUnique(a, b, size, x.buckets, y.buckets); }
  }

  // ---------- buckets partition the rows ----------

  /** Each row is in exactly one bucket: its participant's bucket over the interval that holds its time. */
  lemma OneBucketEach(rows: seq<Feature>, size: real, m: Meta, f: Feature)
    requires size > 0.0 && IsFusion(rows, size, m) && f in rows
    ensures exists r :: r in m.buckets && Holds(r, f, size)
    ensures forall r, q :: r in m.buckets && q in m.buckets && Holds(r, f, size) && Holds(q, f, size) ==> r == q
  {
    hide Strip, IsBucket;
    var b := Bucket(TimeOf(f), size);
    var i :| 0 <= i < |m.buckets| && KeyOf(m.buckets[i]) == (PidOf(f), b);
    BucketBounds(TimeOf(f), size, b);
    assert m.buckets[i] in m.buckets && Holds(m.buckets[i], f, size);
    forall r, q | r in m.buckets && q in m.buckets && Holds(r, f, size) && Holds(q, f, size) ensures r == q {
      BucketBounds(TimeOf(f), size, r.index);
      BucketBounds(TimeOf(f), size, q.index);
      SameKeySameRow(m.buckets, r, q);
    }
  }

  predicate Holds(r: BucketRow, f: Feature, size: real) {
    PidOf(f) == r.pid && r.index as real * size <= TimeOf(f) < (r.index + 1) as real * size
  }

  lemma SameKeySameRow(buckets: seq<BucketRow>, r: BucketRow, q: BucketRow)
    requires Ascending(Keys(buckets), KeyLt) && r in buckets && q in buckets && KeyOf(r) == KeyOf(q)
    ensures r == q
  {
    KeyOrder();
    AscendingDistinct(Keys(buckets), KeyLt);
    var i :| 0 <= i < |buckets| && buckets[i] == r;
    var j :| 0 <= j < |buckets| && buckets[j] == q;
    assert Keys(buckets)[i] == Keys(buckets)[j];
  }

  ghost predicate TraceListed(m: Meta, pid: string, t: string) {
    exists i :: i in m.traces && i.pid == pid && t in i.traces
  }

  ghost predicate TraceBucketed(m: Meta, pid: string, t: string) {
    exists r :: r in m.buckets && r.pid == pid && t in r.traces
  }

  lemma ListedIffPresent(rows: seq<Feature>, size: real, m: Meta, pid: string, t: string)
    requires IsFusion(rows, size, m)
    ensures TraceListed(m, pid, t) <==> HasTrace(rows, pid, t)
  {
    hide Strip, TextLt, IsBuckets;
    if HasTrace(rows, pid, t) {
      var j :| 0 <= j < |m.traces| && m.traces[j].pid == pid;
      assert m.traces[j] in m.traces;
    }
  }

  lemma BucketedIffPresent(rows: seq<Feature>, size: real, m: Meta, pid: string, t: string)
    requires size > 0.0 && IsFusion(rows, size, m)
    ensures TraceBucketed(m, pid, t) <==> HasTrace(rows, pid, t)
  {
    hide Strip, TextLt, IsTraceIndex, Counts;
    if HasTrace(rows, pid, t) {
      var f :| f in rows && PidOf(f) == pid && TraceOf(f) == Some(t);
      var j :| 0 <= j < |m.buckets| && KeyOf(m.buckets[j]) == (pid, Bucket(TimeOf(f), size));
      assert m.buckets[j] in m.buckets;
      assert HasBucketTrace(rows, pid, m.buckets[j].index, size, t);
    }
    if TraceBucketed(m, pid, t) {
      var r :| r in m.buckets && r.pid == pid && t in r.traces;
      assert HasBucketTrace(rows, pid, r.index, size, t);
    }
  }

  /** A participant's trace list is the union of the trace lists of that participant's buckets. */
  lemma TracesAgree(rows: seq<Feature>, size: real, m: Meta, pid: string, t: string)
    requires size > 0.0 && IsFusion(rows, size, m)
    ensures TraceListed(m, pid, t) <==> TraceBucketed(m, pid, t)
  {
    hide IsFusion, TraceListed, TraceBucketed;
    ListedIffPresent(rows, size, m, pid, t);
    BucketedIffPresent(rows, size, m, pid, t);
  }

  // ---------- kind counts add up ----------

  ghost function GrandTotal(buckets: seq<BucketRow>): int {
    if buckets == [] then 0 else GrandTotal(buckets[..|buckets| - 1]) + MapTotal(buckets[|buckets| - 1].kinds)
  }

  function StringKind(): Feature -> bool { (f: Feature) => KindOf(f).Some? }

  function StringKindIn(pid: string, b: int, size: real): Feature -> bool
    requires size > 0.0
  {
    (f: Feature) => InBucket(f, pid, b, size) && KindOf(f).Some?
  }

  lemma KindTotalCounts(rows: seq<Feature>, size: real, pid: string, b: int, kinds: map<string, nat>)
    requires size > 0.0 && Counts(rows, pid, b, size, kinds)
    ensures MapTotal(kinds) == CountIf(rows, StringKindIn(pid, b, size))
  {
    hide Strip;
    var part := (k: string) => OfKind(pid, b, size, k);
    var key := (f: Feature) => if KindOf(f).Some? then KindOf(f).value else "";
    forall f | f in rows && StringKindIn(pid, b, size)(f) ensures key(f) in kinds.Keys {
      CountPositive(rows, OfKind(pid, b, size, key(f)));
    }
    TableTotal(rows, kinds, StringKindIn(pid, b, size), key, part);
  }

  lemma {:induction false} GrandTotalSum(buckets: seq<BucketRow>, f: ((string, int)) -> int)
    requires Ascending(Keys(buckets), KeyLt)
    requires forall r :: r in buckets ==> f(KeyOf(r)) == MapTotal(r.kinds)
    ensures GrandTotal(buckets) == SumOver((set k | k in Keys(buckets)), f)
  {
    hide MapTotal, TextLt;
    if buckets != [] {
      var n := |buckets| - 1;
      var last := buckets[n];
      assert Keys(buckets)[..n] == Keys(buckets[..n]);
      assert last in buckets;
      GrandTotalSum(buckets[..n], f);
      KeyOrder();
      assert KeyOf(last) == Keys(buckets)[n];
      AscendingDistinct(Keys(buckets), KeyLt);
      var ks := set k | k in Keys(buckets);
      assert Keys(buckets) == Keys(buckets[..n]) + [KeyOf(last)];
      assert ks - {KeyOf(last)} == set k | k in Keys(buckets[..n]);
      SumTake(ks, f, KeyOf(last));
    }
  }

  /** Over all buckets, the kind counts add up to the number of rows that have a textual kind. */
  lemma KindsConserved(rows: seq<Feature>, size: real, m: Meta)
    requires size > 0.0 && IsFusion(rows, size, m)
    ensures GrandTotal(m.buckets) == CountIf(rows, StringKind())
  {
    hide Strip, MapTotal, Bucket;
    var f := (k: (string, int)) => CountIf(rows, StringKindIn(k.0, k.1, size)) as int;
    forall r | r in m.buckets ensures f(KeyOf(r)) == MapTotal(r.kinds) {
      KindTotalCounts(rows, size, r.pid, r.index, r.kinds);
    }
    GrandTotalSum(m.buckets, f);
    var part := (k: (string, int)) => StringKindIn(k.0, k.1, size);
    var key := (g: Feature) => (PidOf(g), Bucket(TimeOf(g), size));
    CountByKey(rows, StringKind(), key, (set k | k in Keys(m.buckets)), part, f);
  }
}
