// Face boxes: clamping to the frame, and exponential smoothing from frame to frame.
module FaceBox {
  import opened Outcomes

  datatype Box = Box(x: int, y: int, w: int, h: int)

  const MIN_SIDE := 8

  function Min(a: int, b: int): int { if a < b then a else b }

  function Max(a: int, b: int): int { if a < b then b else a }

  /** Where a span starts after clamping, and how long it is. */
  function ClampStart(x: int, frame: int): int { Min(Max(0, x), frame - 1) }

  function ClampSide(x: int, w: int, frame: int): int { Min(w, frame - ClampStart(x, frame)) }

  function AreaFraction(f: real): real { if f < 0.05 then 0.05 else if f > 0.95 then 0.95 else f }

  predicate TooLarge(w: int, h: int, frameW: int, frameH: int, fraction: real) {
    (w * h) as real > AreaFraction(fraction) * frameW as real * frameH as real
  }

  function ClampFaceRegion(b: Box, frameW: int, frameH: int, fraction: real): (r: Option<Box>)
    ensures r.Some? ==> Framed(r.value, frameW, frameH)
  {
    if frameW <= 0 || frameH <= 0 || b.w <= 0 || b.h <= 0 then None else
      var c := Box(ClampStart(b.x, frameW), ClampStart(b.y, frameH), ClampSide(b.x, b.w, frameW), ClampSide(b.y, b.h, frameH));
      if c.w < MIN_SIDE || c.h < MIN_SIDE then None
      else if TooLarge(c.w, c.h, frameW, frameH, fraction) then None
      else Some(c)
  }

  /** Inside the frame, and no side below the minimum. */
  predicate Framed(b: Box, frameW: int, frameH: int) {
    0 <= b.x && 0 <= b.y && MIN_SIDE <= b.w && MIN_SIDE <= b.h && b.x + b.w <= frameW && b.y + b.h <= frameH
  }

  /** Pixel `(i, j)` belongs to the box. */
  predicate Inside(b: Box, i: int, j: int) { b.x <= i < b.x + b.w && b.y <= j < b.y + b.h }

  predicate InFrame(i: int, j: int, frameW: int, frameH: int) { 0 <= i < frameW && 0 <= j < frameH }

  ghost predicate IsIntersection(c: Box, b: Box, frameW: int, frameH: int) {
    forall i, j :: Inside(c, i, j) <==> Inside(b, i, j) && InFrame(i, j, frameW, frameH)
  }

  /** Not cut off on the left, or reaching the right edge anyway. */
  predicate SpanKept(x: int, w: int, frame: int) { x >= 0 || x + w >= frame }

  /** An accepted box is the part of the given one that lies in the frame exactly when neither axis is cut off before zero only. */
  lemma ClampIntersects(b: Box, frameW: int, frameH: int, fraction: real, c: Box)
    requires ClampFaceRegion(b, frameW, frameH, fraction) == Some(c)
    ensures IsIntersection(c, b, frameW, frameH) <==> SpanKept(b.x, b.w, frameW) && SpanKept(b.y, b.h, frameH)
  {
    hide TooLarge;
    if !SpanKept(b.x, b.w, frameW) || !SpanKept(b.y, b.h, frameH) {
      var i, j := c.x + c.w - 1, c.y + c.h - 1;
      assert Inside(c, i, j) && !Inside(b, i, j);
    }
  }

  /** A box before the frame altogether is moved into it, not dropped. */
  lemma ClampMoves()
    ensures ClampFaceRegion(Box(-50, 10, 20, 20), 640, 480, 0.5) == Some(Box(0, 10, 20, 20))
    ensures !IsIntersection(Box(0, 10, 20, 20), Box(-50, 10, 20, 20), 640, 480)
  {
    assert AreaFraction(0.5) * 640.0 * 480.0 == 153600.0;
    ClampIntersects(Box(-50, 10, 20, 20), 640, 480, 0.5, Box(0, 10, 20, 20));
  }

  // ---------- smoothing ----------

  /** Python's `round`: to the nearest integer, ties to the even one. */
  function Round(r: real): int {
    var f := r.Floor;
    var d := r - f as real;
    if d < 0.5 then f else if d > 0.5 then f + 1 else if f % 2 == 0 then f else f + 1
  }

  lemma RoundNear(r: real)
    ensures r - 0.5 <= Round(r) as real <= r + 0.5
  {
  }

  lemma RoundMonotone(r: real, n: int)
    ensures n as real <= r ==> n <= Round(r)
    ensures r <= n as real ==> Round(r) <= n
  {
  }

  function Weight(alpha: real): real { if alpha > 1.0 then 1.0 else alpha }

  function Mix(p: real, c: real, a: real): real { a * c + (1.0 - a) * p }

  /** One coordinate of the moving average. */
  function Blend(p: int, c: int, alpha: real): int { Round(Mix(p as real, c as real, Weight(alpha))) }

  function EmaBox(prev: Option<Box>, cur: Box, alpha: real): Box {
    if prev.None? || alpha <= 0.0 then cur else
      var p := prev.value;
      Box(Blend(p.x, cur.x, alpha), Blend(p.y, cur.y, alpha), Blend(p.w, cur.w, alpha), Blend(p.h, cur.h, alpha))
  }

  method EmaBbox(prev: Option<Box>, cur: Box, alpha: real) returns (b: Box)
    ensures b == EmaBox(prev, cur, alpha)
  {
    if prev.None? || alpha <= 0.0 { return cur; }
    hide Round, Mix;
    var a := if alpha > 1.0 then 1.0 else alpha;
    var ps, cs := [prev.value.x, prev.value.y, prev.value.w, prev.value.h], [cur.x, cur.y, cur.w, cur.h];
    var out: seq<int> := [];
    for i := 0 to 4
      invariant |out| == i && forall k :: 0 <= k < i ==> out[k] == Blend(ps[k], cs[k], alpha)
    {
      out := out + [Round(Mix(ps[i] as real, cs[i] as real, a))];
    }
    b := Box(out[0], out[1], out[2], out[3]);
  }

  /** The stream a box belongs to. */
  datatype Face = Face(session: int, participant: string)

  datatype Detection = Detection(face: Face, box: Box, frameW: int, frameH: int)

  datatype Params = Params(fraction: real, alpha: real)

  function Smoothed(last: map<Face, Box>, d: Detection, p: Params): Option<Box> {
    match ClampFaceRegion(d.box, d.frameW, d.frameH, p.fraction)
    case None => None
    case Some(c) => Some(EmaBox(if d.face in last then Some(last[d.face]) else None, c, p.alpha))
  }

  function Step(last: map<Face, Box>, d: Detection, p: Params): map<Face, Box> {
    match Smoothed(last, d, p) case None => last case Some(b) => last[d.face := b]
  }

  class FaceModule {
    const params: Params
    var lastDebugBbox: map<Face, Box>

    constructor (params: Params)
      ensures this.params == params && lastDebugBbox == map[]
    {
      this.params := params;
      lastDebugBbox := map[];
    }

    method DebugBox(d: Detection) returns (shown: Option<Box>)
      modifies this
      ensures shown == Smoothed(old(lastDebugBbox), d, params)
      ensures lastDebugBbox == Step(old(lastDebugBbox), d, params)
    {
      var clamped := ClampFaceRegion(d.box, d.frameW, d.frameH, params.fraction);
      if clamped.None? { return None; }
      var b := clamped.value;
      if params.alpha > 0.0 {
        b := EmaBbox(if d.face in lastDebugBbox then Some(lastDebugBbox[d.face]) else None, b, params.alpha);
      }
      lastDebugBbox := lastDebugBbox[d.face := b];
      shown := Some(b);
    }
  }

  // ---------- the smoothed box stays near the frame ----------

  /** Starts inside the frame, no side below the minimum, and at most one pixel over the far edges. */
  predicate NearFrame(b: Box, frameW: int, frameH: int) {
    && 0 <= b.x < frameW && 0 <= b.y < frameH && MIN_SIDE <= b.w && MIN_SIDE <= b.h
    && b.x + b.w <= frameW + 1 && b.y + b.h <= frameH + 1
  }

  lemma Product(a: real, b: real)
    requires a >= 0.0 && b >= 0.0
    ensures a * b >= 0.0
  {
  }

  /** The average seen from either end. */
  lemma MixShift(p: real, c: real, a: real)
    ensures Mix(p, c, a) == p + a * (c - p) == c + (1.0 - a) * (p - c)
  {
  }

  /** The average lies between its two ends. */
  lemma MixBetween(p: real, c: real, a: real)
    requires 0.0 <= a <= 1.0
    ensures p <= c ==> p <= Mix(p, c, a) <= c
    ensures c <= p ==> c <= Mix(p, c, a) <= p
  {
    MixShift(p, c, a);
    MixShift(c, p, 1.0 - a);
    hide Mix;
    if p <= c {
      Product(a, c - p);
      Product(1.0 - a, c - p);
      assert (1.0 - a) * (p - c) == -((1.0 - a) * (c - p));
    } else {
      Product(a, p - c);
      Product(1.0 - a, p - c);
      assert a * (c - p) == -(a * (p - c));
    }
  }

  /** And so does its rounding. */
  lemma BlendBetween(p: int, c: int, alpha: real)
    requires 0.0 < alpha
    ensures Min(p, c) <= Blend(p, c, alpha) <= Max(p, c)
  {
    var r := Mix(p as real, c as real, Weight(alpha));
    MixBetween(p as real, c as real, Weight(alpha));
    hide Mix, Round;
    RoundMonotone(r, Min(p, c));
    RoundMonotone(r, Max(p, c));
  }

  lemma MixSum(px: real, pw: real, cx: real, cw: real, a: real)
    ensures Mix(px, cx, a) + Mix(pw, cw, a) == Mix(px + pw, cx + cw, a)
  {
  }

  lemma MixBelow(p: real, c: real, f: real, a: real)
    requires 0.0 < a <= 1.0 && c <= f && p <= f + 1.0
    ensures Mix(p, c, a) < f + 1.0
  {
    Product(a, f - c);
    Product(1.0 - a, f + 1.0 - p);
    assert a * (f - c) + (1.0 - a) * (f + 1.0 - p) == f + 1.0 - a - Mix(p, c, a) by {
      assert a * (f - c) == a * f - a * c;
      assert (1.0 - a) * (f + 1.0 - p) == f + 1.0 - a * f - a - (1.0 - a) * p;
    }
  }

  /** Rounding start and length separately costs at most one pixel over the far edge. */
  lemma BlendEdge(px: int, pw: int, cx: int, cw: int, frame: int, alpha: real)
    requires 0.0 < alpha && px + pw <= frame + 1 && cx + cw <= frame
    ensures Blend(px, cx, alpha) + Blend(pw, cw, alpha) <= frame + 1
  {
    var a := Weight(alpha);
    var x, w := Mix(px as real, cx as real, a), Mix(pw as real, cw as real, a);
    MixSum(px as real, pw as real, cx as real, cw as real, a);
    MixBelow((px + pw) as real, (cx + cw) as real, frame as real, a);
    hide Mix, Round;
    RoundNear(x);
    RoundNear(w);
  }

  lemma EmaNear(prev: Option<Box>, cur: Box, alpha: real, frameW: int, frameH: int)
    requires Framed(cur, frameW, frameH) && (prev.Some? ==> NearFrame(prev.value, frameW, frameH))
    ensures NearFrame(EmaBox(prev, cur, alpha), frameW, frameH)
  {
    hide Blend;
    if prev.Some? && alpha > 0.0 {
      var p := prev.value;
      BlendBetween(p.x, cur.x, alpha);
      BlendBetween(p.y, cur.y, alpha);
      BlendBetween(p.w, cur.w, alpha);
      BlendBetween(p.h, cur.h, alpha);
      BlendEdge(p.x, p.w, cur.x, cur.w, frameW, alpha);
      BlendEdge(p.y, p.h, cur.y, cur.h, frameH, alpha);
    }
  }

  function Run(ds: seq<Detection>, p: Params): map<Face, Box> {
    if ds == [] then map[] else Step(Run(ds[..|ds| - 1], p), ds[|ds| - 1], p)
  }

  predicate OneSize(ds: seq<Detection>, face: Face, frameW: int, frameH: int) {
    forall d :: d in ds && d.face == face ==> d.frameW == frameW && d.frameH == frameH
  }

  /** Over any run on frames of one size, whatever the detector says, a smoothed box stays near the frame. */
  lemma {:induction false} SmoothedNearFrame(ds: seq<Detection>, p: Params, face: Face, frameW: int, frameH: int)
    requires OneSize(ds, face, frameW, frameH) && face in Run(ds, p)
    ensures NearFrame(Run(ds, p)[face], frameW, frameH)
  {
    if ds != [] {
      var n := |ds| - 1;
      var last := Run(ds[..n], p);
      var d := ds[n];
      assert d in ds;
      if face in last { SmoothedNearFrame(ds[..n], p, face, frameW, frameH); }
      hide NearFrame, Framed, EmaBox;
      if d.face == face && Smoothed(last, d, p).Some? {
        var c := ClampFaceRegion(d.box, d.frameW, d.frameH, p.fraction).value;
        hide ClampFaceRegion;
        EmaNear(if face in last then Some(last[face]) else None, c, p.alpha, frameW, frameH);
      }
    }
  }

  // ---------- when it leaves the frame ----------

  /** A tie that rounds up: halfway above an odd integer. */
  predicate OddTie(r: real) { r == r.Floor as real + 0.5 && r.Floor % 2 == 1 }

  lemma RoundUpExactly(r: real)
    ensures Round(r) as real == r + 0.5 <==> OddTie(r)
  {
  }

  /** Both averages of an axis are ties that round up, and together they just fill the frame. */
  predicate TiesOut(px: int, pw: int, cx: int, cw: int, frame: int, alpha: real) {
    var x, w := Mix(px as real, cx as real, Weight(alpha)), Mix(pw as real, cw as real, Weight(alpha));
    x + w == frame as real && OddTie(x) && OddTie(w)
  }

  /** From inside the frame, an axis leaves it exactly by such a double tie, which takes a frame of odd size. */
  lemma EdgeExactly(px: int, pw: int, cx: int, cw: int, frame: int, alpha: real)
    requires 0.0 < alpha && px + pw <= frame && cx + cw <= frame
    ensures Blend(px, cx, alpha) + Blend(pw, cw, alpha) > frame <==> TiesOut(px, pw, cx, cw, frame, alpha)
    ensures TiesOut(px, pw, cx, cw, frame, alpha) ==> frame % 2 == 1
  {
    var a := Weight(alpha);
    var x, w := Mix(px as real, cx as real, a), Mix(pw as real, cw as real, a);
    MixSum(px as real, pw as real, cx as real, cw as real, a);
    MixBetween((px + pw) as real, (cx + cw) as real, a);
    hide Mix;
    RoundNear(x);
    RoundNear(w);
    RoundUpExactly(x);
    RoundUpExactly(w);
    hide Round;
    TieParity(x, w, frame);
  }

  lemma TieParity(x: real, w: real, frame: int)
    ensures OddTie(x) && OddTie(w) && x + w == frame as real ==> frame % 2 == 1
  {
    if OddTie(x) && OddTie(w) && x + w == frame as real {
      assert frame == x.Floor + w.Floor + 1;
    }
  }

  /** A detection whose smoothing against the last box is a double tie on one of the axes. */
  predicate TieStep(last: map<Face, Box>, d: Detection, p: Params) {
    var c := ClampFaceRegion(d.box, d.frameW, d.frameH, p.fraction);
    d.face in last && c.Some? && p.alpha > 0.0 &&
    var q := last[d.face];
    TiesOut(q.x, q.w, c.value.x, c.value.w, d.frameW, p.alpha) || TiesOut(q.y, q.h, c.value.y, c.value.h, d.frameH, p.alpha)
  }

  lemma EmaInsideExactly(prev: Box, cur: Box, alpha: real, frameW: int, frameH: int)
    requires Framed(prev, frameW, frameH) && Framed(cur, frameW, frameH) && 0.0 < alpha
    ensures Framed(EmaBox(Some(prev), cur, alpha), frameW, frameH) <==>
      !TiesOut(prev.x, prev.w, cur.x, cur.w, frameW, alpha) && !TiesOut(prev.y, prev.h, cur.y, cur.h, frameH, alpha)
  {
    hide Blend, TiesOut;
    BlendBetween(prev.x, cur.x, alpha);
    BlendBetween(prev.y, cur.y, alpha);
    BlendBetween(prev.w, cur.w, alpha);
    BlendBetween(prev.h, cur.h, alpha);
    EdgeExactly(prev.x, prev.w, cur.x, cur.w, frameW, alpha);
    EdgeExactly(prev.y, prev.h, cur.y, cur.h, frameH, alpha);
  }

  predicate FaceFramed(last: map<Face, Box>, face: Face, frameW: int, frameH: int) {
    face in last ==> Framed(last[face], frameW, frameH)
  }

  lemma StepInsideExactly(last: map<Face, Box>, d: Detection, p: Params, face: Face, frameW: int, frameH: int)
    requires FaceFramed(last, face, frameW, frameH) && (d.face == face ==> d.frameW == frameW && d.frameH == frameH)
    ensures FaceFramed(Step(last, d, p), face, frameW, frameH) <==> !(d.face == face && TieStep(last, d, p))
    ensures frameW % 2 == 0 && frameH % 2 == 0 && d.face == face ==> !TieStep(last, d, p)
  {
    var c := ClampFaceRegion(d.box, d.frameW, d.frameH, p.fraction);
    hide ClampFaceRegion, Framed, TiesOut, Blend;
    if d.face == face && face in last && c.Some? && p.alpha > 0.0 {
      var q := last[face];
      EmaInsideExactly(q, c.value, p.alpha, frameW, frameH);
      FramedEdges(q, frameW, frameH);
      FramedEdges(c.value, frameW, frameH);
      EdgeExactly(q.x, q.w, c.value.x, c.value.w, frameW, p.alpha);
      EdgeExactly(q.y, q.h, c.value.y, c.value.h, frameH, p.alpha);
    }
  }

  lemma FramedEdges(b: Box, frameW: int, frameH: int)
    requires Framed(b, frameW, frameH)
    ensures b.x + b.w <= frameW && b.y + b.h <= frameH
  {
  }

  /** After every detection of the run so far the face's box was inside the frame. */
  predicate StaysInside(ds: seq<Detection>, p: Params, face: Face, frameW: int, frameH: int) {
    FaceFramed(Run(ds, p), face, frameW, frameH) && (ds != [] ==> StaysInside(ds[..|ds| - 1], p, face, frameW, frameH))
  }

  /** Some detection of the run was a double tie for the face. */
  predicate Ties(ds: seq<Detection>, p: Params, face: Face) {
    ds != [] &&
    var d, before := ds[|ds| - 1], ds[..|ds| - 1];
    (d.face == face && TieStep(Run(before, p), d, p)) || Ties(before, p, face)
  }

  /** Over any run on frames of one size a face's box never leaves the frame if and only if no step is a double tie. */
  lemma {:induction false} InsideExactly(ds: seq<Detection>, p: Params, face: Face, frameW: int, frameH: int)
    requires OneSize(ds, face, frameW, frameH)
    ensures StaysInside(ds, p, face, frameW, frameH) <==> !Ties(ds, p, face)
  {
    if ds != [] {
      var n := |ds| - 1;
      assert ds[n] in ds;
      assert OneSize(ds[..n], face, frameW, frameH);
      InsideExactly(ds[..n], p, face, frameW, frameH);
      hide FaceFramed, TieStep, Step, OneSize;
      if StaysInside(ds[..n], p, face, frameW, frameH) {
        StepInsideExactly(Run(ds[..n], p), ds[n], p, face, frameW, frameH);
      }
    }
  }

  /** On frames of even size it never does. */
  lemma {:induction false} EvenFramesKeep(ds: seq<Detection>, p: Params, face: Face, frameW: int, frameH: int)
    requires OneSize(ds, face, frameW, frameH) && frameW % 2 == 0 && frameH % 2 == 0
    ensures StaysInside(ds, p, face, frameW, frameH)
  {
    if ds != [] {
      var n := |ds| - 1;
      assert ds[n] in ds;
      assert OneSize(ds[..n], face, frameW, frameH);
      EvenFramesKeep(ds[..n], p, face, frameW, frameH);
      hide FaceFramed, TieStep, Step, OneSize;
      StepInsideExactly(Run(ds[..n], p), ds[n], p, face, frameW, frameH);
    }
  }

  /** On an odd frame two ordinary detections are enough to put the box one pixel outside. */
  lemma EdgeExceeded(face: Face)
    ensures var ds := [Detection(face, Box(2, 0, 99, 20), 101, 50), Detection(face, Box(1, 0, 100, 20), 101, 50)];
      var after := Run(ds, Params(0.9, 0.5));
      face in after && after[face] == Box(2, 0, 100, 20) && !Framed(after[face], 101, 50)
  {
    var p := Params(0.9, 0.5);
    var ds := [Detection(face, Box(2, 0, 99, 20), 101, 50), Detection(face, Box(1, 0, 100, 20), 101, 50)];
    assert ds[..1] == [ds[0]] && ds[..1][..0] == [];
    assert AreaFraction(0.9) * 101.0 * 50.0 == 4545.0;
    assert !TooLarge(99, 20, 101, 50, 0.9) && !TooLarge(100, 20, 101, 50, 0.9);
    hide TooLarge;
    assert Mix(2.0, 1.0, 0.5) == 1.5 && Mix(99.0, 100.0, 0.5) == 99.5;
    assert Mix(0.0, 0.0, 0.5) == 0.0 && Mix(20.0, 20.0, 0.5) == 20.0;
    hide Mix;
    assert Run(ds[..1][..0], p) == map[];
    assert Run(ds[..1], p) == map[face := Box(2, 0, 99, 20)];
  }

  // ---------- a fixed target ----------

  function Distance(a: int, b: int): nat { if a < b then b - a else a - b }

  /** `n` steps towards the same target. */
  function Towards(p: int, c: int, alpha: real, n: nat): int {
    if n == 0 then p else Blend(Towards(p, c, alpha, n - 1), c, alpha)
  }

  /** A distance weighted with alpha: above a half means a distance above `1 / (2 * alpha)`. */
  function Pull(d: nat, alpha: real): real { alpha * d as real }

  /** A step moves a coordinate when its weighted distance is over a half, and leaves it when under a half. */
  lemma BlendMoves(p: int, c: int, alpha: real)
    requires 0.0 < alpha <= 1.0
    ensures Pull(Distance(p, c), alpha) > 0.5 ==> Distance(Blend(p, c, alpha), c) < Distance(p, c)
    ensures Pull(Distance(p, c), alpha) < 0.5 ==> Blend(p, c, alpha) == p
  {
    var r := Mix(p as real, c as real, alpha);
    var d := Distance(p, c);
    PullShift(p, c, alpha);
    Product(alpha, d as real);
    BlendBetween(p, c, alpha);
    RoundNear(r);
    hide Mix, Round, Pull;
    assert Blend(p, c, alpha) == Round(r);
  }

  lemma PullShift(p: int, c: int, alpha: real)
    requires 0.0 < alpha <= 1.0
    ensures var pull := Pull(Distance(p, c), alpha);
      Mix(p as real, c as real, alpha) == if p <= c then p as real + pull else p as real - pull
    ensures Pull(Distance(p, c), alpha) >= 0.0
  {
    MixShift(p as real, c as real, alpha);
    hide Mix;
    Product(alpha, Distance(p, c) as real);
    if p > c { Negate(alpha, p as real - c as real); }
  }

  lemma Negate(a: real, b: real)
    ensures a * -b == -(a * b)
  {
  }

  /** Towards a fixed target a coordinate's distance never grows, and soon is at most `1 / (2 * alpha)`. */
  lemma {:induction false} Approaches(p: int, c: int, alpha: real, n: nat)
    requires 0.0 < alpha <= 1.0
    ensures Distance(Towards(p, c, alpha, n), c) <= Distance(p, c)
    ensures n >= Distance(p, c) ==> Pull(Distance(Towards(p, c, alpha, n), c), alpha) <= 0.5
    ensures n >= Distance(p, c) && alpha > 0.5 ==> Towards(p, c, alpha, n) == c
  {
    Closer(p, c, alpha, n);
    hide Towards;
    var d := Distance(Towards(p, c, alpha, n), c);
    if d >= 1 {
      Product(alpha, d as real - 1.0);
      assert alpha * (d as real - 1.0) == alpha * d as real - alpha;
    } else {
      assert alpha * d as real == 0.0;
    }
  }

  /** Either the distance has shrunk by one each step, or it is down to where steps may stop moving. */
  lemma {:induction false} Closer(p: int, c: int, alpha: real, n: nat)
    requires 0.0 < alpha <= 1.0
    ensures var d := Distance(Towards(p, c, alpha, n), c);
      d <= Distance(p, c) && (d + n <= Distance(p, c) || Pull(d, alpha) <= 0.5)
  {
    if n > 0 {
      var q := Towards(p, c, alpha, n - 1);
      Closer(p, c, alpha, n - 1);
      BlendMoves(q, c, alpha);
      BlendBetween(q, c, alpha);
      hide Blend, Pull;
      NearerWeighs(Distance(Blend(q, c, alpha), c), Distance(q, c), alpha);
    }
  }

  lemma NearerWeighs(d: nat, e: nat, alpha: real)
    requires d <= e && 0.0 < alpha
    ensures Pull(d, alpha) <= Pull(e, alpha)
  {
    Product(alpha, e as real - d as real);
    assert alpha * (e as real - d as real) == alpha * e as real - alpha * d as real;
  }

  // ---------- clamping and smoothing, told without their formulas ----------

  /** `x'`, `w'` is the span cut to the frame: moved to its nearest pixel if it starts outside, then as long as fits. */
  predicate CutTo(x: int, w: int, frame: int, x': int, w': int) {
    && 0 <= x' < frame && (0 <= x < frame ==> x' == x) && (x < 0 ==> x' == 0) && (x >= frame ==> x' == frame - 1)
    && w' <= w && x' + w' <= frame && (w' == w || x' + w' == frame)
  }

  /**
    A box comes out as another if and only if both have an extent, that is the given one cut to the frame, neither of
    its sides is under eight pixels, and it covers at most the given share of the frame, a share between 5% and 95%.
  */
  lemma ClampExactly(b: Box, frameW: int, frameH: int, fraction: real, c: Box)
    ensures var share := if fraction < 0.05 then 0.05 else if fraction > 0.95 then 0.95 else fraction;
      ClampFaceRegion(b, frameW, frameH, fraction) == Some(c) <==> (
        && 0 < frameW && 0 < frameH && 0 < b.w && 0 < b.h
        && CutTo(b.x, b.w, frameW, c.x, c.w) && CutTo(b.y, b.h, frameH, c.y, c.h)
        && 8 <= c.w && 8 <= c.h && (c.w * c.h) as real <= share * frameW as real * frameH as real)
  {
    CutExactly(b.x, b.w, frameW, c.x, c.w);
    CutExactly(b.y, b.h, frameH, c.y, c.h);
    hide CutTo, ClampStart, ClampSide;
  }

  lemma CutExactly(x: int, w: int, frame: int, x': int, w': int)
    ensures 0 < frame ==> (CutTo(x, w, frame, x', w') <==> x' == ClampStart(x, frame) && w' == ClampSide(x, w, frame))
  {
  }

  /** `n` is the integer nearest to `r`, the even one if two are. */
  predicate NearestTo(n: int, r: real) {
    && r - 0.5 <= n as real <= r + 0.5
    && (n as real == r - 0.5 || n as real == r + 0.5 ==> n % 2 == 0)
  }

  lemma RoundExactly(r: real, n: int)
    ensures NearestTo(n, r) <==> n == Round(r)
  {
    var f := r.Floor;
    if NearestTo(n, r) { assert f as real - 0.5 <= n as real <= f as real + 1.5; }
  }

  /** The integer nearest to the average of the remembered and the new value, the new one weighted `alpha` but at most 1. */
  predicate Averaged(n: int, remembered: int, now: int, alpha: real) {
    var a := if alpha < 1.0 then alpha else 1.0;
    NearestTo(n, a * now as real + (1.0 - a) * remembered as real)
  }

  /**
    What is shown and remembered of a detection: nothing if the box is refused; the clamped box, if smoothing is off or
    no box of this face is remembered; otherwise the average of the two in each coordinate. No other face's box changes.
  */
  lemma ShownExactly(last: map<Face, Box>, d: Detection, p: Params)
    ensures var clamped := ClampFaceRegion(d.box, d.frameW, d.frameH, p.fraction);
      var shown := Smoothed(last, d, p);
      && (shown.Some? <==> clamped.Some?)
      && Step(last, d, p) == (if shown.Some? then last[d.face := shown.value] else last)
      && (shown.Some? ==>
           var c, b := clamped.value, shown.value;
           if d.face !in last || p.alpha <= 0.0 then b == c else
             var q := last[d.face];
             && Averaged(b.x, q.x, c.x, p.alpha) && Averaged(b.y, q.y, c.y, p.alpha)
             && Averaged(b.w, q.w, c.w, p.alpha) && Averaged(b.h, q.h, c.h, p.alpha))
  {
    hide Averaged, Blend, ClampFaceRegion;
    var clamped := ClampFaceRegion(d.box, d.frameW, d.frameH, p.fraction);
    if clamped.Some? && d.face in last {
      var c, q := clamped.value, last[d.face];
      BlendNearest(q.x, c.x, p.alpha);
      BlendNearest(q.y, c.y, p.alpha);
      BlendNearest(q.w, c.w, p.alpha);
      BlendNearest(q.h, c.h, p.alpha);
    }
  }

  lemma BlendNearest(p: int, c: int, alpha: real)
    ensures Averaged(Blend(p, c, alpha), p, c, alpha)
  {
    var a := if alpha < 1.0 then alpha else 1.0;
    assert a == Weight(alpha);
    var r := a * c as real + (1.0 - a) * p as real;
    assert r == Mix(p as real, c as real, a);
    RoundExactly(r, Blend(p, c, alpha));
    hide NearestTo, Round, Weight, Mix;
  }
}
