// Feature rows as the gateway stores them, and how the report code reads their loosely typed fields.
module Features {
  import opened Outcomes

  /** A dictionary field: missing (or None), a text, or something else with its truth value and its `str()`. */
  datatype Field = Absent | Text(text: string) | Other(truthy: bool, repr: string)

  /** A timestamp field: missing, a number, a text (with what `float()` makes of it), or something `float()` refuses. */
  datatype Stamp = NoStamp | Number(value: real) | TextStamp(parsed: Option<real>) | BadStamp

  /** `detectedFalse`: the field `face_detected` is literally False. */
  datatype FaceFeatures = FaceFeatures(detectedFalse: bool, dominant: Field)

  /**
    `face` and `payloadFace`: a non-empty `face_features` dictionary in `data`, and in `data.payload`;
    `transcript`: the payload's `transcript_final`, or else its `transcript_partial`.
  */
  datatype Feature = Feature(ts: Stamp, kind: Field, participant: Field, trace: Field,
                             face: Option<FaceFeatures>, payloadFace: Option<FaceFeatures>, transcript: Field)

  /** `str.isspace` on the characters that `str.strip` removes. */
  predicate IsSpace(c: char) {
    var n := c as int;
    n in {9, 10, 11, 12, 13, 28, 29, 30, 31, 32, 0x85, 0xA0, 0x1680, 0x2028, 0x2029, 0x202F, 0x205F, 0x3000} || 0x2000 <= n <= 0x200A
  }

  function Strip(s: string): string {
    if s == [] then s
    else if IsSpace(s[0]) then Strip(s[1..])
    else if IsSpace(s[|s| - 1]) then Strip(s[..|s| - 1])
    else s
  }

  /** All of a text from position `i` up to `j`, the rest being space, and what is kept not starting or ending with any. */
  predicate StrippedTo(s: string, i: nat, j: nat) {
    && i <= j <= |s|
    && (forall k :: 0 <= k < i ==> IsSpace(s[k])) && (forall k :: j <= k < |s| ==> IsSpace(s[k]))
    && (i < j ==> !IsSpace(s[i]) && !IsSpace(s[j - 1]))
  }

  /** Stripping removes exactly the space at both ends. */
  lemma {:induction false} StripExactly(s: string) returns (i: nat, j: nat)
    ensures StrippedTo(s, i, j) && Strip(s) == s[i..j]
    decreases |s|
  {
    hide IsSpace;
    i, j := 0, |s|;
    if s != [] && IsSpace(s[0]) {
      var t := s[1..];
      assert Strip(s) == Strip(t);
      hide Strip;
      i, j := StripExactly(t);
      assert t[i..j] == s[i + 1..j + 1];
      i, j := i + 1, j + 1;
      assert forall k :: j <= k < |s| ==> s[k] == t[k - 1];
      assert forall k :: 1 <= k < i ==> s[k] == t[k - 1];
    } else if s != [] && IsSpace(s[|s| - 1]) {
      var t := s[..|s| - 1];
      assert Strip(s) == Strip(t);
      hide Strip;
      i, j := StripExactly(t);
      assert t[i..j] == s[i..j];
      assert forall k :: 0 <= k < |t| ==> s[k] == t[k];
    }
  }

  /** Some character is not a space. */
  predicate Speaks(s: string) { exists k :: 0 <= k < |s| && !IsSpace(s[k]) }

  lemma StripBlank(s: string)
    ensures Strip(s) != "" <==> Speaks(s)
  {
    var i, j := StripExactly(s);
    hide IsSpace, Strip;
    if i < j { assert !IsSpace(s[i]); }
  }

  /** `f.get("kind") or "unknown"`, when that is a text. */
  function KindOf(f: Feature): Option<string> {
    match f.kind
    case Absent => Some("unknown")
    case Text(s) => Some(if s == "" then "unknown" else s)
    case Other(truthy, _) => if truthy then None else Some("unknown")
  }

  /** `str(f.get("participant_id") or "unknown")`. */
  function PidOf(f: Feature): string {
    match f.participant
    case Absent => "unknown"
    case Text(s) => if s == "" then "unknown" else s
    case Other(truthy, repr) => if truthy then repr else "unknown"
  }

  function TraceOf(f: Feature): Option<string> {
    if f.trace.Text? && Strip(f.trace.text) != "" then Some(Strip(f.trace.text)) else None
  }

  /** The time used for fusion: anything that is not a number counts as zero. */
  function TimeOf(f: Feature): real {
    match f.ts
    case Number(r) => r
    case TextStamp(Some(r)) => r
    case _ => 0.0
  }

  /** How each field of a row is read: every value that Python counts as false reads as missing. */
  lemma ReadExactly(f: Feature)
    ensures KindOf(f).Some? <==> !(f.kind.Other? && f.kind.truthy)
    ensures KindOf(f).Some? ==> KindOf(f).value == if f.kind.Text? && f.kind.text != "" then f.kind.text else "unknown"
    ensures f.participant.Text? && f.participant.text != "" ==> PidOf(f) == f.participant.text
    ensures f.participant.Other? && f.participant.truthy ==> PidOf(f) == f.participant.repr
    ensures f.participant in {Absent, Text("")} || (f.participant.Other? && !f.participant.truthy) ==> PidOf(f) == "unknown"
    ensures TraceOf(f).Some? <==> f.trace.Text? && Speaks(f.trace.text)
    ensures TraceOf(f).Some? ==> exists i: nat, j: nat :: StrippedTo(f.trace.text, i, j) && TraceOf(f).value == f.trace.text[i..j]
    ensures f.ts.Number? ==> TimeOf(f) == f.ts.value
    ensures f.ts.TextStamp? && f.ts.parsed.Some? ==> TimeOf(f) == f.ts.parsed.value
    ensures f.ts in {NoStamp, BadStamp, TextStamp(None)} ==> TimeOf(f) == 0.0
  {
    if f.trace.Text? {
      var i, j := StripExactly(f.trace.text);
      StripBlank(f.trace.text);
    }
    hide Strip, StrippedTo, Speaks;
  }

  /** `int(ts // size)`. */
  function Bucket(ts: real, size: real): int
    requires size > 0.0
  {
    (ts / size).Floor
  }

  /** A row lies in the bucket of its index, and in no other. */
  lemma BucketBounds(ts: real, size: real, b: int)
    requires size > 0.0
    ensures b == Bucket(ts, size) <==> b as real * size <= ts < (b + 1) as real * size
  {
    var q := ts / size;
    assert q * size == ts;
    assert (b + 1) as real == b as real + 1.0;
    assert b == q.Floor <==> b as real <= q < (b + 1) as real;
    Scale(b as real, q, size);
    Scale((b + 1) as real, q, size);
  }

  lemma Scale(a: real, q: real, size: real)
    requires size > 0.0
    ensures a <= q <==> a * size <= q * size
  {
    if a > q { assert (a - q) * size > 0.0; } else { assert (q - a) * size >= 0.0; }
  }

  // ---------- the text key of a bucket ----------

  function Digit(d: nat): char
    requires d < 10
  {
    ('0' as int + d) as char
  }

  function Digits(n: nat): string {
    if n < 10 then [Digit(n)] else Digits(n / 10) + [Digit(n % 10)]
  }

  function Decimal(n: int): string {
    if n < 0 then "-" + Digits(-n) else Digits(n)
  }

  /** `f"{pid}|{b}"`. */
  function Key(pid: string, b: int): string {
    pid + "|" + Decimal(b)
  }

  lemma {:induction false} DigitsPlain(n: nat)
    ensures Digits(n) != [] && forall c :: c in Digits(n) ==> '0' <= c <= '9'
  {
    if n >= 10 { DigitsPlain(n / 10); }
  }

  lemma {:induction false} DigitsInjective(m: nat, n: nat)
    requires Digits(m) == Digits(n)
    ensures m == n
  {
    DigitsPlain(m / 10);
    DigitsPlain(n / 10);
    if m >= 10 && n >= 10 {
      assert Digits(m)[..|Digits(m)| - 1] == Digits(m / 10);
      assert Digits(n)[..|Digits(n)| - 1] == Digits(n / 10);
      assert Digits(m)[|Digits(m)| - 1] == Digits(n)[|Digits(n)| - 1];
      DigitsInjective(m / 10, n / 10);
    } else {
      assert |Digits(m)| == 1 <==> m < 10;
      assert |Digits(n)| == 1 <==> n < 10;
      assert Digits(m)[0] == Digits(n)[0];
    }
  }

  lemma DecimalPlain(n: int)
    ensures '|' !in Decimal(n)
  {
    DigitsPlain(if n < 0 then -n else n);
  }

  lemma DecimalInjective(m: int, n: int)
    requires Decimal(m) == Decimal(n)
    ensures m == n
  {
    DigitsPlain(if m < 0 then -m else m);
    DigitsPlain(if n < 0 then -n else n);
    assert Digits(if m < 0 then -m else m)[0] in Digits(if m < 0 then -m else m);
    assert Digits(if n < 0 then -n else n)[0] in Digits(if n < 0 then -n else n);
    assert m < 0 <==> Decimal(m)[0] == '-';
    assert n < 0 <==> Decimal(n)[0] == '-';
    if m < 0 {
      assert Decimal(m)[1..] == Digits(-m) && Decimal(n)[1..] == Digits(-n);
      DigitsInjective(-m, -n);
    } else {
      DigitsInjective(m, n);
    }
  }

  /** The key separates participant and index although a participant id may contain the separator itself. */
  lemma KeyInjective(p: string, a: int, q: string, b: int)
    requires Key(p, a) == Key(q, b)
    ensures p == q && a == b
  {
    var k := Key(p, a);
    DecimalPlain(a);
    DecimalPlain(b);
    hide Decimal;
    assert k[|p|] == '|' && k[|q|] == '|';
    assert forall i :: |p| < i < |k| ==> k[i] == Decimal(a)[i - |p| - 1];
    assert forall i :: |q| < i < |k| ==> k[i] == Decimal(b)[i - |q| - 1];
    assert |p| == |q|;
    assert k[|p| + 1..] == Decimal(a) && k[|q| + 1..] == Decimal(b);
    assert k[..|p|] == p && k[..|q|] == q;
    DecimalInjective(a, b);
  }
}
