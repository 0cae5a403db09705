// What travels over a session socket, and the whitespace trimming applied to ids on the way.
module Wire {
  import opened Outcomes

  /**
    A decoded JSON payload: its string-valued fields, and its `participants` field when that is an
    array (items that are not records read as records without fields).
  */
  datatype Payload = NotRecord | Record(text: map<string, string>, participants: Option<seq<map<string, string>>>)

  /** A relayed client message, or an event of the server's own. */
  datatype Envelope =
    | WSMessage(typ: string, sid: int, participant: string, payload: Payload)
    | WSEvent(typ: string, payload: Payload)

  /** The `participant_id` member of the envelope itself; server events have none. */
  function ParticipantOf(m: Envelope): string {
    if m.WSMessage? then m.participant else ""
  }

  function TextField(p: Payload, key: string): Option<string> {
    if p.Record? && key in p.text then Some(p.text[key]) else None
  }

  function FieldOr(p: Payload, key: string, default: string): string {
    match TextField(p, key) case Some(v) => v case None => default
  }

  /** `strings.TrimSpace`. */
  predicate IsSpace(c: char) {
    var n := c as int;
    n in {9, 10, 11, 12, 13, 32, 0x85, 0xA0, 0x1680, 0x2028, 0x2029, 0x202F, 0x205F, 0x3000} || 0x2000 <= n <= 0x200A
  }

  function Trim(s: string): (t: string)
    ensures t != [] ==> !IsSpace(t[0]) && !IsSpace(t[|t| - 1])
    ensures |t| <= |s|
  {
    if s == [] then s
    else if IsSpace(s[0]) then Trim(s[1..])
    else if IsSpace(s[|s| - 1]) then Trim(s[..|s| - 1])
    else s
  }

  /** All of a text from position `i` up to `j`, the rest being space, and what is kept not starting or ending with any. */
  predicate TrimmedTo(s: string, i: nat, j: nat, t: string) {
    && i <= j <= |s| && t == s[i..j]
    && (forall k :: 0 <= k < i ==> IsSpace(s[k])) && (forall k :: j <= k < |s| ==> IsSpace(s[k]))
    && (t != [] ==> !IsSpace(t[0]) && !IsSpace(t[|t| - 1]))
  }

  lemma SpaceBefore(s: string, i: nat, j: nat, t: string)
    requires s != [] && IsSpace(s[0]) && TrimmedTo(s[1..], i, j, t)
    ensures TrimmedTo(s, i + 1, j + 1, t)
  {
    hide IsSpace;
    assert forall k :: 1 <= k < |s| ==> s[k] == s[1..][k - 1];
  }

  lemma SpaceAfter(s: string, i: nat, j: nat, t: string)
    requires s != [] && IsSpace(s[|s| - 1]) && TrimmedTo(s[..|s| - 1], i, j, t)
    ensures TrimmedTo(s, i, j, t)
  {
    hide IsSpace;
    assert forall k :: 0 <= k < |s| - 1 ==> s[k] == s[..|s| - 1][k];
  }

  /** Trimming removes exactly the space at both ends. */
  lemma {:induction false} TrimExactly(s: string) returns (i: nat, j: nat)
    ensures TrimmedTo(s, i, j, Trim(s))
    decreases |s|
  {
    hide IsSpace;
    i, j := 0, |s|;
    if s != [] && IsSpace(s[0]) {
      i, j := TrimExactly(s[1..]);
      SpaceBefore(s, i, j, Trim(s[1..]));
      i, j := i + 1, j + 1;
    } else if s != [] && IsSpace(s[|s| - 1]) {
      i, j := TrimExactly(s[..|s| - 1]);
      SpaceAfter(s, i, j, Trim(s[..|s| - 1]));
    }
  }

  lemma TrimTwice(s: string)
    ensures Trim(Trim(s)) == Trim(s)
  {
  }

  /** The name shown for a participant who gave none. */
  function Shown(id: string, name: string): (n: string)
    ensures n != [] && (name != "" ==> n == name) && (name == "" ==> n == "Participant " + id)
  {
    if name == "" then "Participant " + id else name
  }
}
