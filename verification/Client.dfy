// The browser side: how a client turns each message into store operations.
module Client {
  import opened Outcomes
  import opened Wire

  datatype Tile = Tile(id: string, name: string, emotion: Option<string>, confidence: Option<real>, faceSignal: Option<bool>)

  datatype View = View(participants: map<string, Tile>, toasts: seq<string>)

  datatype Entry = Entry(id: string, name: string)

  // ---------- what each store operation yields ----------

  function Upserted(v: View, id: string, name: string): View {
    var tile := if id in v.participants then v.participants[id].(id := id, name := name) else Tile(id, name, None, None, None);
    v.(participants := v.participants[id := tile])
  }

  function Removed(v: View, id: string): View {
    v.(participants := v.participants - {id})
  }

  function FromSnapshot(prev: map<string, Tile>, list: seq<Entry>): map<string, Tile> {
    if list == [] then map[]
    else
      var e := list[|list| - 1];
      FromSnapshot(prev, list[..|list| - 1])[e.id := SnapshotTile(prev, e)]
  }

  function SnapshotTile(prev: map<string, Tile>, e: Entry): Tile {
    var was := if e.id in prev then prev[e.id] else Tile(e.id, e.name, None, None, None);
    Tile(e.id, e.name,
         Some(if was.emotion.Some? then was.emotion.value else "Neutral"),
         Some(if was.confidence.Some? then was.confidence.value else 0.0),
         Some(if was.faceSignal.Some? then was.faceSignal.value else false))
  }

  function Toasted(v: View, message: string): View {
    var all := v.toasts + [message];
    v.(toasts := if |all| > 3 then all[|all| - 3..] else all)
  }

  const JOINED := " подключился(лась)"
  const LEFT := " вышел(ла)"

  /** The entries a snapshot yields: records with a non-empty id, in order. */
  function Entries(raw: seq<map<string, string>>): seq<Entry> {
    if raw == [] then []
    else
      var item := raw[|raw| - 1];
      var id := Get(item, "participant_id", "");
      Entries(raw[..|raw| - 1]) + (if id == "" then [] else [Entry(id, Shown(id, Get(item, "name", "")))])
  }

  function Reduced(v: View, m: Envelope): View {
    var id := FieldOr(m.payload, "participant_id", "");
    var name := FieldOr(m.payload, "name", "");
    var sender := ParticipantOf(m);
    if m.typ == "user_joined" then
      if id == "" then v else Toasted(Upserted(v, id, Shown(id, name)), Shown(id, name) + JOINED)
    else if m.typ == "user_left" then
      if id == "" then v else Toasted(Removed(v, id), Shown(id, name) + LEFT)
    else if m.typ == "participants_snapshot" then
      if m.payload.Record? && m.payload.participants.Some?
      then v.(participants := FromSnapshot(v.participants, Entries(m.payload.participants.value)))
      else v
    else if m.typ == "join" && sender != "" then
      Toasted(Upserted(v, sender, Shown(sender, name)), Shown(sender, name) + JOINED)
    else if m.typ == "leave" && sender != "" then
      Toasted(Removed(v, sender), "Participant " + sender + LEFT)
    else v
  }

  // ---------- the store, updated in place ----------

  class MeetingStore {
    var participants: map<string, Tile>
    var toasts: seq<string>

    ghost function State(): View
      reads this
    {
      View(participants, toasts)
    }

    constructor ()
      ensures State() == View(map[], [])
    {
      participants, toasts := map[], [];
    }

    method UpsertParticipant(id: string, name: string)
      modifies this
      ensures State() == Upserted(old(State()), id, name)
    {
      var tile := if id in participants then participants[id].(id := id, name := name) else Tile(id, name, None, None, None);
      participants := participants[id := tile];
    }

    method RemoveParticipant(id: string)
      modifies this
      ensures State() == Removed(old(State()), id)
    {
      if id !in participants {
        assert participants - {id} == participants;
        return;
      }
      participants := participants - {id};
    }

    method ReplaceParticipantsFromSnapshot(list: seq<Entry>)
      modifies this
      ensures State() == old(State()).(participants := FromSnapshot(old(participants), list))
    {
      var next: map<string, Tile> := map[];
      for i := 0 to |list|
        invariant State() == old(State())
        invariant next == FromSnapshot(old(participants), list[..i])
      {
        assert list[..i + 1][..i] == list[..i];
        next := next[list[i].id := SnapshotTile(participants, list[i])];
      }
      assert list[..|list|] == list;
      participants := next;
    }

    method PushToast(message: string)
      modifies this
      ensures State() == Toasted(old(State()), message)
      ensures |toasts| <= 3
    {
      var all := toasts + [message];
      toasts := if |all| > 3 then all[|all| - 3..] else all;
    }

    method HandleMeetingEvent(m: Envelope)
      modifies this
      ensures State() == Reduced(old(State()), m)
    {
      var id := FieldOr(m.payload, "participant_id", "");
      var name := FieldOr(m.payload, "name", "");
      if m.typ == "user_joined" {
        if id == "" { return; }
        UpsertParticipant(id, Shown(id, name));
        PushToast(Shown(id, name) + JOINED);
        return;
      }
      if m.typ == "user_left" {
        if id == "" { return; }
        RemoveParticipant(id);
        PushToast(Shown(id, name) + LEFT);
        return;
      }
      if m.typ == "participants_snapshot" && m.payload.Record? {
        if m.payload.participants.None? { return; }
        var raw := m.payload.participants.value;
        var list: seq<Entry> := [];
        for i := 0 to |raw|
          invariant list == Entries(raw[..i])
          invariant State() == old(State())
        {
          assert raw[..i + 1][..i] == raw[..i];
          var pid := Get(raw[i], "participant_id", "");
          if pid == "" { continue; }
          list := list + [Entry(pid, Shown(pid, Get(raw[i], "name", "")))];
        }
        assert raw[..|raw|] == raw;
        ReplaceParticipantsFromSnapshot(list);
        return;
      }
      var sender := ParticipantOf(m);
      if m.typ == "join" && sender != "" {
        UpsertParticipant(sender, Shown(sender, name));
        PushToast(Shown(sender, name) + JOINED);
      }
      if m.typ == "leave" && sender != "" {
        RemoveParticipant(sender);
        PushToast("Participant " + sender + LEFT);
      }
    }
  }

  // ---------- the names a client shows ----------

  function Names(v: View): map<string, string> {
    map id | id in v.participants :: v.participants[id].name
  }

  function NamesOf(list: seq<Entry>): map<string, string> {
    if list == [] then map[] else NamesOf(list[..|list| - 1])[list[|list| - 1].id := list[|list| - 1].name]
  }

  /** The effect of one message on the names shown, forgetting emotions and toasts. */
  function Renamed(names: map<string, string>, m: Envelope): map<string, string> {
    var id := FieldOr(m.payload, "participant_id", "");
    var name := FieldOr(m.payload, "name", "");
    var sender := ParticipantOf(m);
    if m.typ == "user_joined" then
      if id == "" then names else names[id := Shown(id, name)]
    else if m.typ == "user_left" then
      if id == "" then names else names - {id}
    else if m.typ == "participants_snapshot" then
      if m.payload.Record? && m.payload.participants.Some? then NamesOf(Entries(m.payload.participants.value)) else names
    else if m.typ == "join" && sender != "" then names[sender := Shown(sender, name)]
    else if m.typ == "leave" && sender != "" then names - {sender}
    else names
  }

  /** The message types that change which names a client shows. */
  predicate Membership(typ: string) {
    typ in {"user_joined", "user_left", "participants_snapshot", "join", "leave"}
  }

  function RenamedBy(names: map<string, string>, ms: seq<Envelope>): map<string, string> {
    if ms == [] then names else Renamed(RenamedBy(names, ms[..|ms| - 1]), ms[|ms| - 1])
  }

  lemma {:induction false} SnapshotNames(prev: map<string, Tile>, list: seq<Entry>)
    ensures FromSnapshot(prev, list).Keys == NamesOf(list).Keys
    ensures forall id :: id in NamesOf(list) ==> FromSnapshot(prev, list)[id].name == NamesOf(list)[id]
  {
    if list != [] { SnapshotNames(prev, list[..|list| - 1]); }
  }

  /** The last entry of a list under an id gives this name. */
  ghost predicate LastNamed(list: seq<Entry>, id: string, name: string) {
    exists i :: 0 <= i < |list| && LastAt(list, i, id, name)
  }

  predicate LastAt(list: seq<Entry>, i: nat, id: string, name: string)
    requires i < |list|
  {
    list[i] == Entry(id, name) && forall j :: i < j < |list| ==> list[j].id != id
  }

  ghost predicate Listed(list: seq<Entry>, id: string) { exists e :: e in list && e.id == id }

  lemma LastNamedSnoc(list: seq<Entry>, e: Entry, id: string, name: string)
    ensures Listed(list + [e], id) <==> Listed(list, id) || e.id == id
    ensures LastNamed(list + [e], e.id, e.name)
    ensures LastNamed(list, id, name) && e.id != id ==> LastNamed(list + [e], id, name)
  {
    assert e in list + [e];
    if Listed(list, id) {
      var x :| x in list && x.id == id;
      assert x in list + [e];
    }
    assert LastAt(list + [e], |list|, e.id, e.name);
    if LastNamed(list, id, name) && e.id != id {
      var i :| 0 <= i < |list| && LastAt(list, i, id, name);
      assert LastAt(list + [e], i, id, name);
    }
  }

  lemma {:induction false} SnapshotMade(prev: map<string, Tile>, list: seq<Entry>, id: string)
    ensures id in FromSnapshot(prev, list) <==> Listed(list, id)
    ensures id in FromSnapshot(prev, list) ==>
      var t := FromSnapshot(prev, list)[id];
      LastNamed(list, id, t.name) && t == SnapshotTile(prev, Entry(id, t.name))
  {
    if list != [] {
      var before, e := list[..|list| - 1], list[|list| - 1];
      SnapshotMade(prev, before, id);
      assert list == before + [e];
      LastNamedSnoc(before, e, id, if id in FromSnapshot(prev, before) then FromSnapshot(prev, before)[id].name else "");
      hide LastNamed, Listed;
    }
  }

  /** A snapshot shows exactly the ids listed, each under its last name, with the emotion data it had, neutral where it had none. */
  lemma SnapshotTiles(prev: map<string, Tile>, list: seq<Entry>, id: string)
    ensures id in FromSnapshot(prev, list) <==> Listed(list, id)
    ensures id in FromSnapshot(prev, list) ==>
      var t := FromSnapshot(prev, list)[id];
      && t.id == id && LastNamed(list, id, t.name)
      && t.emotion == (if id in prev && prev[id].emotion.Some? then prev[id].emotion else Some("Neutral"))
      && t.confidence == (if id in prev && prev[id].confidence.Some? then prev[id].confidence else Some(0.0))
      && t.faceSignal == (if id in prev && prev[id].faceSignal.Some? then prev[id].faceSignal else Some(false))
  {
    SnapshotMade(prev, list, id);
    hide FromSnapshot, LastNamed, Listed;
  }

  lemma UpsertedNames(v: View, id: string, name: string, toast: string)
    ensures Names(Toasted(Upserted(v, id, name), toast)) == Names(v)[id := name]
  {
  }

  lemma RemovedNames(v: View, id: string, toast: string)
    ensures Names(Toasted(Removed(v, id), toast)) == Names(v) - {id}
  {
  }

  lemma ReplacedNames(v: View, list: seq<Entry>)
    ensures Names(v.(participants := FromSnapshot(v.participants, list))) == NamesOf(list)
  {
    SnapshotNames(v.participants, list);
  }

  /** The store's names follow the messages alone: tiles, emotions and toasts never influence them. */
  lemma ReducedNames(v: View, m: Envelope)
    ensures Names(Reduced(v, m)) == Renamed(Names(v), m)
  {
    hide Shown, Entries, FromSnapshot, NamesOf, Names, Upserted, Removed, Toasted, FieldOr;
    var id, sender, name := FieldOr(m.payload, "participant_id", ""), ParticipantOf(m), FieldOr(m.payload, "name", "");
    match m.typ
    case "user_joined" => UpsertedNames(v, id, Shown(id, name), Shown(id, name) + JOINED);
    case "user_left" => RemovedNames(v, id, Shown(id, name) + LEFT);
    case "participants_snapshot" =>
      if m.payload.Record? && m.payload.participants.Some? { ReplacedNames(v, Entries(m.payload.participants.value)); }
    case "join" => UpsertedNames(v, sender, Shown(sender, name), Shown(sender, name) + JOINED);
    case "leave" => RemovedNames(v, sender, "Participant " + sender + LEFT);
    case _ =>
  }

  // ---------- what a message shows, told from the message alone ----------

  /** The message says that somebody with this id is in the room. */
  predicate Enters(m: Envelope, id: string) {
    && id != ""
    && ((m.typ == "user_joined" && TextField(m.payload, "participant_id") == Some(id))
        || (m.typ == "join" && m.WSMessage? && m.participant == id))
  }

  /** The message says that somebody with this id has gone. */
  predicate Exits(m: Envelope, id: string) {
    && id != ""
    && ((m.typ == "user_left" && TextField(m.payload, "participant_id") == Some(id))
        || (m.typ == "leave" && m.WSMessage? && m.participant == id))
  }

  /** The message carries a list of participants that can be read. */
  predicate Lists(m: Envelope) { m.typ == "participants_snapshot" && m.payload.Record? && m.payload.participants.Some? }

  /** The list has this id, and its last item with the id gives this name. */
  ghost predicate NamedLast(raw: seq<map<string, string>>, id: string, name: string) {
    exists i :: 0 <= i < |raw| && NamedAt(raw, i, id, name)
  }

  predicate NamedAt(raw: seq<map<string, string>>, i: nat, id: string, name: string)
    requires i < |raw|
  {
    && id != "" && Get(raw[i], "participant_id", "") == id && name == Shown(id, Get(raw[i], "name", ""))
    && forall j :: i < j < |raw| ==> Get(raw[j], "participant_id", "") != id
  }

  lemma NamedLastSnoc(raw: seq<map<string, string>>, item: map<string, string>, id: string, name: string)
    ensures NamedLast(raw + [item], id, name) <==>
      id != "" && if Get(item, "participant_id", "") == id then name == Shown(id, Get(item, "name", "")) else NamedLast(raw, id, name)
  {
    hide Shown;
    var all := raw + [item];
    assert all[|raw|] == item;
    assert forall j :: 0 <= j < |raw| ==> all[j] == raw[j];
    if NamedLast(raw, id, name) && Get(item, "participant_id", "") != id {
      var i :| 0 <= i < |raw| && NamedAt(raw, i, id, name);
      assert NamedAt(all, i, id, name);
    }
    if NamedLast(all, id, name) {
      var i :| 0 <= i < |all| && NamedAt(all, i, id, name);
      assert i < |raw| ==> NamedAt(raw, i, id, name);
    }
    if id != "" && Get(item, "participant_id", "") == id && name == Shown(id, Get(item, "name", "")) {
      assert NamedAt(all, |raw|, id, name);
    }
  }

  lemma NamesSnoc(es: seq<Entry>, e: Entry)
    ensures NamesOf(es + [e]) == NamesOf(es)[e.id := e.name]
  {
    assert (es + [e])[..|es|] == es;
  }

  lemma EntriesSnoc(raw: seq<map<string, string>>, item: map<string, string>)
    ensures var pid := Get(item, "participant_id", "");
      Entries(raw + [item]) == if pid == "" then Entries(raw) else Entries(raw) + [Entry(pid, Shown(pid, Get(item, "name", "")))]
  {
    assert (raw + [item])[..|raw|] == raw;
    assert Entries(raw) + [] == Entries(raw);
    hide Shown;
  }

  lemma UnderUpdate(names: map<string, string>, pid: string, shown: string, id: string, name: string)
    ensures Under(names[pid := shown], id, name) <==> if pid == id then name == shown else Under(names, id, name)
  {
  }

  lemma {:induction false} NoBlank(raw: seq<map<string, string>>)
    ensures "" !in NamesOf(Entries(raw))
  {
    if raw != [] {
      var before, item := raw[..|raw| - 1], raw[|raw| - 1];
      assert raw == before + [item];
      NoBlank(before);
      EntriesSnoc(before, item);
      var pid := Get(item, "participant_id", "");
      NamesSnoc(Entries(before), Entry(pid, Shown(pid, Get(item, "name", ""))));
      hide *;
    }
  }

  /** What a list is made into has exactly its ids, each under its last name. */
  lemma {:induction false} ListNames(raw: seq<map<string, string>>, id: string, name: string)
    ensures Under(NamesOf(Entries(raw)), id, name) <==> NamedLast(raw, id, name)
  {
    if raw == [] {
      hide NamedAt;
    } else {
      var before, item := raw[..|raw| - 1], raw[|raw| - 1];
      assert raw == before + [item];
      NoBlank(before);
      assert "" !in NamesOf(Entries(before)) ==> !Under(NamesOf(Entries(before)), "", name);
      hide *;
      ListNames(before, id, name);
      NamedLastSnoc(before, item, id, name);
      EntriesSnoc(before, item);
      var pid := Get(item, "participant_id", "");
      var shown := Shown(pid, Get(item, "name", ""));
      NamesSnoc(Entries(before), Entry(pid, shown));
      UnderUpdate(NamesOf(Entries(before)), pid, shown, id, name);
    }
  }

  predicate Under(names: map<string, string>, id: string, name: string) { id in names && names[id] == name }

  /**
    After a message an id is shown under a name if and only if the message lists it last under that name; or is no list
    and says that it is in the room under that name; or says neither that nor that it has gone, and it was.
  */
  lemma ShownExactly(v: View, m: Envelope, id: string, name: string)
    ensures Under(Names(Reduced(v, m)), id, name) <==>
      if Lists(m) then NamedLast(m.payload.participants.value, id, name)
      else if Enters(m, id) then name == Shown(id, FieldOr(m.payload, "name", ""))
      else !Exits(m, id) && Under(Names(v), id, name)
  {
    ReducedNames(v, m);
    if Lists(m) { ListNames(m.payload.participants.value, id, name); }
    hide Reduced, Names, Shown, NamedLast, Entries, NamesOf;
  }

  /** The news a message makes, if any. */
  function News(m: Envelope): seq<string> {
    var name := FieldOr(m.payload, "name", "");
    match TextField(m.payload, "participant_id")
    case Some(id) =>
      if id != "" && m.typ == "user_joined" then [Shown(id, name) + " подключился(лась)"]
      else if id != "" && m.typ == "user_left" then [Shown(id, name) + " вышел(ла)"]
      else Greeting(m, name)
    case None => Greeting(m, name)
  }

  function Greeting(m: Envelope, name: string): seq<string> {
    if m.WSEvent? || m.participant == "" then []
    else if m.typ == "join" then [Shown(m.participant, name) + " подключился(лась)"]
    else if m.typ == "leave" then ["Participant " + m.participant + " вышел(ла)"]
    else []
  }

  lemma ToastedLast(v: View, id: string, name: string, text: string)
    ensures Toasted(Upserted(v, id, name), text).toasts == Toasted(Removed(v, id), text).toasts == Last(v.toasts + [text], 3)
  {
  }

  /** Of the news at most the last three are shown. */
  lemma ToastsExactly(v: View, m: Envelope)
    ensures News(m) == [] ==> Reduced(v, m).toasts == v.toasts
    ensures News(m) != [] ==> Reduced(v, m).toasts == Last(v.toasts + News(m), 3)
  {
    var id, name, sender := FieldOr(m.payload, "participant_id", ""), FieldOr(m.payload, "name", ""), ParticipantOf(m);
    ToastedLast(v, id, Shown(id, name), Shown(id, name) + JOINED);
    ToastedLast(v, id, Shown(id, name), Shown(id, name) + LEFT);
    ToastedLast(v, sender, Shown(sender, name), Shown(sender, name) + JOINED);
    ToastedLast(v, sender, Shown(sender, name), "Participant " + sender + LEFT);
    hide Shown, FromSnapshot, Entries, Toasted, Upserted, Removed, Last, TextField;
    match m.typ
    case "user_joined" =>
    case "user_left" =>
    case "participants_snapshot" =>
    case "join" =>
    case "leave" =>
    case _ =>
  }

  lemma {:induction false} RenamedByHead(names: map<string, string>, ms: seq<Envelope>)
    requires ms != []
    ensures RenamedBy(names, ms) == RenamedBy(Renamed(names, ms[0]), ms[1..])
  {
    hide Renamed;
    var n := |ms| - 1;
    if n > 0 {
      RenamedByHead(names, ms[..n]);
      assert ms[..n][1..] == ms[1..][..n - 1];
    } else {
      assert ms[..0] == [] && ms[1..] == [];
    }
  }

  lemma RenamedBySnoc(names: map<string, string>, ms: seq<Envelope>, m: Envelope)
    ensures RenamedBy(names, ms + [m]) == Renamed(RenamedBy(names, ms), m)
  {
    assert (ms + [m])[..|ms|] == ms;
  }
}
