// SessionHub: which connections belong to which session, who joined as whom, and what is written to each socket.
module Hub {
  import opened Outcomes
  import opened Wire
  import opened Sorting

  /** A websocket connection: an identity. */
  datatype Conn = Conn(id: nat)

  datatype JoinMeta = JoinMeta(pid: string, name: string)

  /** One call of Broadcast, kept as history. */
  datatype Cast = Cast(sid: int, message: Envelope)

  /**
    The hub's tables, plus `wire`: the messages written to each socket and not yet read at the other end,
    and `casts`: every broadcast so far.
  */
  datatype Tables = Tables(
    sessions: map<int, set<Conn>>,
    locks: set<Conn>,
    meta: map<int, map<Conn, JoinMeta>>,
    analysis: set<Conn>,
    wire: map<Conn, seq<Envelope>>,
    casts: seq<Cast>)

  function Members(h: Tables, sid: int): set<Conn> { Get(h.sessions, sid, {}) }

  function MetaOf(h: Tables, sid: int): map<Conn, JoinMeta> { Get(h.meta, sid, map[]) }

  function Unread(h: Tables, c: Conn): seq<Envelope> { Get(h.wire, c, []) }

  // ---------- what each operation does to the tables ----------

  /** A two-level table with one inner entry dropped; an inner map left empty is dropped as well. */
  function Without<V>(m: map<int, map<Conn, V>>, sid: int, c: Conn): map<int, map<Conn, V>> {
    if sid !in m then m
    else if m[sid] - {c} == map[] then m - {sid}
    else m[sid := m[sid] - {c}]
  }

  function With<V>(m: map<int, map<Conn, V>>, sid: int, c: Conn, v: V): map<int, map<Conn, V>> {
    m[sid := Get(m, sid, map[])[c := v]]
  }

  function Added(h: Tables, sid: int, c: Conn): Tables {
    h.(sessions := h.sessions[sid := Members(h, sid) + {c}], locks := h.locks + {c})
  }

  function Removed(h: Tables, sid: int, c: Conn): Tables {
    h.(meta := Without(h.meta, sid, c),
       sessions := if sid !in h.sessions then h.sessions
                   else if h.sessions[sid] - {c} == {} then h.sessions - {sid}
                   else h.sessions[sid := h.sessions[sid] - {c}],
       locks := h.locks - {c})
  }

  function Appended(wire: map<Conn, seq<Envelope>>, to: set<Conn>, m: Envelope): map<Conn, seq<Envelope>> {
    map c | c in wire.Keys + to :: if c in to then Get(wire, c, []) + [m] else Get(wire, c, [])
  }

  predicate FanoutType(typ: string) { typ == "audio" || typ == "frame" }

  /** Members with a write lock get the message; relayed media also goes to every analysis subscriber, under the session's own id. */
  function AfterBroadcast(h: Tables, sid: int, m: Envelope): Tables {
    var local := Appended(h.wire, Members(h, sid) * h.locks, m);
    h.(wire := if m.WSMessage? && FanoutType(m.typ) then Appended(local, h.analysis * h.locks, m.(sid := sid)) else local,
       casts := h.casts + [Cast(sid, m)])
  }

  function Sent(h: Tables, c: Conn, m: Envelope): Tables {
    h.(wire := Appended(h.wire, {c} * h.locks, m))
  }

  /**
    What the roster of a session looks like: one entry per participant id, ascending, under the name of some
    connection that joined with that id (any one of them, when several did).
  */
  ghost predicate IsSnapshot(meta: map<Conn, JoinMeta>, out: seq<JoinMeta>) {
    && ByPid(out)
    && (forall e :: e in out ==> Joined(meta, e))
    && (forall c :: c in meta && meta[c].pid != "" ==> Listed(out, meta[c].pid))
  }

  /** `e` is what some connection that joined with a non-empty id is shown as. */
  ghost predicate Joined(meta: map<Conn, JoinMeta>, e: JoinMeta) {
    exists c :: c in meta && meta[c].pid != "" && e == JoinMeta(meta[c].pid, Shown(meta[c].pid, meta[c].name))
  }

  ghost predicate Listed(out: seq<JoinMeta>, pid: string) {
    exists e :: e in out && e.pid == pid
  }

  // ---------- the hub, updated in place ----------

  class SessionHub {
    var sessions: map<int, set<Conn>>
    var locks: set<Conn>
    var meta: map<int, map<Conn, JoinMeta>>
    var analysis: set<Conn>
    var wire: map<Conn, seq<Envelope>>
    ghost var casts: seq<Cast>

    ghost function View(): Tables
      reads this
    {
      Tables(sessions, locks, meta, analysis, wire, casts)
    }

    constructor ()
      ensures View() == Tables(map[], {}, map[], {}, map[], [])
    {
      sessions, locks, meta, analysis, wire, casts := map[], {}, map[], {}, map[], [];
    }

    method Add(sid: int, c: Conn)
      modifies this
      ensures View() == Added(old(View()), sid, c)
    {
      if sid !in sessions { sessions := sessions[sid := {}]; }
      sessions := sessions[sid := sessions[sid] + {c}];
      locks := locks + {c};
    }

    method SetJoinMeta(sid: int, c: Conn, pid: string, name: string)
      modifies this
      ensures View() == old(View()).(meta := With(old(meta), sid, c, JoinMeta(pid, name)))
    {
      if sid !in meta { meta := meta[sid := map[]]; }
      meta := meta[sid := meta[sid][c := JoinMeta(pid, name)]];
    }

    method RemoveConnJoinMeta(sid: int, c: Conn)
      modifies this
      ensures View() == old(View()).(meta := Without(old(meta), sid, c))
    {
      if sid in meta {
        var jm := meta[sid] - {c};
        meta := meta[sid := jm];
        if |jm| == 0 { meta := meta - {sid}; }
      }
      assert meta == Without(old(meta), sid, c);
    }

    method ParticipantSnapshot(sid: int) returns (out: seq<JoinMeta>)
      ensures IsSnapshot(MetaOf(View(), sid), out)
    {
      var metaMap := Get(meta, sid, map[]);
      var seen: map<string, string> := map[];
      var todo := metaMap.Keys;
      while todo != {}
        invariant todo <= metaMap.Keys
        invariant forall c :: c in metaMap && c !in todo && metaMap[c].pid != "" ==> metaMap[c].pid in seen
        invariant forall p :: p in seen ==> Joined(metaMap, JoinMeta(p, seen[p]))
        decreases todo
      {
        var c :| c in todo;
        todo := todo - {c};
        var pid := metaMap[c].pid;
        if pid == "" || pid in seen { continue; }
        seen := seen[pid := Shown(pid, metaMap[c].name)];
      }
      TextOrder();
      var pids := SortSet(seen.Keys, TextLt);
      out := seq(|pids|, i requires 0 <= i < |pids| => JoinMeta(pids[i], if pids[i] in seen then seen[pids[i]] else ""));
      RosterListed(MetaOf(View(), sid), seen, pids, out);
    }

    /** First half of AddAnalysisSubscriber, under the hub's lock. */
    method AddAnalysisLock(c: Conn)
      modifies this
      ensures View() == old(View()).(locks := old(locks) + {c})
    {
      locks := locks + {c};
    }

    /** Second half of AddAnalysisSubscriber, under the subscribers' lock. */
    method AddAnalysisConn(c: Conn)
      modifies this
      ensures View() == old(View()).(analysis := old(analysis) + {c})
    {
      analysis := analysis + {c};
    }

    /** First half of RemoveAnalysisSubscriber. */
    method RemoveAnalysisConn(c: Conn)
      modifies this
      ensures View() == old(View()).(analysis := old(analysis) - {c})
    {
      analysis := analysis - {c};
    }

    /** Second half of RemoveAnalysisSubscriber. */
    method RemoveAnalysisLock(c: Conn)
      modifies this
      ensures View() == old(View()).(locks := old(locks) - {c})
    {
      locks := locks - {c};
    }

    method Remove(sid: int, c: Conn)
      modifies this
      ensures View() == Removed(old(View()), sid, c)
    {
      RemoveConnJoinMeta(sid, c);
      if sid in sessions {
        var clients := sessions[sid] - {c};
        sessions := sessions[sid := clients];
        if |clients| == 0 { sessions := sessions - {sid}; }
      }
      assert sessions == Removed(old(View()), sid, c).sessions;
      locks := locks - {c};
    }

    method WriteJSON(c: Conn, m: Envelope)
      modifies this`wire
      ensures wire == Appended(old(wire), {c} * locks, m)
    {
      if c !in locks {
        assert {c} * locks == {};
        assert wire == Appended(wire, {}, m);
        return;
      }
      wire := wire[c := Get(wire, c, []) + [m]];
    }

    method WriteAll(dest: set<Conn>, m: Envelope)
      modifies this`wire
      ensures wire == Appended(old(wire), dest * locks, m)
    {
      var todo := dest;
      assert wire == Appended(wire, {}, m);
      while todo != {}
        invariant todo <= dest
        invariant wire == Appended(old(wire), (dest - todo) * locks, m)
        decreases todo
      {
        var c :| c in todo;
        ghost var done := (dest - todo) * locks;
        WriteJSON(c, m);
        todo := todo - {c};
        AppendedTwice(old(wire), done, {c} * locks, m);
        assert done + {c} * locks == (dest - todo) * locks;
      }
      assert dest - todo == dest;
    }

    method Broadcast(sid: int, m: Envelope)
      modifies this
      ensures View() == AfterBroadcast(old(View()), sid, m)
    {
      casts := casts + [Cast(sid, m)];
      WriteAll(Get(sessions, sid, {}), m);
      if m.WSMessage? && FanoutType(m.typ) {
        WriteAll(analysis, m.(sid := sid));
      }
    }

    method SendJSON(c: Conn, m: Envelope)
      modifies this
      ensures View() == Sent(old(View()), c, m)
    {
      WriteJSON(c, m);
    }
  }

  lemma AppendedTwice(wire: map<Conn, seq<Envelope>>, a: set<Conn>, b: set<Conn>, m: Envelope)
    requires a !! b
    ensures Appended(Appended(wire, a, m), b, m) == Appended(wire, a + b, m)
  {
  }

  predicate ByPid(out: seq<JoinMeta>) {
    forall i, j :: 0 <= i < j < |out| ==> TextLt(out[i].pid, out[j].pid)
  }

  /** The names collected, listed by ascending id, are a roster. */
  lemma RosterListed(meta: map<Conn, JoinMeta>, seen: map<string, string>, pids: seq<string>, out: seq<JoinMeta>)
    requires forall c :: c in meta && meta[c].pid != "" ==> meta[c].pid in seen
    requires forall p :: p in seen ==> Joined(meta, JoinMeta(p, seen[p]))
    requires Ascending(pids, TextLt) && forall p :: p in pids <==> p in seen.Keys
    requires |out| == |pids| && forall i :: 0 <= i < |out| && pids[i] in seen ==> out[i] == JoinMeta(pids[i], seen[pids[i]])
    ensures IsSnapshot(meta, out)
  {
    hide TextLt, Joined;
    assert forall i :: 0 <= i < |pids| ==> pids[i] in pids;
    forall p | p in seen ensures Listed(out, p) {
      var i :| 0 <= i < |pids| && pids[i] == p;
      assert out[i] in out && out[i].pid == p;
    }
  }

  // ---------- what a broadcast delivers, socket by socket ----------

  /**
    After a broadcast a socket has one more unread message if it is a member with a write lock, and the media of a
    client once more under the session's own id if it is an analysis subscriber with a write lock; the rest of what
    is unread stays as it was, in order.
  */
  lemma DeliveredExactly(h: Tables, sid: int, m: Envelope, d: Conn)
    ensures var member := sid in h.sessions && d in h.sessions[sid] && d in h.locks;
      var media := m.WSMessage? && (m.typ == "audio" || m.typ == "frame") && d in h.analysis && d in h.locks;
      Unread(AfterBroadcast(h, sid, m), d) == Unread(h, d)
        + (if member then [m] else [])
        + (if media then [WSMessage(m.typ, sid, m.participant, m.payload)] else [])
  {
    AppendedTo(h.wire, Members(h, sid) * h.locks, m, d);
    if m.WSMessage? { AppendedTo(Appended(h.wire, Members(h, sid) * h.locks, m), h.analysis * h.locks, m.(sid := sid), d); }
    hide Appended;
    assert Unread(h, d) + [] == Unread(h, d);
    assert Unread(h, d) + [m] + [] == Unread(h, d) + [m];
  }

  lemma AppendedTo(wire: map<Conn, seq<Envelope>>, to: set<Conn>, m: Envelope, d: Conn)
    ensures Get(Appended(wire, to, m), d, []) == Get(wire, d, []) + if d in to then [m] else []
  {
    assert Get(wire, d, []) + [] == Get(wire, d, []);
  }

  /** A message to one socket reaches that socket, if it has a write lock, and no other. */
  lemma SentExactly(h: Tables, c: Conn, m: Envelope, d: Conn)
    ensures Unread(Sent(h, c, m), d) == Unread(h, d) + if d == c && c in h.locks then [m] else []
  {
    AppendedTo(h.wire, {c} * h.locks, m, d);
    hide Appended;
  }
}
