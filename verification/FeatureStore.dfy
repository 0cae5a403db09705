// The gateway's rolling buffer of feature records per session.
module FeatureStore {
  import opened Outcomes
  import opened Sorting

  const MAX_PER_KIND: nat := 64
  const MAX_RECORDS: nat := 512

  /** Sessions to their bounded queues, oldest record first. */
  type Queues<R> = map<int, seq<R>>

  datatype Arrival<R> = Arrival(session: int, rec: R)

  /** What was ever pushed for one session, in order. */
  function PushesOf<R>(history: seq<Arrival<R>>, session: int): seq<R> {
    if history == [] then [] else
      var last := history[|history| - 1];
      PushesOf(history[..|history| - 1], session) + if last.session == session then [last.rec] else []
  }

  /** `deque(maxlen=512).append`: a full queue loses its oldest record. */
  function Appended<R>(queue: seq<R>, rec: R): seq<R> {
    (if |queue| < MAX_RECORDS then queue else queue[|queue| - MAX_RECORDS + 1..]) + [rec]
  }

  function Pushed<R>(m: Queues<R>, p: Arrival<R>): Queues<R> {
    m[p.session := Appended(Get(m, p.session, []), p.rec)]
  }

  function AllPushed<R>(history: seq<Arrival<R>>): Queues<R> {
    if history == [] then map[] else Pushed(AllPushed(history[..|history| - 1]), history[|history| - 1])
  }

  /** After any history, a session's queue is exactly the last 512 of its own pushes, in order. */
  lemma {:induction false} QueueIsSuffix<R>(history: seq<Arrival<R>>, session: int)
    ensures Get(AllPushed(history), session, []) == Last(PushesOf(history, session), 512)
    ensures session in AllPushed(history) <==> PushesOf(history, session) != []
  {
    if history != [] {
      QueueIsSuffix(history[..|history| - 1], session);
    }
  }

  class FeatureStore<R> {
    var bySession: Queues<R>
    ghost var history: seq<Arrival<R>>

    ghost predicate Valid()
      reads this
    {
      bySession == AllPushed(history)
    }

    constructor ()
      ensures Valid() && history == []
    {
      bySession, history := map[], [];
    }

    method Push(session: int, rec: R)
      requires Valid()
      modifies this
      ensures Valid() && history == old(history) + [Arrival(session, rec)]
    {
      var queue := if session in bySession then bySession[session] else [];
      queue := if |queue| < MAX_RECORDS then queue else queue[|queue| - MAX_RECORDS + 1..];
      bySession := bySession[session := queue + [rec]];
      history := history + [Arrival(session, rec)];
      assert history[..|history| - 1] == old(history);
    }

    method SnapshotSession(session: int) returns (out: seq<R>)
      requires Valid()
      ensures out == Last(PushesOf(history, session), 512)
    {
      QueueIsSuffix(history, session);
      if session !in bySession || bySession[session] == [] { return []; }
      var queue := bySession[session];
      out := Last(queue, MAX_PER_KIND * 8);
    }

    method SessionIds() returns (ids: seq<int>)
      requires Valid()
      ensures Ascending(ids, (a: int, b: int) => a < b)
      ensures forall s :: s in ids <==> PushesOf(history, s) != []
    {
      forall s ensures s in bySession <==> PushesOf(history, s) != [] { QueueIsSuffix(history, s); }
      ids := SortSet(bySession.Keys, (a: int, b: int) => a < b);
    }
  }
}
