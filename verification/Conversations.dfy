/**
 The conversation store of conversation.go. The clock is a parameter of every call; the
 mutex makes each call one atomic step.
 */
module Conversations {
  import opened Options

  datatype Entry = Entry(backend: string, seen: int)

  type Entries = map<string, Entry>

  function Lookup(entries: Entries, ttl: int, id: string, now: int): Option<string> {
    if id == "" || id !in entries || now - entries[id].seen > ttl then None
    else Some(entries[id].backend)
  }

  function Put(entries: Entries, id: string, backend: string, now: int): Entries {
    if id == "" then entries else entries[id := Entry(backend, now)]
  }

  function Live(entries: Entries, ttl: int, now: int): Entries {
    map id | id in entries && now - entries[id].seen <= ttl :: entries[id]
  }

  class ConversationStore {
    const ttl: int
    var entries: Entries

    constructor (ttl: int)
      ensures this.ttl == ttl && entries == map[]
    {
      this.ttl := ttl;
      entries := map[];
    }

    method Get(id: string, now: int) returns (backend: Option<string>)
      ensures backend == Lookup(entries, ttl, id, now)
      ensures backend.Some? <==> id != "" && id in entries && now <= entries[id].seen + ttl
      ensures backend.Some? ==> backend.value == entries[id].backend
    {
      if id == "" { return None; }
      if id !in entries || now - entries[id].seen > ttl { return None; }
      return Some(entries[id].backend);
    }

    method Set(id: string, backend: string, now: int)
      modifies this`entries
      ensures entries == Put(old(entries), id, backend, now)
    {
      if id == "" { return; }
      entries := entries[id := Entry(backend, now)];
    }

    method Reap(now: int)
      modifies this`entries
      ensures entries == Live(old(entries), ttl, now)
      ensures forall id :: id in entries <==> id in old(entries) && now - old(entries)[id].seen <= ttl
      ensures forall id | id in entries :: entries[id] == old(entries)[id]
    {
      var todo := entries.Keys;
      while todo != {}
        invariant todo <= old(entries).Keys
        invariant entries == map id | id in old(entries) && (id in todo || now - old(entries)[id].seen <= ttl)
                             :: old(entries)[id]
        decreases todo
      {
        var id :| id in todo;
        if now - entries[id].seen > ttl {
          entries := entries - {id};
        }
        todo := todo - {id};
      }
    }
  }

  // ---- Histories of calls ----

  datatype Op = SetOp(id: string, backend: string, now: int) | GetOp(id: string, now: int) | ReapOp(now: int)

  /** The clock never goes backwards. */
  ghost predicate Monotone(ops: seq<Op>) {
    forall i, j | 0 <= i < j < |ops| :: ops[i].now <= ops[j].now
  }

  function Step(entries: Entries, ttl: int, op: Op): Entries {
    match op
    case SetOp(id, backend, now) => Put(entries, id, backend, now)
    case GetOp(_, _) => entries
    case ReapOp(now) => Live(entries, ttl, now)
  }

  function After(ttl: int, ops: seq<Op>): Entries {
    if ops == [] then map[] else Step(After(ttl, ops[..|ops| - 1]), ttl, ops[|ops| - 1])
  }

  /** What the Gets of a history return, in order. */
  function Answers(ttl: int, ops: seq<Op>): seq<Option<string>> {
    if ops == [] then []
    else
      var front, last := ops[..|ops| - 1], ops[|ops| - 1];
      Answers(ttl, front) + if last.GetOp? then [Lookup(After(ttl, front), ttl, last.id, last.now)] else []
  }

  function WithoutReaps(ops: seq<Op>): seq<Op> {
    if ops == [] then []
    else
      var front, last := ops[..|ops| - 1], ops[|ops| - 1];
      WithoutReaps(front) + if last.ReapOp? then [] else [last]
  }

  /** reaped differs from full by entries only that are expired at the given time. */
  ghost predicate SameLive(reaped: Entries, full: Entries, ttl: int, now: int) {
    && (forall id | id in reaped :: id in full && reaped[id] == full[id])
    && (forall id | id in full && id !in reaped :: now - full[id].seen > ttl)
  }

  lemma {:induction false} ReapingDropsExpired(ttl: int, ops: seq<Op>, now: int)
    requires Monotone(ops)
    requires ops != [] ==> ops[|ops| - 1].now <= now
    ensures SameLive(After(ttl, ops), After(ttl, WithoutReaps(ops)), ttl, now)
    ensures Answers(ttl, ops) == Answers(ttl, WithoutReaps(ops))
  {
    hide SameLive, Lookup, Live, Put;
    if ops == [] {
      SameLiveStart(ttl, now);
    } else {
      var front, last := ops[..|ops| - 1], ops[|ops| - 1];
      assert forall i, j | 0 <= i < j < |front| :: front[i] == ops[i] && front[j] == ops[j];
      if front != [] {
        assert front[|front| - 1] == ops[|front| - 1];
        assert ops[|front| - 1].now <= ops[|ops| - 1].now;
      }
      ReapingDropsExpired(ttl, front, last.now);
      SameLiveStep(After(ttl, front), After(ttl, WithoutReaps(front)), ttl, last, now);
      var kept := WithoutReaps(front);
      assert (kept + [last])[..|kept|] == kept;
      assert WithoutReaps(ops) == if last.ReapOp? then kept else kept + [last];
    }
  }

  lemma SameLiveStart(ttl: int, now: int)
    ensures SameLive(map[], map[], ttl, now)
  {
  }

  /** One call on both stores, the Reap on the reaped one only. */
  lemma SameLiveStep(reaped: Entries, full: Entries, ttl: int, op: Op, now: int)
    requires SameLive(reaped, full, ttl, op.now) && op.now <= now
    ensures SameLive(Step(reaped, ttl, op), if op.ReapOp? then full else Step(full, ttl, op), ttl, now)
    ensures op.GetOp? ==> Lookup(reaped, ttl, op.id, op.now) == Lookup(full, ttl, op.id, op.now)
  {
  }

  /** Reaping is unobservable: without the Reap calls every Get returns the same. */
  lemma ReapUnobservable(ttl: int, ops: seq<Op>)
    requires Monotone(ops)
    ensures Answers(ttl, ops) == Answers(ttl, WithoutReaps(ops))
  {
    ReapingDropsExpired(ttl, ops, if ops == [] then 0 else ops[|ops| - 1].now);
  }

  /** The latest Set for id in a history. */
  function LatestSet(ops: seq<Op>, id: string): Option<Op>
    ensures LatestSet(ops, id).Some? ==> LatestSet(ops, id).value.SetOp? && LatestSet(ops, id).value.id == id
  {
    if ops == [] then None
    else
      var last := ops[|ops| - 1];
      if last.SetOp? && last.id == id then Some(last) else LatestSet(ops[..|ops| - 1], id)
  }

  lemma {:induction false} EntryIsLatestSet(ttl: int, ops: seq<Op>, id: string)
    requires id != ""
    ensures match LatestSet(WithoutReaps(ops), id)
            case None => id !in After(ttl, WithoutReaps(ops))
            case Some(op) => id in After(ttl, WithoutReaps(ops))
                             && After(ttl, WithoutReaps(ops))[id] == Entry(op.backend, op.now)
    ensures LatestSet(WithoutReaps(ops), id) == LatestSet(ops, id)
  {
    if ops != [] {
      var front, last := ops[..|ops| - 1], ops[|ops| - 1];
      EntryIsLatestSet(ttl, front, id);
      var kept := WithoutReaps(front);
      assert (kept + [last])[..|kept|] == kept;
      assert WithoutReaps(ops) == if last.ReapOp? then kept else kept + [last];
    }
  }

  /**
   After any history with any Reaps in it, a Get answers with the backend of the latest Set for
   that id if that Set is no older than the TTL, and with nothing otherwise.
   */
  lemma GetFindsLatestSet(ttl: int, ops: seq<Op>, id: string, now: int)
    requires Monotone(ops) && (ops != [] ==> ops[|ops| - 1].now <= now)
    ensures Lookup(After(ttl, ops), ttl, id, now) ==
            match LatestSet(ops, id)
            case None => None
            case Some(op) => if id == "" || now - op.now > ttl then None else Some(op.backend)
  {
    ReapingDropsExpired(ttl, ops, now);
    if id != "" { EntryIsLatestSet(ttl, ops, id); }
  }
}
