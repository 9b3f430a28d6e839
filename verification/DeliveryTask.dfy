/** The spool and the code that changes it in place: the two halves of a delivery task, before and
    after the network, and the operator commands. Each method is tied to its step of the protocol. */
module DeliveryTask {
  import opened Bytes
  import opened Queue
  import opened Delivery
  import opened DeliveryRuns
  import opened Options

  class Spool {
    var entries: map<Id, Entry>

    constructor ()
      ensures entries == map[]
    {
      entries := map[];
    }

    method Enqueue(id: Id, env: Envelope, bytes: seq<Byte>, now: int)
      modifies this
      ensures entries == old(entries)[id := NewEntry(env, bytes, now)]
    {
      entries := entries[id := Entry(env, Meta(now, now, 0, None, Pending, |bytes|), bytes)];
    }

    method Dequeue(id: Id) returns (r: Option<Entry>)
      ensures r == if id in entries then Some(entries[id]) else None
    {
      r := if id in entries then Some(entries[id]) else None;
    }

    method Remove(id: Id)
      modifies this
      ensures entries == old(entries) - {id}
    {
      entries := entries - {id};
    }

    method UpdateMetadata(id: Id, meta: Meta) returns (ok: bool)
      modifies this
      ensures ok == (id in old(entries))
      ensures entries == if ok then old(entries)[id := old(entries)[id].(meta := meta)] else old(entries)
    {
      ok := id in entries;
      if ok {
        entries := entries[id := entries[id].(meta := meta)];
      }
    }

    /** The scan: of everything in the spool, what is due. */
    method ListDue(now: int) returns (ids: seq<Id>)
      ensures Lists(entries, ids, now)
    {
      ids := [];
      var left := entries.Keys;
      while left != {}
        invariant left <= entries.Keys
        invariant NoDuplicates(ids)
        invariant forall i :: 0 <= i < |ids| ==> ids[i] in entries && ids[i] !in left && Due(entries[ids[i]], now)
        invariant forall id :: id in entries && Due(entries[id], now) ==> id in left || id in ids
        decreases |left|
      {
        var id :| id in left;
        left := left - {id};
        if Due(entries[id], now) {
          ids := ids + [id];
        }
      }
    }

    /** The task reads its message, marks it Active and counts the attempt; it ends if the message is gone. */
    method Begin(id: Id, ghost s: State, ghost tid: TaskId) returns (task: Option<Task>)
      requires entries == s.spool && tid in s.tasks && s.tasks[tid] == Spawned(id)
      modifies this
      ensures entries == MarkTask(s, tid).spool
      ensures task.Some? <==> tid in MarkTask(s, tid).tasks
      ensures task.Some? ==> task.value == MarkTask(s, tid).tasks[tid]
    {
      var r := Dequeue(id);
      if r.None? {
        return None;
      }
      var queued := r.value;
      queued := queued.(meta := queued.meta.(status := Active));
      queued := queued.(meta := queued.meta.(attempts := queued.meta.attempts + 1));
      var ok := UpdateMetadata(id, queued.meta);
      task := Some(Working(id, queued));
    }

    /** Bounce if the sender may be bounced to, then remove. */
    method GiveUp(cfg: Config, id: Id, queued: Entry, error: seq<Byte>, original: seq<Byte>, now: int, bounce: Id)
      returns (e: Event)
      modifies this
      ensures match Generate(cfg, queued.env, error, original)
        case NoBounce => e == Dropped(id) && entries == old(entries) - {id}
        case Bounce(env, bytes) =>
          e == Bounced(id, bounce) && entries == old(entries)[bounce := NewEntry(env, bytes, now)] - {id}
    {
      e := Dropped(id);
      var b := Generate(cfg, queued.env, error, original);
      if b.Bounce? {
        Enqueue(bounce, b.env, b.bytes, now);
        e := Bounced(id, bounce);
      }
      Remove(id);
    }

    /** Expired or out of attempts: give up; otherwise write back the next retry time. */
    method HandleTempFail(cfg: Config, id: Id, queued: Entry, error: seq<Byte>, now: int, bounce: Id)
      returns (e: Option<Event>)
      modifies this
      ensures match TempFail(cfg, queued, error, now)
        case GiveUp(err, original) =>
          (match Generate(cfg, queued.env, err, original)
           case NoBounce => e == Some(Dropped(id)) && entries == old(entries) - {id}
           case Bounce(env, bytes) =>
             e == Some(Bounced(id, bounce)) && entries == old(entries)[bounce := NewEntry(env, bytes, now)] - {id})
        case Defer(meta) =>
          e == None && entries ==
            if id in old(entries) then old(entries)[id := old(entries)[id].(meta := meta)] else old(entries)
        case Done => false
    {
      if now - queued.meta.created > cfg.maxAge {
        var ev := GiveUp(cfg, id, queued, error, [], now, bounce);
        return Some(ev);
      }
      match NextRetry(cfg, queued.meta.attempts, now) {
        case Some(next) =>
          var meta := queued.meta.(nextRetry := next);
          meta := meta.(status := Deferred);
          meta := meta.(lastError := Some(error));
          var ok := UpdateMetadata(id, meta);
          e := None;
        case None =>
          var ev := GiveUp(cfg, id, queued, error, [], now, bounce);
          e := Some(ev);
      }
    }

    /** The rest of the task, once the answers of the MX hosts are known. */
    method Complete(cfg: Config, id: Id, entry: Entry, mx: Mx, now: int, bounce: Id, ghost s: State, ghost tid: TaskId)
      returns (e: Option<Event>)
      requires entries == s.spool && tid in s.tasks && s.tasks[tid] == Working(id, entry)
      modifies this
      ensures var s' := FinishTask(cfg, s, tid, mx, now, bounce);
        entries == s'.spool && s'.log == s.log + if e.Some? then [e.value] else []
    {
      var queued := entry;
      if mx.Unresolved? {
        e := HandleTempFail(cfg, id, queued, mx.error, now, bounce);
        return;
      }
      var tried := TryHosts(mx.hosts, queued.meta.lastError);
      match tried {
        case TriedSent =>
          Remove(id);
          e := Some(Delivered(id));
        case TriedPerm(error) =>
          var ev := GiveUp(cfg, id, queued, error, queued.bytes, now, bounce);
          e := Some(ev);
        case TriedTemp(last) =>
          queued := queued.(meta := queued.meta.(lastError := last));
          e := HandleTempFail(cfg, id, queued, if last.Some? then last.value else [], now, bounce);
      }
    }

    // ---- Operator commands ----

    /** The first half of a command: the protocol's Look. */
    method ReadCommand(id: Id, ghost s: State, ghost op: OpId) returns (r: Option<Snapshot>)
      requires entries == s.spool && op !in s.ops
      ensures r.Some? <==> op in ReadMeta(s, op, id).ops
      ensures r.Some? ==> r.value == ReadMeta(s, op, id).ops[op]
    {
      var read := Dequeue(id);
      if read.None? {
        return None;
      }
      r := Some(Snapshot(id, read.value.meta));
    }

    /** The second half, after whatever happened in between: the protocol's Put. */
    method WriteCommand(snap: Snapshot, change: Change, ghost s: State, ghost op: OpId)
      requires entries == s.spool && op in s.ops && s.ops[op] == snap
      modifies this
      ensures entries == WriteBack(s, op, change).spool
    {
      var meta := snap.meta;
      match change {
        case ToRetry(now) =>
          meta := meta.(status := Pending);
          meta := meta.(nextRetry := now);
        case ToHold => meta := meta.(status := Held);
        case ToRelease => meta := meta.(status := Pending);
        case ToFlush(now) =>
          meta := meta.(status := Pending);
          meta := meta.(nextRetry := now);
      }
      var ok := UpdateMetadata(snap.id, meta);
    }

    /** The listing a flush starts with: what a Look at every message would read. */
    method ListCommand() returns (messages: map<Id, Meta>)
      ensures messages.Keys == entries.Keys && forall id :: id in entries ==> messages[id] == entries[id].meta
    {
      messages := map[];
      var left := entries.Keys;
      while left != {}
        invariant left <= entries.Keys && messages.Keys == entries.Keys - left
        invariant forall id :: id in messages ==> messages[id] == entries[id].meta
        decreases left
      {
        var id :| id in left;
        messages := messages[id := entries[id].meta];
        left := left - {id};
      }
    }

    /** The writes of a flush, for a listing that may be out of date: a message that was deferred in the listing gets
        the listed metadata back, due now; no other changes, and none comes back that is gone. */
    method FlushCommand(messages: map<Id, Meta>, now: int)
      modifies this
      ensures entries.Keys == old(entries.Keys)
      ensures forall id :: id in entries ==> entries[id] == Flushed(old(entries)[id], messages, id, now)
    {
      var left := messages.Keys;
      while left != {}
        invariant left <= messages.Keys && entries.Keys == old(entries.Keys)
        invariant forall id :: id in entries ==>
          entries[id] == if id in left then old(entries)[id] else Flushed(old(entries)[id], messages, id, now)
        decreases left
      {
        var id :| id in left;
        if messages[id].status == Deferred {
          var ok := UpdateMetadata(id, Changed(messages[id], ToFlush(now)));
        }
        left := left - {id};
      }
    }

    method DeleteCommand(id: Id, ghost s: State)
      requires entries == s.spool
      modifies this
      ensures entries == DeleteEntry(s, id).spool
    {
      Remove(id);
    }
  }

  function Flushed(e: Entry, messages: map<Id, Meta>, id: Id, now: int): Entry {
    if id in messages && messages[id].status == Deferred then e.(meta := Changed(messages[id], ToFlush(now))) else e
  }

  /** The commands under way have read the deferred messages of this listing, each once. */
  ghost predicate Listed(s: State, messages: map<Id, Meta>, order: seq<OpId>) {
    && (forall i :: 0 <= i < |order| ==> order[i] in s.ops)
    && (forall i, j :: 0 <= i < j < |order| ==> order[i] != order[j] && s.ops[order[i]].id != s.ops[order[j]].id)
    && (forall i :: 0 <= i < |order| ==>
          var snap := s.ops[order[i]];
          snap.meta.status == Deferred && snap.id in messages && messages[snap.id] == snap.meta)
    && (forall id :: id in messages && messages[id].status == Deferred ==>
          exists i :: 0 <= i < |order| && s.ops[order[i]].id == id)
  }

  predicate ReadBy(s: State, order: seq<OpId>, id: Id) {
    exists i :: 0 <= i < |order| && order[i] in s.ops && s.ops[order[i]].id == id
  }

  /** One write of a flush. */
  lemma FlushStep(s: State, s': State, messages: map<Id, Meta>, order: seq<OpId>, n: nat, now: int)
    requires Listed(s, messages, order) && n < |order| && s'.spool.Keys == s.spool.Keys
    requires order[n] in s'.ops && s'.ops[order[n]] == s.ops[order[n]]
    requires forall id :: id in s.spool ==>
      s'.spool[id] == if ReadBy(s, order[..n], id) then Flushed(s.spool[id], messages, id, now) else s.spool[id]
    ensures var s'' := WriteBack(s', order[n], ToFlush(now));
      && s''.spool.Keys == s.spool.Keys && s''.ops == s'.ops - {order[n]}
      && forall id :: id in s.spool ==>
           s''.spool[id] ==
             if ReadBy(s, order[..n + 1], id) then Flushed(s.spool[id], messages, id, now) else s.spool[id]
  {
    var own := s.ops[order[n]].id;
    forall id
      ensures ReadBy(s, order[..n + 1], id) <==> ReadBy(s, order[..n], id) || id == own
    {
      assert forall i :: 0 <= i < n ==> order[..n + 1][i] == order[..n][i];
      assert order[..n + 1][n] == order[n];
    }
  }

  /** The writes of a flush are Put steps of the protocol, one for each deferred message of its listing; other steps may
      come between them. */
  lemma FlushIsPuts(cfg: Config, s: State, messages: map<Id, Meta>, order: seq<OpId>, now: int)
    returns (steps: seq<Step>, s': State)
    requires Listed(s, messages, order)
    ensures Leads(cfg, s, steps, s')
    ensures |steps| == |order| && forall i :: 0 <= i < |order| ==> steps[i] == Put(order[i], ToFlush(now))
    ensures s'.spool.Keys == s.spool.Keys
    ensures forall id :: id in s.spool ==> s'.spool[id] == Flushed(s.spool[id], messages, id, now)
  {
    hide Leads, Flushed, WriteBack;
    steps, s' := [], s;
    assert Leads(cfg, s, [], s) by { LeadsNowhere(cfg, s); }
    for n := 0 to |order|
      invariant Leads(cfg, s, steps, s') && s'.spool.Keys == s.spool.Keys
      invariant |steps| == n && forall i :: 0 <= i < n ==> steps[i] == Put(order[i], ToFlush(now))
      invariant forall i :: n <= i < |order| ==> order[i] in s'.ops && s'.ops[order[i]] == s.ops[order[i]]
      invariant forall id :: id in s.spool ==>
        s'.spool[id] == if ReadBy(s, order[..n], id) then Flushed(s.spool[id], messages, id, now) else s.spool[id]
    {
      var step := Put(order[n], ToFlush(now));
      RunSnoc(cfg, s, steps, s', step);
      FlushStep(s, s', messages, order, n, now);
      steps, s' := steps + [step], WriteBack(s', order[n], ToFlush(now));
    }
    assert order[..|order|] == order;
    forall id | id in s.spool && !ReadBy(s, order, id)
      ensures Flushed(s.spool[id], messages, id, now) == s.spool[id]
    {
      NotFlushed(s, messages, order, id, now);
    }
  }

  lemma LeadsNowhere(cfg: Config, s: State)
    ensures Leads(cfg, s, [], s)
  {
  }

  lemma NotFlushed(s: State, messages: map<Id, Meta>, order: seq<OpId>, id: Id, now: int)
    requires Listed(s, messages, order) && id in s.spool && !ReadBy(s, order, id)
    ensures Flushed(s.spool[id], messages, id, now) == s.spool[id]
  {
  }
}
