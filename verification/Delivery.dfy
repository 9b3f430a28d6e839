/** Delivery as a protocol (serverwall-relay/src/delivery/mod.rs and the operator commands of
    serverwall-cli/src/commands/queue.rs): the scan loop, any number of delivery tasks, the receiver
    and the operator take turns in any order.

    An operator command that changes metadata reads them in one step and writes them back in another;
    anything may happen in between.

    Hypotheses, visible in `Enabled` and `Apply`: every operation on the spool succeeds and is one step, and
    so are a task's reading and marking of its message, and its enqueuing a bounce and removing the message
    it gives up; a new queue id was never used before; and every spawned task has marked its message before
    the next scan lists the spool. The clock may show any time at any step. */
module Delivery {
  import opened Bytes
  import opened Queue

  type TaskId = nat
  type OpId = nat

  /** A task waiting to mark its message, or working with its own copy of the spool entry. */
  datatype Task = Spawned(id: Id) | Working(id: Id, entry: Entry)

  datatype Event =
    | Accepted(id: Id, env: Envelope, bytes: seq<Byte>)
    | Started(id: Id)
    | Delivered(id: Id)
    | Bounced(id: Id, bounce: Id)
    | Dropped(id: Id)
    | Deleted(id: Id)

  /** Metadata an operator command has read and not yet written back. */
  datatype Snapshot = Snapshot(id: Id, meta: Meta)

  /** What the retry, hold, release and flush commands make of the metadata they have read. */
  datatype Change = ToRetry(now: int) | ToHold | ToRelease | ToFlush(now: int)

  /** `scan` holds the ids of the current scan still to be spawned, `free` the free permits, `ops` the
      operator commands under way, `used` every queue id ever given out. */
  datatype State = State(
    spool: map<Id, Entry>,
    tasks: map<TaskId, Task>,
    scan: seq<Id>,
    free: nat,
    ops: map<OpId, Snapshot>,
    used: set<Id>,
    log: seq<Event>)

  datatype Step =
    | Accept(id: Id, env: Envelope, bytes: seq<Byte>, now: int)
    | Scan(ids: seq<Id>, now: int)
    | Spawn(tid: TaskId)
    | Mark(tid: TaskId)
    | Finish(tid: TaskId, mx: Mx, now: int, bounce: Id)
    | Look(op: OpId, id: Id)
    | Put(op: OpId, change: Change)
    | Delete(id: Id)

  function Init(cfg: Config): State { State(map[], map[], [], cfg.threads, map[], {}, []) }

  predicate Due(e: Entry, now: int) {
    (e.meta.status == Pending || e.meta.status == Deferred) && e.meta.nextRetry <= now
  }

  predicate NoDuplicates(ids: seq<Id>) { forall i, j :: 0 <= i < j < |ids| ==> ids[i] != ids[j] }

  /** `ids` lists the due messages of the spool, in whatever order the directory gives. */
  predicate Lists(spool: map<Id, Entry>, ids: seq<Id>, now: int) {
    && NoDuplicates(ids)
    && (forall i :: 0 <= i < |ids| ==> ids[i] in spool && Due(spool[ids[i]], now))
    && (forall id :: id in spool && Due(spool[id], now) ==> id in ids)
  }

  predicate Enabled(s: State, step: Step) {
    match step
    case Accept(id, _, _, _) => id !in s.used
    case Scan(ids, now) =>
      && s.scan == []
      && (forall t :: t in s.tasks ==> s.tasks[t].Working?)
      && Lists(s.spool, ids, now)
    case Spawn(tid) => s.scan != [] && s.free > 0 && tid !in s.tasks
    case Mark(tid) => tid in s.tasks && s.tasks[tid].Spawned?
    case Finish(tid, _, _, bounce) => tid in s.tasks && s.tasks[tid].Working? && bounce !in s.used
    case Look(op, _) => op !in s.ops
    case Put(op, change) => op in s.ops && (change.ToFlush? ==> s.ops[op].meta.status == Deferred)
    case Delete(_) => true
  }

  function WithMeta(s: State, id: Id, meta: Meta): State
    requires id in s.spool
  {
    s.(spool := s.spool[id := s.spool[id].(meta := meta)])
  }

  function Changed(m: Meta, change: Change): Meta {
    match change
    case ToRetry(now) => m.(status := Pending, nextRetry := now)
    case ToHold => m.(status := Held)
    case ToRelease => m.(status := Pending)
    case ToFlush(now) => m.(status := Pending, nextRetry := now)
  }

  /** The command reads the metadata, if the message is there. */
  function ReadMeta(s: State, op: OpId, id: Id): State {
    if id in s.spool then s.(ops := s.ops[op := Snapshot(id, s.spool[id].meta)]) else s
  }

  function DeleteEntry(s: State, id: Id): State { if id in s.spool then Gone(s, id, Deleted(id)) else s }

  /** The command writes back what it read, changed, if the message is still there. */
  function WriteBack(s: State, op: OpId, change: Change): State
    requires op in s.ops
  {
    var snap, s' := s.ops[op], s.(ops := s.ops - {op});
    if snap.id in s.spool then WithMeta(s', snap.id, Changed(snap.meta, change)) else s'
  }

  /** The task ends and gives its permit back. */
  function Ended(s: State, tid: TaskId): State {
    s.(tasks := s.tasks - {tid}, free := s.free + 1)
  }

  /** The message leaves the spool for the reason `e`. */
  function Gone(s: State, id: Id, e: Event): State {
    s.(spool := s.spool - {id}, log := s.log + [e])
  }

  function Enqueued(s: State, id: Id, e: Entry): State {
    s.(spool := s.spool[id := e], used := s.used + {id})
  }

  function AcceptEntry(s: State, id: Id, e: Entry): State {
    Enqueued(s, id, e).(log := s.log + [Accepted(id, e.env, e.bytes)])
  }

  function SpawnTask(s: State, tid: TaskId): State
    requires s.scan != [] && s.free > 0
  {
    s.(tasks := s.tasks[tid := Spawned(s.scan[0])], scan := s.scan[1..], free := s.free - 1)
  }

  function MarkTask(s: State, tid: TaskId): State
    requires tid in s.tasks
  {
    var id := s.tasks[tid].id;
    if id !in s.spool then Ended(s, tid)
    else
      var meta := s.spool[id].meta;
      var entry := s.spool[id].(meta := meta.(status := Active, attempts := meta.attempts + 1));
      s.(spool := s.spool[id := entry], tasks := s.tasks[tid := Working(id, entry)], log := s.log + [Started(id)])
  }

  function FinishTask(cfg: Config, s: State, tid: TaskId, mx: Mx, now: int, bounce: Id): State
    requires tid in s.tasks && s.tasks[tid].Working?
  {
    var id, entry := s.tasks[tid].id, s.tasks[tid].entry;
    var s' := Ended(s, tid);
    match Conclude(cfg, entry, mx, now)
    case Done => Gone(s', id, Delivered(id))
    case GiveUp(error, original) =>
      (match Generate(cfg, entry.env, error, original)
       case NoBounce => Gone(s', id, Dropped(id))
       case Bounce(env, bytes) => Gone(Enqueued(s', bounce, NewEntry(env, bytes, now)), id, Bounced(id, bounce)))
    case Defer(meta) => if id in s'.spool then WithMeta(s', id, meta) else s'
  }

  function Apply(cfg: Config, s: State, step: Step): State
    requires Enabled(s, step)
  {
    match step
    case Accept(id, env, bytes, now) => AcceptEntry(s, id, NewEntry(env, bytes, now))
    case Scan(ids, _) => s.(scan := ids)
    case Spawn(tid) => SpawnTask(s, tid)
    case Mark(tid) => MarkTask(s, tid)
    case Finish(tid, mx, now, bounce) => FinishTask(cfg, s, tid, mx, now, bounce)
    case Look(op, id) => ReadMeta(s, op, id)
    case Put(op, change) => WriteBack(s, op, change)
    case Delete(id) => DeleteEntry(s, id)
  }

  /** Runs of the protocol. */
  predicate Possible(cfg: Config, s: State, steps: seq<Step>)
    decreases |steps|
  {
    steps == [] || (Enabled(s, steps[0]) && Possible(cfg, Apply(cfg, s, steps[0]), steps[1..]))
  }

  function After(cfg: Config, s: State, steps: seq<Step>): State
    requires Possible(cfg, s, steps)
    decreases |steps|
  {
    if steps == [] then s else After(cfg, Apply(cfg, s, steps[0]), steps[1..])
  }

  /** The operator deletes no message that is Active, and writes to none that is Active or was attempted since
      its metadata were read. */
  predicate Careful(s: State, step: Step) {
    match step
    case Put(op, _) => op in s.ops ==> Fresh(s, s.ops[op])
    case Delete(id) => id in s.spool ==> s.spool[id].meta.status != Active
    case _ => true
  }

  predicate Fresh(s: State, snap: Snapshot) {
    snap.id in s.spool ==>
      s.spool[snap.id].meta.status != Active && s.spool[snap.id].meta.attempts == snap.meta.attempts
  }

  predicate CarefulRun(cfg: Config, s: State, steps: seq<Step>)
    requires Possible(cfg, s, steps)
    decreases |steps|
  {
    steps == [] || (Careful(s, steps[0]) && CarefulRun(cfg, Apply(cfg, s, steps[0]), steps[1..]))
  }

  /** Steps that leave the log and the set of messages alone. */
  predicate Quiet(step: Step) {
    step.Scan? || step.Spawn? || step.Look? || step.Put?
  }

  lemma QuietStep(cfg: Config, s: State, step: Step)
    requires Quiet(step) && Enabled(s, step)
    ensures var s' := Apply(cfg, s, step);
      && s'.log == s.log && s'.used == s.used && s'.spool.Keys == s.spool.Keys
      && (!step.Scan? && !step.Spawn? ==> s'.tasks == s.tasks && s'.scan == s.scan && s'.free == s.free)
      && forall id :: id in s.spool ==>
           && s'.spool[id].env == s.spool[id].env && s'.spool[id].bytes == s.spool[id].bytes
           && (Careful(s, step) ==> s'.spool[id].meta.attempts == s.spool[id].meta.attempts)
           && (Careful(s, step) && s'.spool[id] != s.spool[id] ==>
                 s.spool[id].meta.status != Active && s'.spool[id].meta.status != Active)
  {
    hide Lists, WriteBack, Fresh;
    if step.Put? {
      WriteBackIs(s, step.op, step.change);
    }
  }

  /** What a command writes back, and to what. */
  lemma WriteBackIs(s: State, op: OpId, change: Change)
    requires op in s.ops
    ensures var s', snap := WriteBack(s, op, change), s.ops[op];
      && s'.(spool := s.spool, ops := s.ops) == s && s'.spool.Keys == s.spool.Keys
      && forall id :: id in s.spool ==>
           && s'.spool[id].env == s.spool[id].env && s'.spool[id].bytes == s.spool[id].bytes
           && (id != snap.id ==> s'.spool[id] == s.spool[id])
           && (Fresh(s, snap) ==> s'.spool[id].meta.attempts == s.spool[id].meta.attempts)
           && (Fresh(s, snap) && id == snap.id ==> s.spool[id].meta.status != Active)
           && (id == snap.id ==> s'.spool[id].meta.status != Active)
  {
  }

  // ---- Counting in the log ----

  predicate Ends(e: Event, id: Id) {
    e == Delivered(id) || (e.Bounced? && e.id == id) || e == Dropped(id) || e == Deleted(id)
  }

  /** How often the message reached a final fate. */
  function Fates(log: seq<Event>, id: Id): nat {
    if log == [] then 0
    else Fates(log[..|log| - 1], id) + if Ends(log[|log| - 1], id) then 1 else 0
  }

  /** How many delivery tasks worked on the message. */
  function Starts(log: seq<Event>, id: Id): nat {
    if log == [] then 0
    else Starts(log[..|log| - 1], id) + if log[|log| - 1] == Started(id) then 1 else 0
  }

  lemma LogSnoc(log: seq<Event>, e: Event)
    ensures forall id: Id :: Fates(log + [e], id) == Fates(log, id) + if Ends(e, id) then 1 else 0
    ensures forall id: Id :: Starts(log + [e], id) == Starts(log, id) + if e == Started(id) then 1 else 0
  {
    assert (log + [e])[..|log|] == log;
  }

  // ---- Permits and exclusive work ----

  predicate OnePerMessage(tasks: map<TaskId, Task>) {
    forall t, t' :: t in tasks && t' in tasks && tasks[t].id == tasks[t'].id ==> t == t'
  }

  /** The rest of the scan is still to be spawned. */
  predicate ToSpawn(s: State) {
    NoDuplicates(s.scan) && forall t, i :: t in s.tasks && 0 <= i < |s.scan| ==> s.tasks[t].id != s.scan[i]
  }

  /** A working task's copy of the entry is the spool's, and Active. */
  predicate Copies(s: State) {
    forall t :: t in s.tasks && s.tasks[t].Working? ==>
      && s.tasks[t].id in s.spool && s.spool[s.tasks[t].id] == s.tasks[t].entry
      && s.tasks[t].entry.meta.status == Active
  }

  predicate IsActive(s: State, id: Id) { id in s.spool && s.spool[id].meta.status == Active }

  /** What a task is still to start on is not Active. */
  predicate Unstarted(s: State) {
    && (forall t :: t in s.tasks && s.tasks[t].Spawned? ==> !IsActive(s, s.tasks[t].id))
    && (forall i :: 0 <= i < |s.scan| ==> !IsActive(s, s.scan[i]))
  }

  /** Every permit is free or held by a task, no two tasks are on one message, and what they work on is Active. */
  predicate Exclusive(cfg: Config, s: State) {
    |s.tasks| + s.free == cfg.threads && OnePerMessage(s.tasks) && ToSpawn(s) && Copies(s) && Unstarted(s)
  }

  lemma Added(tasks: map<TaskId, Task>, tid: TaskId, t: Task)
    requires tid !in tasks
    ensures |tasks[tid := t]| == |tasks| + 1
  {
    assert tasks[tid := t].Keys == tasks.Keys + {tid};
    assert |tasks[tid := t]| == |tasks[tid := t].Keys| && |tasks| == |tasks.Keys|;
  }

  lemma Replaced(tasks: map<TaskId, Task>, tid: TaskId, t: Task)
    requires tid in tasks
    ensures |tasks[tid := t]| == |tasks|
  {
    assert tasks[tid := t].Keys == tasks.Keys;
    assert |tasks[tid := t]| == |tasks[tid := t].Keys| && |tasks| == |tasks.Keys|;
  }

  lemma Removed(tasks: map<TaskId, Task>, tid: TaskId)
    requires tid in tasks
    ensures |tasks - {tid}| == |tasks| - 1
  {
    assert (tasks - {tid}).Keys == tasks.Keys - {tid};
    assert |tasks - {tid}| == |(tasks - {tid}).Keys| && |tasks| == |tasks.Keys|;
  }

  /** Changes to the spool that keep the Active entries keep exclusiveness. */
  lemma SpoolOnly(cfg: Config, s: State, s': State)
    requires Exclusive(cfg, s)
    requires s'.tasks == s.tasks && s'.scan == s.scan && s'.free == s.free
    requires forall id :: IsActive(s, id) ==> id in s'.spool && s'.spool[id] == s.spool[id]
    requires forall id :: IsActive(s', id) ==> IsActive(s, id)
    ensures Exclusive(cfg, s')
  {
    hide OnePerMessage;
    forall t | t in s.tasks && s.tasks[t].Working?
      ensures s.tasks[t].id in s'.spool && s'.spool[s.tasks[t].id] == s.tasks[t].entry
    {
      assert IsActive(s, s.tasks[t].id);
    }
  }

  lemma ScanExclusive(cfg: Config, s: State, ids: seq<Id>, now: int)
    requires Exclusive(cfg, s) && Lists(s.spool, ids, now)
    requires forall t :: t in s.tasks ==> s.tasks[t].Working?
    ensures Exclusive(cfg, s.(scan := ids))
  {
    hide OnePerMessage;
    forall t, i | t in s.tasks && 0 <= i < |ids|
      ensures s.tasks[t].id != ids[i]
    {
      assert Due(s.spool[ids[i]], now);
    }
  }

  lemma SpawnExclusive(cfg: Config, s: State, tid: TaskId)
    requires Exclusive(cfg, s) && s.scan != [] && s.free > 0 && tid !in s.tasks
    ensures Exclusive(cfg, SpawnTask(s, tid))
  {
    hide Copies, Unstarted, OnePerMessage, ToSpawn;
    Added(s.tasks, tid, Spawned(s.scan[0]));
    SpawnDistinct(s, tid);
    SpawnUnstarted(s, tid);
  }

  lemma SpawnUnstarted(s: State, tid: TaskId)
    requires Copies(s) && Unstarted(s) && s.scan != [] && s.free > 0 && tid !in s.tasks
    ensures Copies(SpawnTask(s, tid)) && Unstarted(SpawnTask(s, tid))
  {
    var s' := SpawnTask(s, tid);
    assert forall i :: 0 <= i < |s'.scan| ==> s'.scan[i] == s.scan[i + 1];
    assert forall id :: IsActive(s', id) <==> IsActive(s, id);
  }

  lemma SpawnDistinct(s: State, tid: TaskId)
    requires OnePerMessage(s.tasks) && ToSpawn(s) && s.scan != [] && s.free > 0 && tid !in s.tasks
    ensures OnePerMessage(SpawnTask(s, tid).tasks) && ToSpawn(SpawnTask(s, tid))
  {
    var s' := SpawnTask(s, tid);
    forall t | t in s'.tasks && t != tid ensures t in s.tasks && s'.tasks[t].id != s.scan[0] {
    }
    forall t, i | t in s'.tasks && 0 <= i < |s'.scan| ensures s'.tasks[t].id != s'.scan[i] {
      assert s'.scan[i] == s.scan[i + 1];
    }
  }

  lemma MarkExclusive(cfg: Config, s: State, tid: TaskId)
    requires Exclusive(cfg, s) && tid in s.tasks && s.tasks[tid].Spawned?
    ensures Exclusive(cfg, MarkTask(s, tid))
  {
    hide OnePerMessage, ToSpawn, Copies, Unstarted;
    var id, s' := s.tasks[tid].id, MarkTask(s, tid);
    if id in s.spool {
      Replaced(s.tasks, tid, s'.tasks[tid]);
      MarkedDistinct(s, tid);
      MarkedUnstarted(s, tid);
    } else {
      EndedExclusive(cfg, s, tid, s');
    }
  }

  lemma MarkedDistinct(s: State, tid: TaskId)
    requires OnePerMessage(s.tasks) && ToSpawn(s) && Copies(s)
    requires tid in s.tasks && s.tasks[tid].Spawned? && s.tasks[tid].id in s.spool
    ensures var s' := MarkTask(s, tid); OnePerMessage(s'.tasks) && ToSpawn(s') && Copies(s')
  {
    hide NoDuplicates;
    var s' := MarkTask(s, tid);
    assert forall t :: t in s'.tasks ==> t in s.tasks && s'.tasks[t].id == s.tasks[t].id;
  }

  lemma MarkedUnstarted(s: State, tid: TaskId)
    requires OnePerMessage(s.tasks) && ToSpawn(s) && Unstarted(s)
    requires tid in s.tasks && s.tasks[tid].Spawned? && s.tasks[tid].id in s.spool
    ensures Unstarted(MarkTask(s, tid))
  {
    hide NoDuplicates;
    var s' := MarkTask(s, tid);
    assert forall i :: i != s.tasks[tid].id ==> (IsActive(s', i) <==> IsActive(s, i));
    assert forall t :: t in s'.tasks && t != tid ==> t in s.tasks && s'.tasks[t] == s.tasks[t];
  }

  /** A task that ends with its message no longer Active leaves the rest exclusive. */
  lemma EndedExclusive(cfg: Config, s: State, tid: TaskId, s': State)
    requires Exclusive(cfg, s) && tid in s.tasks
    requires s'.tasks == s.tasks - {tid} && s'.free == s.free + 1 && s'.scan == s.scan
    requires forall i :: IsActive(s, i) && i != s.tasks[tid].id ==> i in s'.spool && s'.spool[i] == s.spool[i]
    requires forall i :: IsActive(s', i) ==> i != s.tasks[tid].id && IsActive(s, i)
    ensures Exclusive(cfg, s')
  {
    hide OnePerMessage, ToSpawn, Copies;
    Removed(s.tasks, tid);
    EndedDistinct(s, tid, s');
  }

  lemma EndedDistinct(s: State, tid: TaskId, s': State)
    requires OnePerMessage(s.tasks) && ToSpawn(s) && Copies(s) && tid in s.tasks
    requires s'.tasks == s.tasks - {tid} && s'.scan == s.scan
    requires forall i :: IsActive(s, i) && i != s.tasks[tid].id ==> i in s'.spool && s'.spool[i] == s.spool[i]
    ensures OnePerMessage(s'.tasks) && ToSpawn(s') && Copies(s')
  {
    hide NoDuplicates;
    forall t | t in s'.tasks && s'.tasks[t].Working?
      ensures s.tasks[t].id in s'.spool && s'.spool[s.tasks[t].id] == s.tasks[t].entry
    {
      assert IsActive(s, s.tasks[t].id);
    }
  }

  lemma FinishExclusive(cfg: Config, s: State, tid: TaskId, mx: Mx, now: int, bounce: Id)
    requires Exclusive(cfg, s) && tid in s.tasks && s.tasks[tid].Working? && bounce !in s.spool
    ensures Exclusive(cfg, FinishTask(cfg, s, tid, mx, now, bounce))
  {
    hide Exclusive, FinishTask;
    FinishIs(cfg, s, tid, mx, now, bounce);
    EndedExclusive(cfg, s, tid, FinishTask(cfg, s, tid, mx, now, bounce));
  }

  /** However a task ends, only its own message changes, which is no longer Active, and a bounce may come in. */
  lemma FinishIs(cfg: Config, s: State, tid: TaskId, mx: Mx, now: int, bounce: Id)
    requires tid in s.tasks && s.tasks[tid].Working? && bounce !in s.spool
    ensures var id, s' := s.tasks[tid].id, FinishTask(cfg, s, tid, mx, now, bounce);
      && s'.tasks == s.tasks - {tid} && s'.free == s.free + 1 && s'.scan == s.scan
      && (forall i :: i in s.spool && i != id ==> i in s'.spool && s'.spool[i] == s.spool[i])
      && (forall i :: i in s'.spool && i != bounce ==> i in s.spool && (i == id || s'.spool[i] == s.spool[i]))
      && (forall i :: i in s'.spool && (i == bounce || i == id) ==> s'.spool[i].meta.status != Active)
  {
    hide Generate, Conclude;
    DeferWithinCap(cfg, s.tasks[tid].entry, mx, now);
  }

  lemma ApplyExclusive(cfg: Config, s: State, step: Step)
    requires Exclusive(cfg, s) && s.spool.Keys <= s.used && Enabled(s, step) && Careful(s, step)
    ensures Exclusive(cfg, Apply(cfg, s, step))
  {
    hide Exclusive, Lists, MarkTask, FinishTask;
    match step
    case Scan(ids, now) => ScanExclusive(cfg, s, ids, now);
    case Spawn(tid) => SpawnExclusive(cfg, s, tid);
    case Mark(tid) => MarkExclusive(cfg, s, tid);
    case Finish(tid, mx, now, bounce) => FinishExclusive(cfg, s, tid, mx, now, bounce);
    case Accept(_, _, _, _) => SpoolOnly(cfg, s, Apply(cfg, s, step));
    case Delete(_) => SpoolOnly(cfg, s, Apply(cfg, s, step));
    case _ => TouchedExclusive(cfg, s, step);
  }

  lemma TouchedExclusive(cfg: Config, s: State, step: Step)
    requires Exclusive(cfg, s) && Enabled(s, step) && Careful(s, step)
    requires step.Look? || step.Put?
    ensures Exclusive(cfg, Apply(cfg, s, step))
  {
    hide Apply, Exclusive;
    QuietStep(cfg, s, step);
    SpoolOnly(cfg, s, Apply(cfg, s, step));
  }

  // ---- Active messages have a task ----

  ghost predicate WorkedOn(s: State, id: Id)
    requires id in s.spool
  {
    exists t :: t in s.tasks && s.tasks[t] == Working(id, s.spool[id])
  }

  ghost predicate Covered(s: State) { forall id :: IsActive(s, id) ==> WorkedOn(s, id) }

  /** What was Active stays with its task, unless that is `tid`; `tid` has its own message. */
  lemma StillCovered(s: State, s': State, tid: TaskId, own: Id)
    requires Covered(s) && (tid in s.tasks ==> s.tasks[tid].id == own)
    requires forall t :: t in s.tasks && t != tid ==> t in s'.tasks && s'.tasks[t] == s.tasks[t]
    requires forall i :: IsActive(s', i) && i != own ==> i in s.spool && s'.spool[i] == s.spool[i]
    requires IsActive(s', own) ==> WorkedOn(s', own)
    ensures Covered(s')
  {
    forall i | IsActive(s', i) && i != own
      ensures WorkedOn(s', i)
    {
      assert IsActive(s, i);
      var t :| t in s.tasks && s.tasks[t] == Working(i, s.spool[i]);
      assert t in s'.tasks && s'.tasks[t] == Working(i, s'.spool[i]);
    }
  }

  lemma MarkCovered(s: State, tid: TaskId)
    requires Covered(s) && tid in s.tasks && s.tasks[tid].Spawned?
    ensures Covered(MarkTask(s, tid))
  {
    hide Covered;
    var s', id := MarkTask(s, tid), s.tasks[tid].id;
    if id in s.spool {
      assert tid in s'.tasks && s'.tasks[tid] == Working(id, s'.spool[id]);
    }
    StillCovered(s, s', tid, id);
  }

  lemma FinishCovered(cfg: Config, s: State, tid: TaskId, mx: Mx, now: int, bounce: Id)
    requires Covered(s) && tid in s.tasks && s.tasks[tid].Working? && bounce !in s.spool
    ensures Covered(FinishTask(cfg, s, tid, mx, now, bounce))
  {
    hide Covered, FinishTask, WorkedOn;
    FinishIs(cfg, s, tid, mx, now, bounce);
    StillCovered(s, FinishTask(cfg, s, tid, mx, now, bounce), tid, s.tasks[tid].id);
  }

  lemma SameTasksCovered(s: State, s': State)
    requires Covered(s) && s'.tasks == s.tasks
    requires forall i :: IsActive(s', i) ==> i in s.spool && s'.spool[i] == s.spool[i]
    ensures Covered(s')
  {
    forall i | IsActive(s', i)
      ensures WorkedOn(s', i)
    {
      assert IsActive(s, i);
      assert WorkedOn(s, i);
    }
  }

  lemma SpawnCovered(s: State, tid: TaskId)
    requires Covered(s) && s.scan != [] && s.free > 0 && tid !in s.tasks
    ensures Covered(SpawnTask(s, tid))
  {
    var s' := SpawnTask(s, tid);
    forall i | IsActive(s', i)
      ensures WorkedOn(s', i)
    {
      assert IsActive(s, i);
      var t :| t in s.tasks && s.tasks[t] == Working(i, s.spool[i]);
      assert t in s'.tasks && s'.tasks[t] == Working(i, s'.spool[i]);
    }
  }

  /** Every step, careful or not, keeps a task at every Active message. */
  lemma ApplyCovered(cfg: Config, s: State, step: Step)
    requires Covered(s) && s.spool.Keys <= s.used && Enabled(s, step)
    ensures Covered(Apply(cfg, s, step))
  {
    hide Covered, Lists, MarkTask, FinishTask, WriteBack;
    match step
    case Spawn(tid) => SpawnCovered(s, tid);
    case Mark(tid) => MarkCovered(s, tid);
    case Finish(tid, mx, now, bounce) => FinishCovered(cfg, s, tid, mx, now, bounce);
    case Put(op, change) =>
      WriteBackIs(s, op, change);
      SameTasksCovered(s, Apply(cfg, s, step));
    case _ => SameTasksCovered(s, Apply(cfg, s, step));
  }

  // ---- Every message has one place ----

  /** A message given an id is in the spool or has met one fate, never both and never two. */
  ghost predicate Accounted(s: State) {
    && s.spool.Keys <= s.used
    && (forall id :: id in s.used ==> Fates(s.log, id) + (if id in s.spool then 1 else 0) == 1)
    && (forall id :: id !in s.used ==> Fates(s.log, id) == 0 && Starts(s.log, id) == 0)
  }

  /** Steps that neither add nor remove messages. */
  lemma SameMessages(s: State, s': State)
    requires Accounted(s) && s'.spool.Keys == s.spool.Keys && s'.used == s.used
    requires s'.log == s.log || exists id :: id in s.used && s'.log == s.log + [Started(id)]
    ensures Accounted(s')
  {
    if s'.log != s.log {
      var id :| id in s.used && s'.log == s.log + [Started(id)];
      LogSnoc(s.log, Started(id));
    }
    hide Fates, Starts;
    assert forall id :: id in s'.spool <==> id in s.spool;
  }

  lemma GoneAccounted(s: State, id: Id, e: Event)
    requires Accounted(s) && id in s.spool && Ends(e, id)
    ensures Accounted(Gone(s, id, e))
  {
    LogSnoc(s.log, e);
    hide Fates, Starts;
    assert forall i :: i != id ==> !Ends(e, i);
  }

  lemma EnqueuedAccounted(s: State, id: Id, e: Entry)
    requires Accounted(s) && id !in s.used
    ensures Accounted(Enqueued(s, id, e))
  {
    hide Fates, Starts;
  }

  lemma AcceptAccounted(s: State, id: Id, e: Entry)
    requires Accounted(s) && id !in s.used
    ensures Accounted(AcceptEntry(s, id, e))
  {
    LogSnoc(s.log, Accepted(id, e.env, e.bytes));
    hide Fates, Starts;
  }

  lemma FinishAccounted(cfg: Config, s: State, tid: TaskId, mx: Mx, now: int, bounce: Id)
    requires Accounted(s) && tid in s.tasks && s.tasks[tid].Working? && s.tasks[tid].id in s.spool
    requires bounce !in s.used
    ensures Accounted(FinishTask(cfg, s, tid, mx, now, bounce))
  {
    hide Accounted, NullSender;
    var id, entry, s0 := s.tasks[tid].id, s.tasks[tid].entry, Ended(s, tid);
    var s' := FinishTask(cfg, s, tid, mx, now, bounce);
    SameMessages(s, s0);
    match Conclude(cfg, entry, mx, now)
    case Done => GoneAccounted(s0, id, Delivered(id));
    case Defer(meta) => SameMessages(s0, s');
    case GiveUp(error, original) =>
      match Generate(cfg, entry.env, error, original) {
        case NoBounce => GoneAccounted(s0, id, Dropped(id));
        case Bounce(env, bytes) =>
          EnqueuedAccounted(s0, bounce, NewEntry(env, bytes, now));
          GoneAccounted(Enqueued(s0, bounce, NewEntry(env, bytes, now)), id, Bounced(id, bounce));
      }
  }

  lemma ApplyAccounted(cfg: Config, s: State, step: Step)
    requires Copies(s) && Accounted(s) && Enabled(s, step)
    ensures Accounted(Apply(cfg, s, step))
  {
    hide FinishTask, MarkTask, WriteBack, Lists, Accounted;
    match step
    case Accept(id, env, bytes, now) => AcceptAccounted(s, id, NewEntry(env, bytes, now));
    case Finish(tid, mx, now, bounce) => FinishAccounted(cfg, s, tid, mx, now, bounce);
    case Delete(id) => if id in s.spool { GoneAccounted(s, id, Deleted(id)); }
    case Mark(tid) => MarkAccounted(s, tid);
    case _ =>
      QuietStep(cfg, s, step);
      SameMessages(s, Apply(cfg, s, step));
  }

  lemma ExclusiveCopies(cfg: Config, s: State)
    requires Exclusive(cfg, s)
    ensures Copies(s)
  {
  }

  lemma MarkAccounted(s: State, tid: TaskId)
    requires Accounted(s) && tid in s.tasks
    ensures Accounted(MarkTask(s, tid))
  {
    hide Fates, Starts;
    if s.tasks[tid].id in s.spool {
      assert s.tasks[tid].id in s.used;
    }
    SameMessages(s, MarkTask(s, tid));
  }

  // ---- Retries are bounded ----

  /** A message gets at least one attempt, whatever `max_attempts` says. */
  function Cap(cfg: Config): nat { if cfg.maxAttempts == 0 then 1 else cfg.maxAttempts }

  predicate WithinCap(cfg: Config, m: Meta) {
    && (m.attempts < Cap(cfg) || (m.attempts == Cap(cfg) && m.status == Active))
    && (m.status == Active ==> m.attempts >= 1)
  }

  /** No snapshot counts an attempt that was not made. */
  predicate Dated(s: State) {
    forall op :: op in s.ops ==> s.ops[op].meta.attempts <= Starts(s.log, s.ops[op].id)
  }

  /** The attempt counter in the spool is the number of tasks that worked on the message, and a
      message not being worked on has an attempt left. */
  ghost predicate Limited(cfg: Config, s: State) {
    && (forall id :: id in s.spool ==>
          Starts(s.log, id) == s.spool[id].meta.attempts && WithinCap(cfg, s.spool[id].meta))
    && (forall id: Id :: Starts(s.log, id) <= Cap(cfg))
    && Dated(s)
  }

  lemma DeferWithinCap(cfg: Config, queued: Entry, mx: Mx, now: int)
    ensures var c := Conclude(cfg, queued, mx, now);
      c.Defer? ==> c.meta.attempts == queued.meta.attempts < cfg.maxAttempts && c.meta.status == Deferred
  {
  }

  /** Steps that log no start and keep the counters of the messages that stay; new ones are unused. */
  lemma NoStartLimited(cfg: Config, s: State, s': State)
    requires Limited(cfg, s) && Accounted(s)
    requires forall id: Id :: Starts(s'.log, id) == Starts(s.log, id)
    requires s'.ops == s.ops
    requires forall id :: id in s'.spool ==> WithinCap(cfg, s'.spool[id].meta)
    requires forall id :: id in s'.spool ==>
      if id in s.spool then s'.spool[id].meta.attempts == s.spool[id].meta.attempts
      else id !in s.used && s'.spool[id].meta.attempts == 0
    ensures Limited(cfg, s')
  {
    hide Starts, Fates, WithinCap;
  }

  /** A message whose task has not started is not Active. */
  lemma SpawnedIdle(cfg: Config, s: State, tid: TaskId)
    requires Exclusive(cfg, s) && tid in s.tasks && s.tasks[tid].Spawned? && s.tasks[tid].id in s.spool
    ensures s.spool[s.tasks[tid].id].meta.status != Active
  {
    hide ToSpawn, Copies;
    assert !IsActive(s, s.tasks[tid].id);
  }

  lemma MarkLimited(cfg: Config, s: State, tid: TaskId)
    requires Limited(cfg, s) && Exclusive(cfg, s) && tid in s.tasks && s.tasks[tid].Spawned?
    ensures Limited(cfg, MarkTask(s, tid))
  {
    hide Exclusive, Starts;
    var id, s' := s.tasks[tid].id, MarkTask(s, tid);
    if id in s.spool {
      SpawnedIdle(cfg, s, tid);
      OneStart(s.log, id);
    }
  }

  lemma OneStart(log: seq<Event>, id: Id)
    ensures Starts(log + [Started(id)], id) == Starts(log, id) + 1
    ensures forall i: Id :: i != id ==> Starts(log + [Started(id)], i) == Starts(log, i)
  {
    hide Fates;
    LogSnoc(log, Started(id));
  }

  lemma LastStarts(s: State, e: Event)
    requires !e.Started?
    ensures forall id: Id :: Starts(s.log + [e], id) == Starts(s.log, id)
  {
    LogSnoc(s.log, e);
  }

  lemma FinishLimited(cfg: Config, s: State, tid: TaskId, mx: Mx, now: int, bounce: Id)
    requires Limited(cfg, s) && Accounted(s) && Copies(s) && bounce !in s.used
    requires tid in s.tasks && s.tasks[tid].Working?
    ensures Limited(cfg, FinishTask(cfg, s, tid, mx, now, bounce))
  {
    hide Starts, Fates, NullSender, Conclude;
    var id, s' := s.tasks[tid].id, FinishTask(cfg, s, tid, mx, now, bounce);
    DeferWithinCap(cfg, s.tasks[tid].entry, mx, now);
    LastStarts(s, Delivered(id));
    LastStarts(s, Dropped(id));
    LastStarts(s, Bounced(id, bounce));
    NoStartLimited(cfg, s, s');
  }

  lemma QuietLimited(cfg: Config, s: State, step: Step)
    requires Limited(cfg, s) && Quiet(step) && Enabled(s, step) && Careful(s, step)
    ensures Limited(cfg, Apply(cfg, s, step))
  {
    hide Apply, Enabled, Careful, Starts, Dated;
    QuietStep(cfg, s, step);
    QuietDated(cfg, s, step);
  }

  lemma QuietDated(cfg: Config, s: State, step: Step)
    requires Limited(cfg, s) && Quiet(step) && Enabled(s, step)
    ensures Dated(Apply(cfg, s, step))
  {
    hide Starts, Lists, WriteBack, WithinCap;
    if step.Put? {
      WriteBackOps(s, step.op, step.change);
    }
  }

  lemma WriteBackOps(s: State, op: OpId, change: Change)
    requires op in s.ops
    ensures WriteBack(s, op, change).ops == s.ops - {op} && WriteBack(s, op, change).log == s.log
  {
  }

  lemma AcceptLimited(cfg: Config, s: State, id: Id, e: Entry)
    requires Limited(cfg, s) && Accounted(s) && id !in s.used && e.meta.attempts == 0 && e.meta.status == Pending
    ensures Limited(cfg, AcceptEntry(s, id, e))
  {
    hide Starts, Fates;
    LastStarts(s, Accepted(id, e.env, e.bytes));
    NoStartLimited(cfg, s, AcceptEntry(s, id, e));
  }

  lemma DeleteLimited(cfg: Config, s: State, id: Id)
    requires Limited(cfg, s) && Accounted(s)
    ensures Limited(cfg, Gone(s, id, Deleted(id)))
  {
    hide Starts, Fates;
    LastStarts(s, Deleted(id));
    NoStartLimited(cfg, s, Gone(s, id, Deleted(id)));
  }

  lemma ApplyLimited(cfg: Config, s: State, step: Step)
    requires Exclusive(cfg, s) && Accounted(s) && Limited(cfg, s) && Enabled(s, step) && Careful(s, step)
    ensures Limited(cfg, Apply(cfg, s, step))
  {
    hide FinishTask, MarkTask, WriteBack, AcceptEntry, Lists, Exclusive, Accounted, Copies, Limited;
    ExclusiveCopies(cfg, s);
    match step
    case Mark(tid) => MarkLimited(cfg, s, tid);
    case Finish(tid, mx, now, bounce) => FinishLimited(cfg, s, tid, mx, now, bounce);
    case Accept(id, env, bytes, now) => AcceptLimited(cfg, s, id, NewEntry(env, bytes, now));
    case Delete(id) => if id in s.spool { DeleteLimited(cfg, s, id); }
    case _ => QuietLimited(cfg, s, step);
  }

  // ---- Whole runs ----

  ghost predicate Settled(cfg: Config, s: State) { Exclusive(cfg, s) && Accounted(s) && Limited(cfg, s) }

  ghost predicate Safe(cfg: Config, s: State) { Settled(cfg, s) && Covered(s) }

  lemma ApplySettled(cfg: Config, s: State, step: Step)
    requires Settled(cfg, s) && Enabled(s, step) && Careful(s, step)
    ensures Settled(cfg, Apply(cfg, s, step))
  {
    hide Apply, Exclusive, Accounted, Limited;
    AccountedKeys(s);
    ExclusiveCopies(cfg, s);
    ApplyExclusive(cfg, s, step);
    ApplyAccounted(cfg, s, step);
    ApplyLimited(cfg, s, step);
  }

  lemma ApplySafe(cfg: Config, s: State, step: Step)
    requires Safe(cfg, s) && Enabled(s, step) && Careful(s, step)
    ensures Safe(cfg, Apply(cfg, s, step))
  {
    hide Apply, Exclusive, Accounted, Limited, Covered;
    AccountedKeys(s);
    ApplySettled(cfg, s, step);
    ApplyCovered(cfg, s, step);
  }

  lemma InitSafe(cfg: Config)
    ensures Safe(cfg, Init(cfg))
  {
  }

  /** The delivery protocol over every interleaving: if the operator leaves Active messages alone,
      every reachable state has its permits accounted for, at most one task per message, every
      message in exactly one place, and no message worked on more often than the cap allows. */
  lemma {:induction false} RunSafe(cfg: Config, s: State, steps: seq<Step>)
    requires Safe(cfg, s) && Possible(cfg, s, steps) && CarefulRun(cfg, s, steps)
    ensures Safe(cfg, After(cfg, s, steps))
    decreases |steps|
  {
    hide Apply, Safe;
    if steps != [] {
      ApplySafe(cfg, s, steps[0]);
      RunSafe(cfg, Apply(cfg, s, steps[0]), steps[1..]);
    }
  }

  lemma AccountedKeys(s: State)
    requires Accounted(s)
    ensures s.spool.Keys <= s.used
  {
  }

  /** What a careful run from the start promises, in the terms of the log. */
  lemma DeliverySafety(cfg: Config, steps: seq<Step>)
    requires Possible(cfg, Init(cfg), steps) && CarefulRun(cfg, Init(cfg), steps)
    ensures var s := After(cfg, Init(cfg), steps);
      && |s.tasks| + s.free == cfg.threads
      && OnePerMessage(s.tasks)
      && (forall id :: id in s.used ==> Fates(s.log, id) == if id in s.spool then 0 else 1)
      && (forall id: Id :: Starts(s.log, id) <= Cap(cfg))
      && (forall id :: id in s.spool && Starts(s.log, id) == Cap(cfg) ==> WorkedOn(s, id))
  {
    InitSafe(cfg);
    RunSafe(cfg, Init(cfg), steps);
    hide Fates, Starts;
    var s := After(cfg, Init(cfg), steps);
    forall id | id in s.spool && Starts(s.log, id) == Cap(cfg)
      ensures WorkedOn(s, id)
    {
      assert IsActive(s, id);
    }
  }

  /** The delay after `k` attempts: the list starts counting at 0 and its last interval repeats. */
  function Interval(cfg: Config, k: nat): int {
    if cfg.intervals == [] then HOUR
    else if k < |cfg.intervals| then cfg.intervals[k]
    else cfg.intervals[|cfg.intervals| - 1]
  }

  /** A message deferred by its k-th task waits the k-th interval, counted from 0. As k is at least 1, the
      first interval of a longer list is never waited. */
  lemma RetryDelays(cfg: Config, s: State, tid: TaskId, mx: Mx, now: int, bounce: Id)
    requires Safe(cfg, s) && tid in s.tasks && s.tasks[tid].Working?
    requires Conclude(cfg, s.tasks[tid].entry, mx, now).Defer?
    ensures var id, s' := s.tasks[tid].id, FinishTask(cfg, s, tid, mx, now, bounce);
      && id in s'.spool && Starts(s.log, id) >= 1
      && s'.spool[id].meta.nextRetry == now + Interval(cfg, Starts(s.log, id))
      && s'.spool[id].meta.status == Deferred
      && s'.spool[id].env == s.spool[id].env && s'.spool[id].bytes == s.spool[id].bytes
  {
    hide Starts, Decide, Accounted, OnePerMessage, ToSpawn, Unstarted, Covered;
    var id := s.tasks[tid].id;
    assert id in s.spool && s.spool[id] == s.tasks[tid].entry && s.spool[id].meta.status == Active;
  }
}
