/** What the relay can do on its own: whatever scan and tasks are under way, a message that is due, listed or on a task
    is started in some run without the operator. */
module Starting {
  import opened Queue
  import opened Delivery
  import opened DeliveryRuns

  /** No operator command is begun, written back or carried out. */
  predicate Unattended(steps: seq<Step>) {
    forall i :: 0 <= i < |steps| ==> !steps[i].Look? && !steps[i].Put? && !steps[i].Delete?
  }

  ghost predicate LeadsAlone(cfg: Config, s: State, steps: seq<Step>, s': State) {
    LeadsCarefully(cfg, s, steps, s') && Unattended(steps)
  }

  lemma AloneStep(cfg: Config, s: State, step: Step)
    requires Enabled(s, step) && !step.Look? && !step.Put? && !step.Delete?
    ensures LeadsAlone(cfg, s, [step], Apply(cfg, s, step))
  {
    hide Enabled, Apply, LeadsCarefully;
    OneStep(cfg, s, step);
  }

  lemma AloneJoin(cfg: Config, s: State, a: seq<Step>, s1: State, b: seq<Step>, s2: State)
    requires LeadsAlone(cfg, s, a, s1) && LeadsAlone(cfg, s1, b, s2)
    ensures LeadsAlone(cfg, s, a + b, s2)
  {
    hide LeadsCarefully;
    RunJoin(cfg, s, a, s1, b, s2);
  }

  lemma AloneCareful(cfg: Config, s: State, steps: seq<Step>, s': State)
    requires LeadsAlone(cfg, s, steps, s')
    ensures LeadsCarefully(cfg, s, steps, s')
  {
  }

  lemma Stay(cfg: Config, s: State)
    ensures LeadsAlone(cfg, s, [], s)
  {
  }

  /** Nothing is working on message `id`. */
  ghost predicate Idle(cfg: Config, s: State, id: Id) {
    && |s.tasks| + s.free == cfg.threads && s.spool.Keys <= s.used
    && id in s.spool && !IsActive(s, id)
    && (forall t :: t in s.tasks && s.tasks[t].Working? ==> s.tasks[t].id != id)
  }

  /** The message is as it was. */
  predicate Same(s: State, s': State, id: Id) {
    id in s.spool && id in s'.spool && s'.spool[id] == s.spool[id] && Starts(s'.log, id) == Starts(s.log, id)
  }

  predicate Awaits(s: State, id: Id) { exists t :: t in s.tasks && s.tasks[t] == Spawned(id) }

  // ---- Tasks on other messages ----

  lemma SentEnds(cfg: Config, s: State, tid: TaskId, b: Id)
    requires tid in s.tasks && s.tasks[tid].Working?
    ensures FinishTask(cfg, s, tid, Hosts([[Sent]]), 0, b)
         == Gone(Ended(s, tid), s.tasks[tid].id, Delivered(s.tasks[tid].id))
  {
    assert Concat([[Sent]]) == [Sent];
  }

  /** A task on another message ends with that message delivered. */
  lemma OtherEnds(cfg: Config, s: State, id: Id, tid: TaskId) returns (steps: seq<Step>, s': State)
    requires Idle(cfg, s, id) && tid in s.tasks && s.tasks[tid].Working?
    ensures LeadsAlone(cfg, s, steps, s') && Idle(cfg, s', id) && Same(s, s', id)
    ensures s'.tasks == s.tasks - {tid} && s'.scan == s.scan && s'.ops == s.ops
  {
    hide Idle, Same, LeadsAlone, FinishTask;
    var b := FreshId(s.used);
    var step := Finish(tid, Hosts([[Sent]]), 0, b);
    AloneStep(cfg, s, step);
    SentEnds(cfg, s, tid, b);
    steps, s' := [step], Gone(Ended(s, tid), s.tasks[tid].id, Delivered(s.tasks[tid].id));
    GoneIdle(cfg, s, id, tid);
  }

  lemma GoneIdle(cfg: Config, s: State, id: Id, tid: TaskId)
    requires Idle(cfg, s, id) && tid in s.tasks && s.tasks[tid].Working?
    ensures var s' := Gone(Ended(s, tid), s.tasks[tid].id, Delivered(s.tasks[tid].id));
      Idle(cfg, s', id) && Same(s, s', id)
  {
    hide Starts;
    LastStarts(s, Delivered(s.tasks[tid].id));
    Removed(s.tasks, tid);
  }

  lemma MarkedElsewhere(cfg: Config, s: State, id: Id, tid: TaskId)
    requires Idle(cfg, s, id) && tid in s.tasks && s.tasks[tid].Spawned? && s.tasks[tid].id != id
    ensures Idle(cfg, MarkTask(s, tid), id) && Same(s, MarkTask(s, tid), id)
  {
    LogSnoc(s.log, Started(s.tasks[tid].id));
    Removed(s.tasks, tid);
    if s.tasks[tid].id in s.spool {
      Replaced(s.tasks, tid, MarkTask(s, tid).tasks[tid]);
    }
    hide Starts;
  }

  lemma StrangerEnds(cfg: Config, s: State, id: Id, tid: TaskId) returns (steps: seq<Step>, s': State)
    requires Idle(cfg, s, id) && tid in s.tasks && s.tasks[tid] != Spawned(id)
    ensures LeadsAlone(cfg, s, steps, s') && Idle(cfg, s', id) && Same(s, s', id)
    ensures s'.tasks == s.tasks - {tid} && s'.scan == s.scan && s'.ops == s.ops
  {
    hide Idle, Starts, LeadsAlone;
    if s.tasks[tid].Working? {
      steps, s' := OtherEnds(cfg, s, id, tid);
    } else {
      AloneStep(cfg, s, Mark(tid));
      var s1 := MarkTask(s, tid);
      MarkedElsewhere(cfg, s, id, tid);
      if s.tasks[tid].id in s.spool {
        var more: seq<Step>;
        more, s' := OtherEnds(cfg, s1, id, tid);
        AloneJoin(cfg, s, [Mark(tid)], s1, more, s');
        steps := [Mark(tid)] + more;
        assert s1.tasks - {tid} == s.tasks - {tid};
      } else {
        steps, s' := [Mark(tid)], s1;
      }
    }
  }

  // ---- The message itself ----

  lemma StartIt(cfg: Config, s: State, id: Id, tid: TaskId) returns (steps: seq<Step>, s': State)
    requires id in s.spool && tid in s.tasks && s.tasks[tid] == Spawned(id)
    ensures LeadsAlone(cfg, s, steps, s') && Starts(s'.log, id) == Starts(s.log, id) + 1
  {
    hide LeadsAlone, Starts;
    AloneStep(cfg, s, Mark(tid));
    steps, s' := [Mark(tid)], MarkTask(s, tid);
    OneStart(s.log, id);
  }

  /** A permit is free, or a task on another message ends and frees one. */
  lemma MakeRoom(cfg: Config, s: State, id: Id) returns (steps: seq<Step>, s': State)
    requires Idle(cfg, s, id) && cfg.threads > 0 && !Awaits(s, id)
    ensures LeadsAlone(cfg, s, steps, s') && Idle(cfg, s', id) && Same(s, s', id) && !Awaits(s', id)
    ensures s'.free > 0 && s'.scan == s.scan
  {
    hide LeadsAlone, Starts;
    if s.free > 0 {
      steps, s' := [], s;
      Stay(cfg, s);
    } else {
      var tid :| tid in s.tasks;
      steps, s' := StrangerEnds(cfg, s, id, tid);
      Removed(s.tasks, tid);
    }
  }

  lemma SpawnNext(cfg: Config, s: State, id: Id) returns (tid: TaskId, s': State)
    requires Idle(cfg, s, id) && s.free > 0 && s.scan != []
    ensures LeadsAlone(cfg, s, [Spawn(tid)], s') && Idle(cfg, s', id) && Same(s, s', id)
    ensures s'.scan == s.scan[1..] && tid in s'.tasks && s'.tasks[tid] == Spawned(s.scan[0])
    ensures tid !in s.tasks && s'.tasks - {tid} == s.tasks
  {
    hide LeadsAlone, Starts;
    tid := FreshId(s.tasks.Keys);
    s' := SpawnTask(s, tid);
    AloneStep(cfg, s, Spawn(tid));
    Added(s.tasks, tid, Spawned(s.scan[0]));
  }

  /** A message that is listed or on a task comes to be started. */
  lemma {:induction false} ListedStarts(cfg: Config, s: State, id: Id) returns (steps: seq<Step>, s': State)
    requires Idle(cfg, s, id) && cfg.threads > 0 && (id in s.scan || Awaits(s, id))
    ensures LeadsAlone(cfg, s, steps, s') && Starts(s'.log, id) == Starts(s.log, id) + 1
    decreases |s.scan|
  {
    hide Idle, LeadsAlone, Starts;
    if Awaits(s, id) {
      var tid :| tid in s.tasks && s.tasks[tid] == Spawned(id);
      assert id in s.spool by { IdleThere(cfg, s, id); }
      steps, s' := StartIt(cfg, s, id, tid);
    } else {
      var more, s1 := MakeRoom(cfg, s, id);
      var tid, s2 := SpawnNext(cfg, s1, id);
      AloneJoin(cfg, s, more, s1, [Spawn(tid)], s2);
      assert s.scan[0] == id ==> Awaits(s2, id);
      assert s.scan == [s.scan[0]] + s.scan[1..];
      var rest: seq<Step>;
      rest, s' := ListedStarts(cfg, s2, id);
      AloneJoin(cfg, s, more + [Spawn(tid)], s2, rest, s');
      steps := more + [Spawn(tid)] + rest;
    }
  }

  lemma IdleThere(cfg: Config, s: State, id: Id)
    requires Idle(cfg, s, id)
    ensures id in s.spool
  {
  }

  lemma {:induction false} TasksDone(cfg: Config, s: State, id: Id) returns (steps: seq<Step>, s': State)
    requires Idle(cfg, s, id) && !Awaits(s, id)
    ensures LeadsAlone(cfg, s, steps, s') && Idle(cfg, s', id) && Same(s, s', id)
    ensures s'.tasks == map[] && s'.scan == s.scan
    decreases |s.tasks|
  {
    hide LeadsAlone, Starts;
    if s.tasks == map[] {
      steps, s' := [], s;
      Stay(cfg, s);
    } else {
      var tid :| tid in s.tasks;
      var s1: State;
      steps, s1 := StrangerEnds(cfg, s, id, tid);
      Removed(s.tasks, tid);
      var more: seq<Step>;
      more, s' := TasksDone(cfg, s1, id);
      AloneJoin(cfg, s, steps, s1, more, s');
      steps := steps + more;
    }
  }

  /** The scan under way and all its tasks can be finished. */
  lemma {:induction false} AllDone(cfg: Config, s: State, id: Id) returns (steps: seq<Step>, s': State)
    requires Idle(cfg, s, id) && cfg.threads > 0 && id !in s.scan && !Awaits(s, id)
    ensures LeadsAlone(cfg, s, steps, s') && Idle(cfg, s', id) && Same(s, s', id)
    ensures s'.tasks == map[] && s'.scan == []
    decreases |s.scan|
  {
    hide Idle, LeadsAlone, Starts;
    var s1: State;
    steps, s1 := TasksDone(cfg, s, id);
    s' := s1;
    if s1.scan != [] {
      assert s1.free > 0 by { NoTasks(cfg, s1, id); }
      var tid, s2 := SpawnNext(cfg, s1, id);
      AloneJoin(cfg, s, steps, s1, [Spawn(tid)], s2);
      assert forall t :: t in s2.tasks && t != tid ==> t in s2.tasks - {tid};
      assert s1.scan == [s1.scan[0]] + s1.scan[1..];
      var more: seq<Step>;
      more, s' := AllDone(cfg, s2, id);
      AloneJoin(cfg, s, steps + [Spawn(tid)], s2, more, s');
      steps := steps + [Spawn(tid)] + more;
    }
  }

  lemma NoTasks(cfg: Config, s: State, id: Id)
    requires Idle(cfg, s, id) && s.tasks == map[]
    ensures s.free == cfg.threads
  {
  }

  /** A message that is due sooner or later is listed by a scan at that time, and started. */
  lemma DueStarts(cfg: Config, s: State, id: Id) returns (steps: seq<Step>, s': State)
    requires Idle(cfg, s, id) && cfg.threads > 0 && s.tasks == map[] && s.scan == []
    requires s.spool[id].meta.status == Pending || s.spool[id].meta.status == Deferred
    ensures LeadsAlone(cfg, s, steps, s') && Starts(s'.log, id) == Starts(s.log, id) + 1
  {
    hide LeadsAlone, Starts, Lists;
    var now := s.spool[id].meta.nextRetry;
    var ids := ListDue(s.spool, id, now);
    AloneStep(cfg, s, Scan(ids, now));
    var s1 := s.(scan := ids);
    var more: seq<Step>;
    more, s' := ListedStarts(cfg, s1, id);
    AloneJoin(cfg, s, [Scan(ids, now)], s1, more, s');
    steps := [Scan(ids, now)] + more;
  }

  /** The message is due at some time, listed, or on a task. */
  predicate Startable(s: State, id: Id)
    requires id in s.spool
  {
    var status := s.spool[id].meta.status;
    status == Pending || status == Deferred || id in s.scan || Awaits(s, id)
  }

  lemma GetsStarted(cfg: Config, s: State, id: Id) returns (steps: seq<Step>, s': State)
    requires Idle(cfg, s, id) && cfg.threads > 0 && Startable(s, id)
    ensures LeadsAlone(cfg, s, steps, s') && Starts(s'.log, id) == Starts(s.log, id) + 1
  {
    hide Idle, LeadsAlone, Starts, Awaits;
    if id in s.scan || Awaits(s, id) {
      steps, s' := ListedStarts(cfg, s, id);
    } else {
      var s1: State;
      steps, s1 := AllDone(cfg, s, id);
      var more: seq<Step>;
      more, s' := DueStarts(cfg, s1, id);
      AloneJoin(cfg, s, steps, s1, more, s');
      steps := steps + more;
    }
  }

  /** A held message is released, with care. */
  lemma Released(cfg: Config, s: State, id: Id) returns (steps: seq<Step>, s': State)
    requires Idle(cfg, s, id)
    ensures LeadsCarefully(cfg, s, steps, s') && Idle(cfg, s', id) && Startable(s', id)
    ensures s'.log == s.log && s'.tasks == s.tasks && s'.scan == s.scan
    ensures s'.spool[id].meta.attempts == s.spool[id].meta.attempts && Due(s'.spool[id], s'.spool[id].meta.nextRetry)
  {
    hide Starts, Leads, LeadsCarefully;
    if s.spool[id].meta.status == Held {
      var op := FreshId(s.ops.Keys);
      OneStep(cfg, s, Look(op, id));
      var s1 := ReadMeta(s, op, id);
      OneStep(cfg, s1, Put(op, ToRelease));
      s' := WriteBack(s1, op, ToRelease);
      RunJoin(cfg, s, [Look(op, id)], s1, [Put(op, ToRelease)], s');
      steps := [Look(op, id)] + [Put(op, ToRelease)];
    } else {
      steps, s' := [], s;
      Stay(cfg, s);
      AloneCareful(cfg, s, [], s);
    }
  }
}
