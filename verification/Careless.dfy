/** How careful the operator must be (serverwall-cli/src/commands/queue.rs): the care asked for in `Delivery` is
    exactly what keeps deliveries in order. */
module Careless {
  import opened Queue
  import opened Delivery
  import opened DeliveryRuns
  import opened Starting

  /** No two tasks on one message, no message with two fates, and none attempted more often than the cap. */
  ghost predicate Orderly(cfg: Config, s: State) {
    && OnePerMessage(s.tasks)
    && (forall id: Id :: Fates(s.log, id) <= 1)
    && (forall id: Id :: Starts(s.log, id) <= Cap(cfg))
  }

  lemma SettledOrderly(cfg: Config, s: State)
    requires Settled(cfg, s)
    ensures Orderly(cfg, s)
  {
    hide Fates, Starts;
    forall id: Id ensures Fates(s.log, id) <= 1 {
      assert id in s.used || id !in s.used;
    }
  }

  // ---- A command on a message being worked on ----

  /** The task on a message that has met its fate succeeds, and gives it a second one. */
  lemma SecondFate(cfg: Config, s: State, tid: TaskId) returns (steps: seq<Step>, s': State)
    requires tid in s.tasks && s.tasks[tid].Working? && Fates(s.log, s.tasks[tid].id) == 1
    ensures LeadsCarefully(cfg, s, steps, s') && Fates(s'.log, s.tasks[tid].id) == 2
  {
    hide Fates, Leads, LeadsCarefully, FinishTask;
    var b := FreshId(s.used);
    var step := Finish(tid, Hosts([[Sent]]), 0, b);
    SentEnds(cfg, s, tid, b);
    OneStep(cfg, s, step);
    steps, s' := [step], Apply(cfg, s, step);
    LogSnoc(s.log, Delivered(s.tasks[tid].id));
  }

  lemma WorkerOf(cfg: Config, s: State, id: Id) returns (tid: TaskId)
    requires Safe(cfg, s) && id in s.spool && s.spool[id].meta.status == Active
    ensures tid in s.tasks && s.tasks[tid] == Working(id, s.spool[id]) && Fates(s.log, id) == 0
  {
    hide Fates, Limited;
    assert IsActive(s, id) && WorkedOn(s, id);
    tid :| tid in s.tasks && s.tasks[tid] == Working(id, s.spool[id]);
    assert id in s.used;
  }

  /** Deleted while a task works on it. */
  lemma DeleteBreaks(cfg: Config, s: State, id: Id) returns (steps: seq<Step>, s': State)
    requires Safe(cfg, s) && id in s.spool && s.spool[id].meta.status == Active
    ensures LeadsCarefully(cfg, DeleteEntry(s, id), steps, s') && Fates(s'.log, id) == 2
  {
    hide Safe, Fates, LeadsCarefully;
    var tid := WorkerOf(cfg, s, id);
    LogSnoc(s.log, Deleted(id));
    steps, s' := SecondFate(cfg, DeleteEntry(s, id), tid);
  }

  /** Written to while a task works on it: no longer Active, it may be deleted with care. */
  lemma WriteBreaks(cfg: Config, s: State, op: OpId, change: Change) returns (steps: seq<Step>, s': State)
    requires Safe(cfg, s) && op in s.ops && s.ops[op].id in s.spool && s.spool[s.ops[op].id].meta.status == Active
    ensures LeadsCarefully(cfg, WriteBack(s, op, change), steps, s') && Fates(s'.log, s.ops[op].id) == 2
  {
    hide Safe, Fates, Leads, LeadsCarefully;
    var id := s.ops[op].id;
    var tid := WorkerOf(cfg, s, id);
    var s1 := WriteBack(s, op, change);
    var s2 := DeleteEntry(s1, id);
    OneStep(cfg, s1, Delete(id));
    LogSnoc(s1.log, Deleted(id));
    var more: seq<Step>;
    more, s' := SecondFate(cfg, s2, tid);
    RunJoin(cfg, s1, [Delete(id)], s2, more, s');
    steps := [Delete(id)] + more;
  }

  // ---- A command that sets the attempt counter back ----

  /** The counter of message `id` is behind, and no task is working on it. */
  ghost predicate Behind(cfg: Config, s: State, id: Id) {
    Idle(cfg, s, id) && s.spool[id].meta.attempts < Starts(s.log, id)
  }

  ghost predicate Over(cfg: Config, s: State, id: Id) { Starts(s.log, id) > Cap(cfg) }

  /** A task on the message itself is started once more and put off, unless that is one start too many. */
  lemma OwnEnds(cfg: Config, s: State, id: Id, tid: TaskId) returns (steps: seq<Step>, s': State)
    requires Behind(cfg, s, id) && tid in s.tasks && s.tasks[tid] == Spawned(id)
    ensures LeadsCarefully(cfg, s, steps, s')
    ensures Over(cfg, s', id) || (
        && Behind(cfg, s', id) && s'.tasks == s.tasks - {tid} && s'.scan == s.scan && s'.ops == s.ops
        && s'.spool[id].meta.attempts == s.spool[id].meta.attempts + 1)
  {
    hide Starts, Leads, LeadsCarefully;
    OneStep(cfg, s, Mark(tid));
    var s1 := MarkTask(s, tid);
    MarkedBehind(cfg, s, id, tid);
    if Starts(s1.log, id) > Cap(cfg) {
      steps, s' := [Mark(tid)], s1;
    } else {
      var b := FreshId(s1.used);
      var now := s1.spool[id].meta.created + cfg.maxAge;
      var step := Finish(tid, Unresolved([]), now, b);
      OneStep(cfg, s1, step);
      s' := FinishTask(cfg, s1, tid, Unresolved([]), now, b);
      PutOff(cfg, s, id, tid, now, b);
      RunJoin(cfg, s, [Mark(tid)], s1, [step], s');
      steps := [Mark(tid)] + [step];
    }
  }

  lemma MarkedBehind(cfg: Config, s: State, id: Id, tid: TaskId)
    requires Behind(cfg, s, id) && tid in s.tasks && s.tasks[tid] == Spawned(id)
    ensures var s1 := MarkTask(s, tid);
      && tid in s1.tasks && s1.tasks[tid] == Working(id, s1.spool[id])
      && s1.spool[id].meta.attempts == s.spool[id].meta.attempts + 1 < Starts(s1.log, id)
  {
    LogSnoc(s.log, Started(id));
    hide Starts;
  }

  lemma PutOff(cfg: Config, s: State, id: Id, tid: TaskId, now: int, b: Id)
    requires Behind(cfg, s, id) && tid in s.tasks && s.tasks[tid] == Spawned(id)
    requires var s1 := MarkTask(s, tid);
      && Starts(s1.log, id) <= Cap(cfg) && now == s1.spool[id].meta.created + cfg.maxAge
      && tid in s1.tasks && s1.tasks[tid].Working?
    ensures var s' := FinishTask(cfg, MarkTask(s, tid), tid, Unresolved([]), now, b);
      && Behind(cfg, s', id) && s'.tasks == s.tasks - {tid} && s'.scan == s.scan && s'.ops == s.ops
      && s'.spool[id].meta.attempts == s.spool[id].meta.attempts + 1
  {
    hide Starts;
    MarkedBehind(cfg, s, id, tid);
    Removed(s.tasks, tid);
    var s1 := MarkTask(s, tid);
    assert s1.spool[id].meta.attempts < cfg.maxAttempts;
    assert s1.tasks - {tid} == s.tasks - {tid};
  }

  /** Any task can be made to end, one way or the other. */
  lemma TaskEnds(cfg: Config, s: State, id: Id, tid: TaskId) returns (steps: seq<Step>, s': State)
    requires Behind(cfg, s, id) && tid in s.tasks
    ensures LeadsCarefully(cfg, s, steps, s')
    ensures Over(cfg, s', id) || (
        && Behind(cfg, s', id) && s'.tasks == s.tasks - {tid} && s'.scan == s.scan && s'.ops == s.ops
        && s'.spool[id].meta.attempts >= s.spool[id].meta.attempts)
  {
    hide Idle, Over, Starts, LeadsCarefully, LeadsAlone;
    if s.tasks[tid] == Spawned(id) {
      steps, s' := OwnEnds(cfg, s, id, tid);
    } else {
      steps, s' := StrangerEnds(cfg, s, id, tid);
      AloneCareful(cfg, s, steps, s');
    }
  }

  lemma {:induction false} TasksEnd(cfg: Config, s: State, id: Id) returns (steps: seq<Step>, s': State)
    requires Behind(cfg, s, id)
    ensures LeadsCarefully(cfg, s, steps, s')
    ensures Over(cfg, s', id) || (
        && Behind(cfg, s', id) && s'.tasks == map[] && s'.scan == s.scan && s'.ops == s.ops
        && s'.spool[id].meta.attempts >= s.spool[id].meta.attempts)
    decreases |s.tasks|
  {
    hide Over, LeadsCarefully;
    if s.tasks == map[] {
      steps, s' := [], s;
      Stay(cfg, s);
      AloneCareful(cfg, s, [], s);
    } else {
      var tid :| tid in s.tasks;
      var s1: State;
      steps, s1 := TaskEnds(cfg, s, id, tid);
      s' := s1;
      if !Over(cfg, s1, id) {
        Removed(s.tasks, tid);
        var more: seq<Step>;
        more, s' := TasksEnd(cfg, s1, id);
        RunJoin(cfg, s, steps, s1, more, s');
        steps := steps + more;
      }
    }
  }

  /** The scan under way can be finished, with every task it starts. */
  lemma {:induction false} ScanEnds(cfg: Config, s: State, id: Id) returns (steps: seq<Step>, s': State)
    requires Behind(cfg, s, id) && s.tasks == map[] && cfg.threads > 0
    ensures LeadsCarefully(cfg, s, steps, s')
    ensures Over(cfg, s', id) || (
        && Behind(cfg, s', id) && s'.tasks == map[] && s'.scan == [] && s'.ops == s.ops
        && s'.spool[id].meta.attempts >= s.spool[id].meta.attempts)
    decreases |s.scan|
  {
    hide Over, Starts, LeadsCarefully;
    if s.scan == [] {
      steps, s' := [], s;
      Stay(cfg, s);
      AloneCareful(cfg, s, [], s);
    } else {
      OneStep(cfg, s, Spawn(0));
      var s1, s2 := SpawnTask(s, 0), s;
      Added(s.tasks, 0, Spawned(s.scan[0]));
      steps, s2 := TaskEnds(cfg, s1, id, 0);
      RunJoin(cfg, s, [Spawn(0)], s1, steps, s2);
      steps, s' := [Spawn(0)] + steps, s2;
      if !Over(cfg, s2, id) {
        assert s2.tasks == map[];
        var more: seq<Step>;
        more, s' := ScanEnds(cfg, s2, id);
        RunJoin(cfg, s, steps, s2, more, s');
        steps := steps + more;
      }
    }
  }

  /** One more scan takes the message up once more. */
  lemma OneMore(cfg: Config, s: State, id: Id) returns (steps: seq<Step>, s': State)
    requires Behind(cfg, s, id) && s.tasks == map[] && s.scan == [] && cfg.threads > 0
    requires Due(s.spool[id], s.spool[id].meta.nextRetry)
    ensures LeadsCarefully(cfg, s, steps, s')
    ensures Over(cfg, s', id) || (
        && Behind(cfg, s', id) && s'.tasks == map[] && s'.scan == []
        && s'.spool[id].meta.attempts > s.spool[id].meta.attempts)
  {
    hide Over, Starts, Leads, LeadsCarefully, Lists;
    var now := s.spool[id].meta.nextRetry;
    var ids := ListDue(s.spool, id, now);
    OneStep(cfg, s, Scan(ids, now));
    var s1 := s.(scan := ids);
    OneStep(cfg, s1, Spawn(0));
    var s2 := SpawnTask(s1, 0);
    RunJoin(cfg, s, [Scan(ids, now)], s1, [Spawn(0)], s2);
    Added(s.tasks, 0, Spawned(id));
    var more, s3 := OwnEnds(cfg, s2, id, 0);
    RunJoin(cfg, s, [Scan(ids, now)] + [Spawn(0)], s2, more, s3);
    steps, s' := [Scan(ids, now)] + [Spawn(0)] + more, s3;
    if !Over(cfg, s3, id) {
      assert s3.tasks == map[];
      var rest: seq<Step>;
      rest, s' := ScanEnds(cfg, s3, id);
      RunJoin(cfg, s, steps, s3, rest, s');
      steps := steps + rest;
    }
  }

  lemma {:induction false} RunsOver(cfg: Config, s: State, id: Id) returns (steps: seq<Step>, s': State)
    requires Behind(cfg, s, id) && s.tasks == map[] && s.scan == [] && cfg.threads > 0
    ensures LeadsCarefully(cfg, s, steps, s') && Over(cfg, s', id)
    decreases Cap(cfg) - s.spool[id].meta.attempts
  {
    hide Starts, Leads, LeadsCarefully;
    if Over(cfg, s, id) {
      steps, s' := [], s;
      Stay(cfg, s);
      AloneCareful(cfg, s, [], s);
    } else {
      var s1, s2 := s, s;
      steps, s1 := Released(cfg, s, id);
      var more: seq<Step>;
      more, s2 := OneMore(cfg, s1, id);
      RunJoin(cfg, s, steps, s1, more, s2);
      steps, s' := steps + more, s2;
      if !Over(cfg, s2, id) {
        var rest: seq<Step>;
        rest, s' := RunsOver(cfg, s2, id);
        RunJoin(cfg, s, steps, s2, rest, s');
        steps := steps + rest;
      }
    }
  }

  /** From wherever the counter is behind, the message can be attempted more often than the cap allows. */
  lemma CatchesUp(cfg: Config, s: State, id: Id) returns (steps: seq<Step>, s': State)
    requires Behind(cfg, s, id) && cfg.threads > 0
    ensures LeadsCarefully(cfg, s, steps, s') && Over(cfg, s', id)
  {
    hide Behind, Over, LeadsCarefully;
    var s1, s2 := s, s;
    var more: seq<Step>;
    steps, s1 := TasksEnd(cfg, s, id);
    s' := s1;
    if !Over(cfg, s1, id) {
      more, s2 := ScanEnds(cfg, s1, id);
      RunJoin(cfg, s, steps, s1, more, s2);
      steps, s' := steps + more, s2;
      if !Over(cfg, s2, id) {
        more, s' := RunsOver(cfg, s2, id);
        RunJoin(cfg, s, steps, s2, more, s');
        steps := steps + more;
      }
    }
  }

  lemma StaleBehind(cfg: Config, s: State, op: OpId, change: Change)
    requires Safe(cfg, s) && op in s.ops && s.ops[op].id in s.spool
    requires var m := s.spool[s.ops[op].id].meta; m.status != Active && m.attempts != s.ops[op].meta.attempts
    ensures Behind(cfg, WriteBack(s, op, change), s.ops[op].id)
  {
    hide Starts, Fates, OnePerMessage, ToSpawn, Unstarted, Covered;
    var id, s' := s.ops[op].id, WriteBack(s, op, change);
    assert s.ops[op].meta.attempts <= Starts(s.log, id) == s.spool[id].meta.attempts;
    forall t | t in s.tasks && s.tasks[t].Working?
      ensures s.tasks[t].id != id
    {
      assert s.spool[s.tasks[t].id].meta.status == Active;
    }
  }

  // ---- Care is exactly what is needed ----

  predicate Operator(step: Step) { step.Put? || step.Delete? }

  lemma CarelessBreaks(cfg: Config, s: State, step: Step) returns (steps: seq<Step>)
    requires Safe(cfg, s) && cfg.threads > 0 && Operator(step) && Enabled(s, step) && !Careful(s, step)
    ensures var s' := Apply(cfg, s, step);
      Possible(cfg, s', steps) && CarefulRun(cfg, s', steps) && !Orderly(cfg, After(cfg, s', steps))
  {
    hide Safe, Possible, CarefulRun, After, Fates, Starts, OnePerMessage, WriteBack, DeleteEntry, Behind;
    var s': State;
    match step
    case Delete(id) =>
      steps, s' := DeleteBreaks(cfg, s, id);
    case Put(op, change) =>
      if s.spool[s.ops[op].id].meta.status == Active {
        steps, s' := WriteBreaks(cfg, s, op, change);
      } else {
        StaleBehind(cfg, s, op, change);
        steps, s' := CatchesUp(cfg, WriteBack(s, op, change), s.ops[op].id);
      }
  }

  /** In every safe state, whatever scan and tasks are under way, the last step of an operator command keeps every
      careful continuation in order if and only if its message is not Active and, for a command that writes
      metadata back, has not been attempted since they were read. */
  lemma CarefulExact(cfg: Config, s: State, step: Step)
    requires Safe(cfg, s) && cfg.threads > 0 && Operator(step) && Enabled(s, step)
    ensures var s' := Apply(cfg, s, step);
      Careful(s, step) <==>
        forall steps | Possible(cfg, s', steps) && CarefulRun(cfg, s', steps) :: Orderly(cfg, After(cfg, s', steps))
  {
    hide Settled, Covered, Possible, CarefulRun, After, Apply, Enabled, Careful, Orderly;
    var s' := Apply(cfg, s, step);
    if Careful(s, step) {
      forall steps | Possible(cfg, s', steps) && CarefulRun(cfg, s', steps)
        ensures Orderly(cfg, After(cfg, s', steps))
      {
        ApplySafe(cfg, s, step);
        RunSafe(cfg, s', steps);
        SettledOrderly(cfg, After(cfg, s', steps));
      }
    } else {
      var steps := CarelessBreaks(cfg, s, step);
      assert !Orderly(cfg, After(cfg, s', steps));
    }
  }

  // ---- The cap on attempts ----

  /** One attempt is made even if `max_attempts` is 0: no message gets more than `max_attempts` tasks in any careful
      run if and only if that is at least 1. */
  lemma MaxAttemptsExact(cfg: Config)
    requires cfg.threads > 0
    ensures cfg.maxAttempts >= 1 <==>
      forall steps, id: Id | Possible(cfg, Init(cfg), steps) && CarefulRun(cfg, Init(cfg), steps) ::
        Starts(After(cfg, Init(cfg), steps).log, id) <= cfg.maxAttempts
  {
    hide Possible, CarefulRun, After, Starts;
    forall steps, id: Id | Possible(cfg, Init(cfg), steps) && CarefulRun(cfg, Init(cfg), steps)
      ensures Starts(After(cfg, Init(cfg), steps).log, id) <= Cap(cfg)
    {
      DeliverySafety(cfg, steps);
    }
    if cfg.maxAttempts == 0 {
      var steps := FirstMessage(cfg);
      steps := TakeUp(cfg, Init(cfg), steps, FirstState(cfg), 0, 0);
      LogSnoc(FirstState(cfg).log, Started(0));
      assert !(Starts(After(cfg, Init(cfg), steps).log, 0) <= cfg.maxAttempts);
    }
  }

  /** Without care the cap does not hold: a message retried while a task works on it is attempted twice where one
      attempt is allowed. */
  lemma AttemptsExceeded(cfg: Config) returns (steps: seq<Step>)
    requires cfg.maxAttempts <= 1 && cfg.threads >= 2
    ensures Possible(cfg, Init(cfg), steps) && Starts(After(cfg, Init(cfg), steps).log, 0) == 2 > Cap(cfg)
  {
    hide Possible, After, Starts;
    var s: State;
    steps, s := SecondTask(cfg);
    var first := [Accepted(0, Envelope(SENDER, []), [])];
    NoStarts(first[0]);
    LogSnoc(first, Started(0));
    LogSnoc(first + [Started(0)], Started(0));
  }

  lemma NoStarts(e: Event)
    requires e.Accepted?
    ensures Starts([e], 0) == 0
  {
    assert [e][..0] == [];
  }
}
