/** Messages the relay leaves alone: those the operator holds (serverwall-cli/src/commands/queue.rs), and those a
    restart of the relay leaves Active, which nothing at startup looks for (serverwall-relay/src/delivery/mod.rs). */
module Resting {
  import opened Queue
  import opened Delivery
  import opened DeliveryRuns
  import opened Starting
  import opened Careless

  /** On no task and not listed, and if it is in the spool, then with a status no scan lists. */
  predicate AtRest(s: State, id: Id) {
    && id in s.used && id !in s.scan
    && (forall t :: t in s.tasks ==> s.tasks[t].id != id)
    && (id in s.spool ==> s.spool[id].meta.status == Held || s.spool[id].meta.status == Active)
  }

  /** A command other than hold writes to the message. */
  predicate Wakes(s: State, step: Step, id: Id) {
    step.Put? && step.op in s.ops && s.ops[step.op].id == id && !step.change.ToHold?
  }

  /** The message was not started, and if it has left the spool it was deleted. */
  predicate LeftAlone(s: State, s': State, id: Id) {
    && Starts(s'.log, id) == Starts(s.log, id)
    && s.log <= s'.log
    && (id in s.spool ==> id in s'.spool || Deleted(id) in s'.log)
  }

  lemma LeftAloneTwice(s: State, s1: State, s2: State, id: Id)
    requires LeftAlone(s, s1, id) && LeftAlone(s1, s2, id)
    ensures LeftAlone(s, s2, id)
  {
    hide Starts;
  }

  lemma RestStep(cfg: Config, s: State, step: Step, id: Id)
    requires AtRest(s, id) && Enabled(s, step) && !Wakes(s, step, id)
    ensures AtRest(Apply(cfg, s, step), id) && LeftAlone(s, Apply(cfg, s, step), id)
  {
    hide FinishTask, MarkTask, WriteBack, Starts, Lists;
    match step
    case Accept(i, env, bytes, _) => LastStarts(s, Accepted(i, env, bytes));
    case Scan(ids, now) => RestScan(s, ids, now, id);
    case Spawn(tid) => assert s.scan == [s.scan[0]] + s.scan[1..];
    case Mark(tid) => RestMark(s, tid, id);
    case Finish(tid, mx, now, bounce) => RestFinish(cfg, s, tid, mx, now, bounce, id);
    case Look(_, _) =>
    case Put(op, change) => RestPut(s, op, change, id);
    case Delete(i) =>
      LastStarts(s, Deleted(i));
      assert Deleted(i) in s.log + [Deleted(i)];
  }

  lemma RestScan(s: State, ids: seq<Id>, now: int, id: Id)
    requires AtRest(s, id) && Lists(s.spool, ids, now)
    ensures AtRest(s.(scan := ids), id)
  {
    forall i | 0 <= i < |ids|
      ensures ids[i] != id
    {
      assert Due(s.spool[ids[i]], now);
    }
  }

  lemma RestMark(s: State, tid: TaskId, id: Id)
    requires AtRest(s, id) && tid in s.tasks && s.tasks[tid].Spawned?
    ensures AtRest(MarkTask(s, tid), id) && LeftAlone(s, MarkTask(s, tid), id)
  {
    hide Starts;
    OneStart(s.log, s.tasks[tid].id);
  }

  lemma RestFinish(cfg: Config, s: State, tid: TaskId, mx: Mx, now: int, bounce: Id, id: Id)
    requires AtRest(s, id) && tid in s.tasks && s.tasks[tid].Working? && bounce !in s.used
    ensures var s' := FinishTask(cfg, s, tid, mx, now, bounce); AtRest(s', id) && LeftAlone(s, s', id)
  {
    hide Starts, Conclude, Generate;
    var own := s.tasks[tid].id;
    LastStarts(s, Delivered(own));
    LastStarts(s, Dropped(own));
    LastStarts(s, Bounced(own, bounce));
  }

  lemma RestPut(s: State, op: OpId, change: Change, id: Id)
    requires AtRest(s, id) && op in s.ops && (s.ops[op].id == id ==> change.ToHold?)
    ensures AtRest(WriteBack(s, op, change), id) && LeftAlone(s, WriteBack(s, op, change), id)
  {
    hide Starts;
  }

  // ---- Runs with restarts ----

  /** A step of the protocol, or a restart of the relay: its tasks, its scan and its permits are those of a relay that
      has just begun. The spool and the operator's commands, run by other processes, stay. */
  datatype Move = Do(step: Step) | Restart

  function Restarted(cfg: Config, s: State): State { s.(tasks := map[], scan := [], free := cfg.threads) }

  function Moved(cfg: Config, s: State, m: Move): State
    requires m.Do? ==> Enabled(s, m.step)
  {
    if m.Do? then Apply(cfg, s, m.step) else Restarted(cfg, s)
  }

  predicate CanMove(cfg: Config, s: State, moves: seq<Move>)
    decreases |moves|
  {
    moves == [] ||
    ((moves[0].Do? ==> Enabled(s, moves[0].step)) && CanMove(cfg, Moved(cfg, s, moves[0]), moves[1..]))
  }

  function AfterMoves(cfg: Config, s: State, moves: seq<Move>): State
    requires CanMove(cfg, s, moves)
    decreases |moves|
  {
    if moves == [] then s else AfterMoves(cfg, Moved(cfg, s, moves[0]), moves[1..])
  }

  /** The operator takes care all along. */
  predicate CarefulMoves(cfg: Config, s: State, moves: seq<Move>)
    requires CanMove(cfg, s, moves)
    decreases |moves|
  {
    moves == [] ||
    ((moves[0].Do? ==> Careful(s, moves[0].step)) && CarefulMoves(cfg, Moved(cfg, s, moves[0]), moves[1..]))
  }

  /** No command other than hold writes to the message. */
  predicate Unwoken(cfg: Config, s: State, moves: seq<Move>, id: Id)
    requires CanMove(cfg, s, moves)
    decreases |moves|
  {
    moves == [] ||
    (!(moves[0].Do? && Wakes(s, moves[0].step, id)) && Unwoken(cfg, Moved(cfg, s, moves[0]), moves[1..], id))
  }

  function Done(steps: seq<Step>): seq<Move> { seq(|steps|, i requires 0 <= i < |steps| => Do(steps[i])) }

  /** A run of the relay alone is a run in which nobody wakes the message. */
  lemma {:induction false} AloneUnwoken(cfg: Config, s: State, steps: seq<Step>, s': State, id: Id)
    requires LeadsAlone(cfg, s, steps, s')
    ensures CanMove(cfg, s, Done(steps)) && AfterMoves(cfg, s, Done(steps)) == s'
    ensures CarefulMoves(cfg, s, Done(steps)) && Unwoken(cfg, s, Done(steps), id)
    decreases |steps|
  {
    hide Apply, Enabled, Careful;
    if steps != [] {
      assert Done(steps)[1..] == Done(steps[1..]);
      AloneUnwoken(cfg, Apply(cfg, s, steps[0]), steps[1..], s', id);
    }
  }

  lemma {:induction false} CarefulDone(cfg: Config, s: State, steps: seq<Step>, s': State)
    requires LeadsCarefully(cfg, s, steps, s')
    ensures CanMove(cfg, s, Done(steps)) && AfterMoves(cfg, s, Done(steps)) == s'
    ensures CarefulMoves(cfg, s, Done(steps))
    decreases |steps|
  {
    hide Apply, Enabled, Careful;
    if steps != [] {
      assert Done(steps)[1..] == Done(steps[1..]);
      CarefulDone(cfg, Apply(cfg, s, steps[0]), steps[1..], s');
    }
  }

  lemma RestRestarted(cfg: Config, s: State, id: Id)
    requires AtRest(s, id)
    ensures AtRest(Restarted(cfg, s), id) && LeftAlone(s, Restarted(cfg, s), id)
  {
  }

  /** Over any number of steps and restarts, whatever the operator does to other messages, a message at rest is not
      started until a command other than hold writes to it, and leaves the spool only by being deleted. */
  lemma {:induction false} RestRun(cfg: Config, s: State, moves: seq<Move>, id: Id)
    requires AtRest(s, id) && CanMove(cfg, s, moves) && Unwoken(cfg, s, moves, id)
    ensures AtRest(AfterMoves(cfg, s, moves), id) && LeftAlone(s, AfterMoves(cfg, s, moves), id)
    decreases |moves|
  {
    hide Apply, Enabled, AtRest, Wakes, LeftAlone, Restarted;
    if moves == [] {
      assert LeftAlone(s, s, id) by { SameAlone(s, id); }
    } else {
      var s1 := Moved(cfg, s, moves[0]);
      if moves[0].Do? {
        RestStep(cfg, s, moves[0].step, id);
      } else {
        RestRestarted(cfg, s, id);
      }
      RestRun(cfg, s1, moves[1..], id);
      LeftAloneTwice(s, s1, AfterMoves(cfg, s, moves), id);
    }
  }

  lemma SameAlone(s: State, id: Id)
    ensures LeftAlone(s, s, id)
  {
  }

  /** In every run from here the message is not started unless a command other than hold writes to it. */
  ghost predicate Suspended(cfg: Config, s: State, id: Id) {
    forall moves | CanMove(cfg, s, moves) && CarefulMoves(cfg, s, moves) && Unwoken(cfg, s, moves, id) ::
      Starts(AfterMoves(cfg, s, moves).log, id) == Starts(s.log, id)
  }

  lemma RestSuspends(cfg: Config, s: State, id: Id)
    requires AtRest(s, id)
    ensures Suspended(cfg, s, id)
  {
    hide Starts, AtRest;
    forall moves | CanMove(cfg, s, moves) && CarefulMoves(cfg, s, moves) && Unwoken(cfg, s, moves, id)
      ensures Starts(AfterMoves(cfg, s, moves).log, id) == Starts(s.log, id)
    {
      RestRun(cfg, s, moves, id);
    }
  }

  lemma StartableMoves(cfg: Config, s: State, id: Id)
    requires Idle(cfg, s, id) && cfg.threads > 0 && Startable(s, id)
    ensures !Suspended(cfg, s, id)
  {
    hide Idle, Startable, Starts, LeadsAlone, CanMove, CarefulMoves, AfterMoves, Unwoken;
    var steps, s' := GetsStarted(cfg, s, id);
    AloneUnwoken(cfg, s, steps, s', id);
    assert Starts(AfterMoves(cfg, s, Done(steps)).log, id) != Starts(s.log, id);
  }

  // ---- Holding a message ----

  lemma HeldIdle(cfg: Config, s: State, op: OpId)
    requires Settled(cfg, s) && op in s.ops && s.ops[op].id in s.spool && Careful(s, Put(op, ToHold))
    ensures var s', id := WriteBack(s, op, ToHold), s.ops[op].id;
      && Idle(cfg, s', id) && s'.spool[id].meta.status == Held
      && s'.scan == s.scan && s'.tasks == s.tasks && s'.log == s.log
  {
    hide Starts, Fates, OnePerMessage, ToSpawn, Unstarted, Limited;
    var id := s.ops[op].id;
    forall t | t in s.tasks && s.tasks[t].Working?
      ensures s.tasks[t].id != id
    {
      assert s.spool[s.tasks[t].id].meta.status == Active;
    }
  }

  /** A message held with care is not attempted until a command other than hold writes to it, in any run with any
      number of restarts, if and only if at that time it is neither listed by the scan under way nor on a task that
      has not begun. */
  lemma HoldExact(cfg: Config, s: State, op: OpId)
    requires Settled(cfg, s) && cfg.threads > 0
    requires op in s.ops && s.ops[op].id in s.spool && Careful(s, Put(op, ToHold))
    ensures var id := s.ops[op].id;
      id !in s.scan && !Awaits(s, id) <==> Suspended(cfg, WriteBack(s, op, ToHold), id)
  {
    hide Settled, Suspended, WriteBack, Careful, Starts;
    var s', id := WriteBack(s, op, ToHold), s.ops[op].id;
    HeldIdle(cfg, s, op);
    if id !in s.scan && !Awaits(s, id) {
      RestSuspends(cfg, s', id);
    } else {
      StartableMoves(cfg, s', id);
    }
  }

  // ---- Restarting the relay ----

  lemma RestartSettled(cfg: Config, s: State)
    requires Settled(cfg, s)
    ensures Settled(cfg, Restarted(cfg, s))
  {
    hide Starts, Fates;
  }

  lemma {:induction false} MovesSettled(cfg: Config, s: State, moves: seq<Move>)
    requires Settled(cfg, s) && CanMove(cfg, s, moves) && CarefulMoves(cfg, s, moves)
    ensures Settled(cfg, AfterMoves(cfg, s, moves))
    decreases |moves|
  {
    hide Apply, Enabled, Careful, Settled, Restarted;
    if moves != [] {
      if moves[0].Do? {
        ApplySettled(cfg, s, moves[0].step);
      } else {
        RestartSettled(cfg, s);
      }
      MovesSettled(cfg, Moved(cfg, s, moves[0]), moves[1..]);
    }
  }

  /** With a careful operator and restarts at any time: the permits add up, no two tasks share a message, every message
      is in the spool with no fate or out of it with one, and none is started more often than the cap. */
  lemma RestartSafety(cfg: Config, moves: seq<Move>)
    requires CanMove(cfg, Init(cfg), moves) && CarefulMoves(cfg, Init(cfg), moves)
    ensures var s := AfterMoves(cfg, Init(cfg), moves);
      && |s.tasks| + s.free == cfg.threads
      && OnePerMessage(s.tasks)
      && (forall id :: id in s.used ==> Fates(s.log, id) == if id in s.spool then 0 else 1)
      && (forall id: Id :: Starts(s.log, id) <= Cap(cfg))
  {
    InitSafe(cfg);
    MovesSettled(cfg, Init(cfg), moves);
    hide Fates, Starts;
  }

  /** A message in the spool when the relay restarts is not attempted again until a command other than hold writes to
      it, if and only if it was held or Active: one a task was working on is stranded. */
  lemma StrandedExact(cfg: Config, s: State, id: Id)
    requires Settled(cfg, s) && cfg.threads > 0 && id in s.spool
    ensures var status := s.spool[id].meta.status;
      status == Held || status == Active <==> Suspended(cfg, Restarted(cfg, s), id)
  {
    hide Starts, Fates, Limited, Exclusive, Suspended;
    var s' := Restarted(cfg, s);
    if s.spool[id].meta.status == Held || s.spool[id].meta.status == Active {
      RestSuspends(cfg, s', id);
    } else {
      StartableMoves(cfg, s', id);
    }
  }

  // ---- Reviving a stranded message ----

  /** Active, with nothing working on it. */
  predicate Stranded(s: State, id: Id) { IsActive(s, id) && forall t :: t in s.tasks ==> s.tasks[t].id != id }

  lemma RevivedSettled(cfg: Config, s: State, op: OpId, change: Change)
    requires Settled(cfg, s) && op in s.ops && Stranded(s, s.ops[op].id)
    requires s.spool[s.ops[op].id].meta.attempts == s.ops[op].meta.attempts < Cap(cfg)
    ensures Settled(cfg, WriteBack(s, op, change))
  {
    hide Starts, Exclusive, Accounted, Limited;
    RevivedExclusive(cfg, s, op, change);
    SameMessages(s, WriteBack(s, op, change));
    RevivedLimited(cfg, s, op, change);
  }

  lemma RevivedExclusive(cfg: Config, s: State, op: OpId, change: Change)
    requires Exclusive(cfg, s) && op in s.ops && Stranded(s, s.ops[op].id)
    ensures Exclusive(cfg, WriteBack(s, op, change))
  {
    hide OnePerMessage, NoDuplicates;
    var s', id := WriteBack(s, op, change), s.ops[op].id;
    assert forall i :: i != id && i in s.spool ==> s'.spool[i] == s.spool[i];
    assert forall i :: IsActive(s', i) ==> IsActive(s, i) && i != id;
  }

  lemma RevivedLimited(cfg: Config, s: State, op: OpId, change: Change)
    requires Limited(cfg, s) && op in s.ops && Stranded(s, s.ops[op].id)
    requires s.spool[s.ops[op].id].meta.attempts == s.ops[op].meta.attempts < Cap(cfg)
    ensures Limited(cfg, WriteBack(s, op, change))
  {
    hide Starts, WriteBack;
    WriteBackIs(s, op, change);
    WriteBackOps(s, op, change);
    RevivedAttempts(s, op, change);
  }

  lemma RevivedAttempts(s: State, op: OpId, change: Change)
    requires op in s.ops && s.ops[op].id in s.spool
    ensures WriteBack(s, op, change).spool[s.ops[op].id].meta.attempts == s.ops[op].meta.attempts
  {
  }

  lemma RevivedIdle(cfg: Config, s: State, op: OpId, change: Change)
    requires Settled(cfg, s) && op in s.ops && Stranded(s, s.ops[op].id)
    ensures Idle(cfg, WriteBack(s, op, change), s.ops[op].id)
  {
    hide Starts, Fates, Limited, OnePerMessage, ToSpawn, Copies, Unstarted;
  }

  /** Every careful continuation, with restarts at any time, is in order. */
  ghost predicate StaysOrderly(cfg: Config, s: State) {
    forall moves | CanMove(cfg, s, moves) && CarefulMoves(cfg, s, moves) :: Orderly(cfg, AfterMoves(cfg, s, moves))
  }

  lemma SettledStays(cfg: Config, s: State)
    requires Settled(cfg, s)
    ensures StaysOrderly(cfg, s)
  {
    hide Settled, Orderly;
    forall moves | CanMove(cfg, s, moves) && CarefulMoves(cfg, s, moves)
      ensures Orderly(cfg, AfterMoves(cfg, s, moves))
    {
      MovesSettled(cfg, s, moves);
      SettledOrderly(cfg, AfterMoves(cfg, s, moves));
    }
  }

  /** A message not Active whose attempts are used up can be attempted once more. */
  lemma OneTooMany(cfg: Config, s: State, id: Id)
    requires Idle(cfg, s, id) && cfg.threads > 0 && Starts(s.log, id) == Cap(cfg)
    ensures !StaysOrderly(cfg, s)
  {
    hide Idle, Starts, LeadsAlone, LeadsCarefully, CanMove, CarefulMoves, AfterMoves;
    var steps, s1 := Released(cfg, s, id);
    var more, s' := GetsStarted(cfg, s1, id);
    AloneCareful(cfg, s1, more, s');
    RunJoin(cfg, s, steps, s1, more, s');
    CarefulDone(cfg, s, steps + more, s');
    assert !Orderly(cfg, AfterMoves(cfg, s, Done(steps + more)));
  }

  /** Writing to a stranded message what was read of it since its last attempt keeps everything in order if and only if
      it has an attempt left: no status tells it from one being worked on, but without a task on it the Active mark is
      no reason to keep away. */
  lemma ReviveExact(cfg: Config, s: State, op: OpId, change: Change)
    requires Settled(cfg, s) && cfg.threads > 0 && op in s.ops && Stranded(s, s.ops[op].id)
    requires s.spool[s.ops[op].id].meta.attempts == s.ops[op].meta.attempts
    ensures s.ops[op].meta.attempts < Cap(cfg) <==> StaysOrderly(cfg, WriteBack(s, op, change))
  {
    hide Exclusive, Accounted, Starts, StaysOrderly, WriteBack;
    var id := s.ops[op].id;
    if s.ops[op].meta.attempts < Cap(cfg) {
      RevivedSettled(cfg, s, op, change);
      SettledStays(cfg, WriteBack(s, op, change));
    } else {
      RevivedIdle(cfg, s, op, change);
      WriteBackOps(s, op, change);
      OneTooMany(cfg, WriteBack(s, op, change), id);
    }
  }
}
