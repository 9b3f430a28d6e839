/** Bounces over whole runs of the delivery protocol (serverwall-relay/src/bounce.rs and
    serverwall-relay/src/delivery/mod.rs). */
module Bounces {
  import opened Queue
  import opened Delivery
  import opened DeliveryRuns
  import opened Sets

  // ---- No bounce of a bounce ----

  predicate NoBounceBounced(log: seq<Event>) {
    forall i, j :: 0 <= i < |log| && 0 <= j < |log| && log[i].Bounced? && log[j].Bounced? ==> log[i].bounce != log[j].id
  }

  /** Every id in the spool, of a working task and in the log was given out. */
  predicate Issued(s: State) {
    && s.spool.Keys <= s.used
    && (forall t :: t in s.tasks && s.tasks[t].Working? ==> s.tasks[t].id in s.used)
    && (forall i :: 0 <= i < |s.log| ==> s.log[i].id in s.used && (s.log[i].Bounced? ==> s.log[i].bounce in s.used))
  }

  /** The message, wherever there is a copy of it, has a null sender. */
  predicate Silent(s: State, b: Id) {
    && (b in s.spool ==> NullSender(s.spool[b].env.sender))
    && (forall t :: t in s.tasks && s.tasks[t].Working? && s.tasks[t].id == b ==>
          NullSender(s.tasks[t].entry.env.sender))
  }

  predicate AllSilent(s: State) { forall i :: 0 <= i < |s.log| && s.log[i].Bounced? ==> Silent(s, s.log[i].bounce) }

  ghost predicate NoLoops(s: State) { Issued(s) && AllSilent(s) && NoBounceBounced(s.log) }

  /** The entries and copies of `s'` are those of `s`, as far as senders go. */
  predicate SendersFrom(s: State, s': State) {
    && (forall id :: id in s'.spool ==> id in s.spool && s'.spool[id].env == s.spool[id].env)
    && (forall t :: t in s'.tasks && s'.tasks[t].Working? ==>
          || (t in s.tasks && s'.tasks[t] == s.tasks[t])
          || (s'.tasks[t].id in s.spool && s'.tasks[t].entry.env == s.spool[s'.tasks[t].id].env))
  }

  lemma StaysSilent(s: State, s': State, b: Id)
    requires Silent(s, b) && SendersFrom(s, s')
    ensures Silent(s', b)
  {
    hide NullSender;
  }

  /** Steps that bring in no message, and log at most the start or the end of one. */
  lemma KeepsNoLoops(s: State, s': State, e: Event)
    requires NoLoops(s) && s'.used == s.used && SendersFrom(s, s')
    requires s'.log == s.log || (s'.log == s.log + [e] && e.id in s.used && !e.Bounced?)
    ensures NoLoops(s')
  {
    hide Silent, SendersFrom;
    forall i | 0 <= i < |s'.log| && s'.log[i].Bounced?
      ensures Silent(s', s'.log[i].bounce)
    {
      assert s'.log[i] == s.log[i];
      StaysSilent(s, s', s.log[i].bounce);
    }
    assert Issued(s') by { IssuedFrom(s, s', e); }
  }

  lemma IssuedFrom(s: State, s': State, e: Event)
    requires Issued(s) && s'.used == s.used && SendersFrom(s, s')
    requires s'.log == s.log || (s'.log == s.log + [e] && e.id in s.used && !e.Bounced?)
    ensures Issued(s')
  {
  }

  lemma AcceptNoLoops(s: State, id: Id, e: Entry)
    requires NoLoops(s) && id !in s.used
    ensures NoLoops(AcceptEntry(s, id, e))
  {
    hide NullSender;
    var s' := AcceptEntry(s, id, e);
    forall i | 0 <= i < |s'.log| && s'.log[i].Bounced?
      ensures Silent(s', s'.log[i].bounce)
    {
      assert s'.log[i] == s.log[i] && Silent(s, s.log[i].bounce);
    }
  }

  /** A bounce of a message whose own copy may be bounced. */
  lemma BounceNoLoops(s: State, id: Id, b: Id, e: Entry)
    requires NoLoops(s) && b !in s.used && id in s.used && NullSender(e.env.sender)
    requires forall i :: 0 <= i < |s.log| && s.log[i].Bounced? ==> s.log[i].bounce != id
    ensures NoLoops(Gone(Enqueued(s, b, e), id, Bounced(id, b)))
  {
    hide NullSender;
    var s' := Gone(Enqueued(s, b, e), id, Bounced(id, b));
    forall i | 0 <= i < |s'.log| && s'.log[i].Bounced?
      ensures Silent(s', s'.log[i].bounce)
    {
      if i < |s.log| {
        assert s'.log[i] == s.log[i] && Silent(s, s.log[i].bounce);
      }
    }
    BounceLogged(s.log, id, b);
  }

  lemma BounceLogged(log: seq<Event>, id: Id, b: Id)
    requires NoBounceBounced(log) && b != id
    requires forall i :: 0 <= i < |log| ==> log[i].id != b
    requires forall i :: 0 <= i < |log| && log[i].Bounced? ==> log[i].bounce != id
    ensures NoBounceBounced(log + [Bounced(id, b)])
  {
  }

  lemma FinishNoLoops(cfg: Config, s: State, tid: TaskId, mx: Mx, now: int, bounce: Id)
    requires NullSender(cfg.bounceSender) && NoLoops(s)
    requires bounce !in s.used && tid in s.tasks && s.tasks[tid].Working?
    ensures NoLoops(FinishTask(cfg, s, tid, mx, now, bounce))
  {
    hide NullSender, Conclude;
    var id, entry, s0 := s.tasks[tid].id, s.tasks[tid].entry, Ended(s, tid);
    var s' := FinishTask(cfg, s, tid, mx, now, bounce);
    KeepsNoLoops(s, s0, Started(id));
    match Conclude(cfg, entry, mx, now)
    case Done => KeepsNoLoops(s0, s', Delivered(id));
    case Defer(meta) => KeepsNoLoops(s0, s', Started(id));
    case GiveUp(error, original) =>
      match Generate(cfg, entry.env, error, original) {
        case NoBounce => KeepsNoLoops(s0, s', Dropped(id));
        case Bounce(env, bytes) =>
          forall i | 0 <= i < |s.log| && s.log[i].Bounced?
            ensures s.log[i].bounce != id
          {
            assert Silent(s, s.log[i].bounce);
          }
          BounceNoLoops(s0, id, bounce, NewEntry(env, bytes, now));
      }
  }

  lemma QuietNoLoops(cfg: Config, s: State, step: Step)
    requires NoLoops(s) && Quiet(step) && Enabled(s, step)
    ensures NoLoops(Apply(cfg, s, step))
  {
    hide NoLoops, Apply, Enabled;
    QuietSenders(cfg, s, step);
    QuietStep(cfg, s, step);
    KeepsNoLoops(s, Apply(cfg, s, step), Started(0));
  }

  lemma QuietSenders(cfg: Config, s: State, step: Step)
    requires Quiet(step) && Enabled(s, step)
    ensures SendersFrom(s, Apply(cfg, s, step))
  {
    hide Lists;
  }

  lemma MarkNoLoops(s: State, tid: TaskId)
    requires NoLoops(s) && tid in s.tasks
    ensures NoLoops(MarkTask(s, tid))
  {
    hide AllSilent, NoBounceBounced;
    KeepsNoLoops(s, MarkTask(s, tid), Started(s.tasks[tid].id));
  }

  lemma DeleteNoLoops(s: State, id: Id)
    requires NoLoops(s)
    ensures NoLoops(DeleteEntry(s, id))
  {
    hide AllSilent, NoBounceBounced;
    KeepsNoLoops(s, DeleteEntry(s, id), Deleted(id));
  }

  lemma ApplyNoLoops(cfg: Config, s: State, step: Step)
    requires NullSender(cfg.bounceSender) && NoLoops(s) && Enabled(s, step)
    ensures NoLoops(Apply(cfg, s, step))
  {
    hide NoLoops, AcceptEntry, FinishTask, MarkTask, DeleteEntry, Lists, NullSender;
    match step
    case Accept(id, env, bytes, now) => AcceptNoLoops(s, id, NewEntry(env, bytes, now));
    case Finish(tid, mx, now, bounce) => FinishNoLoops(cfg, s, tid, mx, now, bounce);
    case Mark(tid) => MarkNoLoops(s, tid);
    case Delete(id) => DeleteNoLoops(s, id);
    case _ => QuietNoLoops(cfg, s, step);
  }

  lemma {:induction false} RunNoLoops(cfg: Config, s: State, steps: seq<Step>)
    requires NullSender(cfg.bounceSender) && NoLoops(s) && Possible(cfg, s, steps)
    ensures NoLoops(After(cfg, s, steps))
    decreases |steps|
  {
    hide Apply, Enabled, NoLoops, NullSender;
    if steps != [] {
      ApplyNoLoops(cfg, s, steps[0]);
      RunNoLoops(cfg, Apply(cfg, s, steps[0]), steps[1..]);
    }
  }

  /** With a null bounce sender no run, whatever the operator does, bounces a bounce. */
  lemma NoBounceLoops(cfg: Config, steps: seq<Step>)
    requires NullSender(cfg.bounceSender) && Possible(cfg, Init(cfg), steps)
    ensures NoBounceBounced(After(cfg, Init(cfg), steps).log)
  {
    RunNoLoops(cfg, Init(cfg), steps);
  }

  /** With any other bounce sender some run, careful at that, does. */
  lemma BounceLoop(cfg: Config) returns (steps: seq<Step>)
    requires !NullSender(cfg.bounceSender) && cfg.threads > 0
    ensures Possible(cfg, Init(cfg), steps) && CarefulRun(cfg, Init(cfg), steps)
    ensures !NoBounceBounced(After(cfg, Init(cfg), steps).log)
  {
    hide Possible, CarefulRun, After, NullSender, NoBounceBounced;
    var s0, s1, s2, s3, s4 := LoopStates(cfg);
    steps := FirstMessage(cfg);
    steps := TakeUp(cfg, Init(cfg), steps, s0, 0, 0);
    steps := BounceIt(cfg, Init(cfg), steps, s1, 0, 1);
    steps := TakeUp(cfg, Init(cfg), steps, s2, 1, 0);
    steps := BounceIt(cfg, Init(cfg), steps, s3, 0, 2);
  }

  /** Message 0 is taken up and bounced as 1, and 1 as 2. */
  lemma LoopStates(cfg: Config) returns (s0: State, s1: State, s2: State, s3: State, s4: State)
    requires !NullSender(cfg.bounceSender) && cfg.threads > 0
    ensures s0 == FirstState(cfg) && s0.spool.Keys == {0} && Due(s0.spool[0], 0)
    ensures s1 == TakenUp(s0, 0, 0) && s1.tasks.Keys == {0} && s1.tasks[0].Working?
    ensures !NullSender(s1.tasks[0].entry.env.sender) && 1 !in s1.used
    ensures s2 == BouncedState(cfg, s1, 0, 1) && s2.spool.Keys == {1} && Due(s2.spool[1], 0) && s2.free > 0
    ensures s2.tasks == map[] && s2.scan == []
    ensures s3 == TakenUp(s2, 1, 0) && s3.tasks.Keys == {0} && s3.tasks[0].Working?
    ensures !NullSender(s3.tasks[0].entry.env.sender) && 2 !in s3.used
    ensures s4 == BouncedState(cfg, s3, 0, 2) && !NoBounceBounced(s4.log)
  {
    hide NullSender;
    SenderMayBounce();
    s0 := FirstState(cfg);
    s1 := TakenUp(s0, 0, 0);
    s2 := BouncedState(cfg, s1, 0, 1);
    s3 := TakenUp(s2, 1, 0);
    s4 := BouncedState(cfg, s3, 0, 2);
    assert s4.log[2] == Bounced(0, 1) && s4.log[4] == Bounced(1, 2);
  }

  /** Runs are free of bounced bounces if and only if the configured bounce sender is null. */
  lemma BounceSenderExact(cfg: Config)
    requires cfg.threads > 0
    ensures NullSender(cfg.bounceSender) <==>
      forall steps | Possible(cfg, Init(cfg), steps) :: NoBounceBounced(After(cfg, Init(cfg), steps).log)
  {
    hide Possible, CarefulRun, After, NullSender, NoBounceBounced;
    if NullSender(cfg.bounceSender) {
      forall steps | Possible(cfg, Init(cfg), steps)
        ensures NoBounceBounced(After(cfg, Init(cfg), steps).log)
      {
        NoBounceLoops(cfg, steps);
      }
    } else {
      var steps := BounceLoop(cfg);
      assert !NoBounceBounced(After(cfg, Init(cfg), steps).log);
    }
  }

  // ---- How many bounces ----

  function Bounces(log: seq<Event>): nat {
    if log == [] then 0 else Bounces(log[..|log| - 1]) + if log[|log| - 1].Bounced? then 1 else 0
  }

  predicate MayBounce(e: Event) { e.Accepted? && !NullSender(e.env.sender) }

  /** Accepted messages whose sender can be sent a bounce. */
  function Bounceable(log: seq<Event>): nat {
    if log == [] then 0 else Bounceable(log[..|log| - 1]) + if MayBounce(log[|log| - 1]) then 1 else 0
  }

  lemma BouncesSnoc(log: seq<Event>, e: Event)
    ensures Bounces(log + [e]) == Bounces(log) + if e.Bounced? then 1 else 0
    ensures Bounceable(log + [e]) == Bounceable(log) + if MayBounce(e) then 1 else 0
  {
    assert (log + [e])[..|log|] == log;
  }

  function InSpool(spool: map<Id, Entry>): set<Id> { set id | id in spool && !NullSender(spool[id].env.sender) }

  function InHand(tasks: map<TaskId, Task>): set<Id> {
    set t | t in tasks && tasks[t].Working? && !NullSender(tasks[t].entry.env.sender) :: tasks[t].id
  }

  /** Messages that may yet be bounced: in the spool, or only in the hands of a task. */
  function Owed(s: State): set<Id> { InSpool(s.spool) + InHand(s.tasks) }

  /** Each bounce used up an accepted message that could be bounced. */
  ghost predicate Covers(s: State) { Bounces(s.log) + |Owed(s)| <= Bounceable(s.log) }

  lemma OwedFrom(s: State, s': State)
    requires SendersFrom(s, s')
    ensures Owed(s') <= Owed(s)
  {
    hide NullSender;
  }

  lemma KeepsCovers(s: State, s': State, e: Event)
    requires Covers(s) && SendersFrom(s, s')
    requires s'.log == s.log || (s'.log == s.log + [e] && !e.Bounced? && !e.Accepted?)
    ensures Covers(s')
  {
    hide Bounces, Bounceable, Owed, SendersFrom;
    BouncesSnoc(s.log, e);
    OwedFrom(s, s');
    SubsetSize(Owed(s'), Owed(s));
  }

  lemma AcceptCovers(s: State, id: Id, e: Entry)
    requires Covers(s)
    ensures Covers(AcceptEntry(s, id, e))
  {
    hide Bounces, Bounceable, NullSender;
    var s' := AcceptEntry(s, id, e);
    BouncesSnoc(s.log, Accepted(id, e.env, e.bytes));
    if NullSender(e.env.sender) {
      SubsetSize(Owed(s'), Owed(s));
    } else {
      SubsetSize(Owed(s'), Owed(s) + {id});
    }
  }

  /** A bounce takes its message off the list, provided no other task has it. */
  lemma BounceCovers(s: State, tid: TaskId, b: Id, e: Entry)
    requires Covers(s) && OnePerMessage(s.tasks) && tid in s.tasks && s.tasks[tid].Working?
    requires !NullSender(s.tasks[tid].entry.env.sender) && NullSender(e.env.sender)
    ensures Covers(Gone(Enqueued(Ended(s, tid), b, e), s.tasks[tid].id, Bounced(s.tasks[tid].id, b)))
  {
    hide Bounces, Bounceable, NullSender, InSpool, InHand, OnePerMessage;
    var id := s.tasks[tid].id;
    var s' := Gone(Enqueued(Ended(s, tid), b, e), id, Bounced(id, b));
    BouncesSnoc(s.log, Bounced(id, b));
    SpoolAfterBounce(s.spool, id, b, e);
    HandAfterBounce(s.tasks, tid);
    SubsetSize(Owed(s'), Owed(s) - {id});
  }

  lemma SpoolAfterBounce(spool: map<Id, Entry>, id: Id, b: Id, e: Entry)
    requires NullSender(e.env.sender)
    ensures InSpool(spool[b := e] - {id}) <= InSpool(spool) - {id}
  {
    hide NullSender;
  }

  lemma HandAfterBounce(tasks: map<TaskId, Task>, tid: TaskId)
    requires OnePerMessage(tasks) && tid in tasks && tasks[tid].Working? && !NullSender(tasks[tid].entry.env.sender)
    ensures tasks[tid].id in InHand(tasks) && InHand(tasks - {tid}) <= InHand(tasks) - {tasks[tid].id}
  {
    hide NullSender;
  }

  lemma FinishCovers(cfg: Config, s: State, tid: TaskId, mx: Mx, now: int, bounce: Id)
    requires NullSender(cfg.bounceSender) && Covers(s) && OnePerMessage(s.tasks)
    requires tid in s.tasks && s.tasks[tid].Working?
    ensures Covers(FinishTask(cfg, s, tid, mx, now, bounce))
  {
    hide NullSender, Conclude, Covers, OnePerMessage;
    var id, entry := s.tasks[tid].id, s.tasks[tid].entry;
    var s' := FinishTask(cfg, s, tid, mx, now, bounce);
    match Conclude(cfg, entry, mx, now)
    case Done => KeepsCovers(s, s', Delivered(id));
    case Defer(meta) => KeepsCovers(s, s', Started(id));
    case GiveUp(error, original) =>
      match Generate(cfg, entry.env, error, original) {
        case NoBounce => KeepsCovers(s, s', Dropped(id));
        case Bounce(env, bytes) => BounceCovers(s, tid, bounce, NewEntry(env, bytes, now));
      }
  }

  lemma ApplyCovers(cfg: Config, s: State, step: Step)
    requires NullSender(cfg.bounceSender) && Covers(s) && OnePerMessage(s.tasks) && Enabled(s, step)
    ensures Covers(Apply(cfg, s, step))
  {
    hide Covers, FinishTask, Lists, NullSender, OnePerMessage;
    match step
    case Accept(id, env, bytes, now) => AcceptCovers(s, id, NewEntry(env, bytes, now));
    case Finish(tid, mx, now, bounce) => FinishCovers(cfg, s, tid, mx, now, bounce);
    case Mark(tid) => KeepsCovers(s, MarkTask(s, tid), Started(s.tasks[tid].id));
    case Delete(id) => KeepsCovers(s, DeleteEntry(s, id), Deleted(id));
    case _ =>
      QuietSenders(cfg, s, step);
      QuietStep(cfg, s, step);
      KeepsCovers(s, Apply(cfg, s, step), Started(0));
  }

  lemma {:induction false} CarefulCovers(cfg: Config, s: State, steps: seq<Step>)
    requires NullSender(cfg.bounceSender) && Covers(s) && Safe(cfg, s)
    requires Possible(cfg, s, steps) && CarefulRun(cfg, s, steps)
    ensures Covers(After(cfg, s, steps))
    decreases |steps|
  {
    hide Apply, Enabled, Careful, Accounted, Limited, ToSpawn, Copies, Unstarted, Covered, OnePerMessage;
    hide Covers, NullSender;
    if steps != [] {
      ApplyCovers(cfg, s, steps[0]);
      ApplySafe(cfg, s, steps[0]);
      CarefulCovers(cfg, Apply(cfg, s, steps[0]), steps[1..]);
    }
  }

  /** Every permit is free or held by a task, in every run. */
  predicate Permits(cfg: Config, s: State) { |s.tasks| + s.free == cfg.threads }

  lemma FinishEnds(cfg: Config, s: State, tid: TaskId, mx: Mx, now: int, bounce: Id)
    requires tid in s.tasks && s.tasks[tid].Working?
    ensures var s' := FinishTask(cfg, s, tid, mx, now, bounce); s'.tasks == s.tasks - {tid} && s'.free == s.free + 1
  {
    hide Conclude, Generate;
  }

  lemma ApplyPermits(cfg: Config, s: State, step: Step)
    requires Permits(cfg, s) && Enabled(s, step)
    ensures Permits(cfg, Apply(cfg, s, step))
  {
    hide Lists, SpawnTask, MarkTask, FinishTask, AcceptEntry, WriteBack, DeleteEntry, ReadMeta;
    match step
    case Spawn(tid) => SpawnPermits(cfg, s, tid);
    case Mark(tid) => MarkPermits(cfg, s, tid);
    case Finish(tid, mx, now, bounce) =>
      Removed(s.tasks, tid);
      FinishEnds(cfg, s, tid, mx, now, bounce);
    case _ => SameTasks(cfg, s, step);
  }

  lemma SameTasks(cfg: Config, s: State, step: Step)
    requires Enabled(s, step) && !step.Spawn? && !step.Mark? && !step.Finish?
    ensures var s' := Apply(cfg, s, step); s'.tasks == s.tasks && s'.free == s.free
  {
    hide Lists;
  }

  lemma SpawnPermits(cfg: Config, s: State, tid: TaskId)
    requires Permits(cfg, s) && s.scan != [] && s.free > 0 && tid !in s.tasks
    ensures Permits(cfg, SpawnTask(s, tid))
  {
    Added(s.tasks, tid, Spawned(s.scan[0]));
  }

  lemma MarkPermits(cfg: Config, s: State, tid: TaskId)
    requires Permits(cfg, s) && tid in s.tasks
    ensures Permits(cfg, MarkTask(s, tid))
  {
    Removed(s.tasks, tid);
    if s.tasks[tid].id in s.spool {
      Replaced(s.tasks, tid, MarkTask(s, tid).tasks[tid]);
    }
  }

  lemma AtMostOne(tasks: map<TaskId, Task>)
    requires |tasks| <= 1
    ensures OnePerMessage(tasks)
  {
    assert |tasks| == |tasks.Keys|;
    forall t, t' | t in tasks && t' in tasks
      ensures t == t'
    {
      SubsetSize({t, t'}, tasks.Keys);
    }
  }

  lemma {:induction false} OneThreadCovers(cfg: Config, s: State, steps: seq<Step>)
    requires NullSender(cfg.bounceSender) && cfg.threads <= 1 && Covers(s) && Permits(cfg, s) && Possible(cfg, s, steps)
    ensures Covers(After(cfg, s, steps))
    decreases |steps|
  {
    hide Apply, Enabled, OnePerMessage, Covers, NullSender;
    if steps != [] {
      AtMostOne(s.tasks);
      ApplyCovers(cfg, s, steps[0]);
      ApplyPermits(cfg, s, steps[0]);
      OneThreadCovers(cfg, Apply(cfg, s, steps[0]), steps[1..]);
    }
  }

  /** With a null bounce sender there are never more bounces than accepted messages that could be bounced, if
      the operator takes care or there is one delivery thread at most. */
  lemma BouncesBounded(cfg: Config, steps: seq<Step>)
    requires NullSender(cfg.bounceSender) && Possible(cfg, Init(cfg), steps)
    requires CarefulRun(cfg, Init(cfg), steps) || cfg.threads <= 1
    ensures var log := After(cfg, Init(cfg), steps).log; Bounces(log) <= Bounceable(log)
  {
    hide Possible, CarefulRun, After, NullSender;
    if cfg.threads <= 1 {
      OneThreadCovers(cfg, Init(cfg), steps);
    } else {
      InitSafe(cfg);
      CarefulCovers(cfg, Init(cfg), steps);
    }
  }

  /** A message retried while a task works on it is bounced twice. */
  lemma BouncedTwice(cfg: Config) returns (steps: seq<Step>)
    requires cfg.threads >= 2
    ensures Possible(cfg, Init(cfg), steps)
    ensures var log := After(cfg, Init(cfg), steps).log; Bounces(log) == 2 && Bounceable(log) == 1
  {
    hide Possible, After, NullSender, Bounces, Bounceable;
    SenderMayBounce();
    var s: State;
    steps, s := SecondTask(cfg);
    steps := BounceIt(cfg, Init(cfg), steps, s, 0, 1);
    var s1 := BouncedState(cfg, s, 0, 1);
    steps := BounceIt(cfg, Init(cfg), steps, s1, 1, 2);
    TwoOfOne(Accepted(0, Envelope(SENDER, []), []), Started(0), Bounced(0, 1), Bounced(0, 2));
  }

  lemma TwoOfOne(a: Event, st: Event, b: Event, b': Event)
    requires MayBounce(a) && st.Started? && b.Bounced? && b'.Bounced?
    ensures var log := [a] + [st] + [st] + [b] + [b']; Bounces(log) == 2 && Bounceable(log) == 1
  {
    hide NullSender, Bounces, Bounceable;
    JustOne(a);
    BouncesSnoc([a], st);
    BouncesSnoc([a] + [st], st);
    BouncesSnoc([a] + [st] + [st], b);
    BouncesSnoc([a] + [st] + [st] + [b], b');
  }

  lemma JustOne(a: Event)
    requires MayBounce(a)
    ensures Bounces([a]) == 0 && Bounceable([a]) == 1
  {
    hide NullSender;
    assert [a][..0] == [];
  }

  /** The bound holds of all runs, careless ones included, if and only if no two tasks can run at once. */
  lemma BouncesBoundedExact(cfg: Config)
    requires NullSender(cfg.bounceSender)
    ensures cfg.threads <= 1 <==>
      forall steps | Possible(cfg, Init(cfg), steps) ::
        Bounces(After(cfg, Init(cfg), steps).log) <= Bounceable(After(cfg, Init(cfg), steps).log)
  {
    hide Possible, CarefulRun, After, NullSender, Bounces, Bounceable;
    if cfg.threads <= 1 {
      forall steps | Possible(cfg, Init(cfg), steps)
        ensures Bounces(After(cfg, Init(cfg), steps).log) <= Bounceable(After(cfg, Init(cfg), steps).log)
      {
        BouncesBounded(cfg, steps);
      }
    } else {
      var steps := BouncedTwice(cfg);
      assert !(Bounces(After(cfg, Init(cfg), steps).log) <= Bounceable(After(cfg, Init(cfg), steps).log));
    }
  }
}
