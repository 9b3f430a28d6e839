/** Putting runs of the delivery protocol together. */
module DeliveryRuns {
  import opened Bytes
  import opened Queue
  import opened Delivery

  /** The run leads from `s` to `s'`. */
  ghost predicate Leads(cfg: Config, s: State, steps: seq<Step>, s': State) {
    Possible(cfg, s, steps) && After(cfg, s, steps) == s'
  }

  /** And the operator takes care all along. */
  ghost predicate LeadsCarefully(cfg: Config, s: State, steps: seq<Step>, s': State) {
    Leads(cfg, s, steps, s') && CarefulRun(cfg, s, steps)
  }

  lemma OneStep(cfg: Config, s: State, step: Step)
    requires Enabled(s, step)
    ensures Leads(cfg, s, [step], Apply(cfg, s, step))
    ensures Careful(s, step) ==> LeadsCarefully(cfg, s, [step], Apply(cfg, s, step))
  {
    hide Apply, Enabled, Careful;
    var s' := Apply(cfg, s, step);
    assert [step][1..] == [];
    assert Possible(cfg, s', []) && After(cfg, s', []) == s' && CarefulRun(cfg, s', []);
  }

  lemma {:induction false} RunSnoc(cfg: Config, s: State, steps: seq<Step>, s': State, step: Step)
    requires Leads(cfg, s, steps, s') && Enabled(s', step)
    ensures Leads(cfg, s, steps + [step], Apply(cfg, s', step))
    ensures LeadsCarefully(cfg, s, steps, s') && Careful(s', step) ==>
      LeadsCarefully(cfg, s, steps + [step], Apply(cfg, s', step))
    decreases |steps|
  {
    hide Apply, Enabled, Careful;
    if steps == [] {
      assert steps + [step] == [step];
      OneStep(cfg, s, step);
    } else {
      RunSnoc(cfg, Apply(cfg, s, steps[0]), steps[1..], s', step);
      assert (steps + [step])[1..] == steps[1..] + [step];
    }
  }

  lemma {:induction false} RunJoin(cfg: Config, s: State, a: seq<Step>, s1: State, b: seq<Step>, s2: State)
    requires LeadsCarefully(cfg, s, a, s1) && LeadsCarefully(cfg, s1, b, s2)
    ensures LeadsCarefully(cfg, s, a + b, s2)
    decreases |a|
  {
    hide Apply, Enabled, Careful;
    if a == [] {
      assert a + b == b;
    } else {
      RunJoin(cfg, Apply(cfg, s, a[0]), a[1..], s1, b, s2);
      assert (a + b)[1..] == a[1..] + b;
    }
  }

  lemma FreshId(used: set<nat>) returns (b: nat)
    ensures b !in used
  {
    b := 0;
    ghost var seen: set<nat> := {};
    while b in used
      invariant seen <= used && forall i :: i in seen <==> 0 <= i < b
      invariant |seen| == b
      decreases |used| - b
    {
      seen := seen + {b};
      assert used == seen + (used - seen);
      b := b + 1;
    }
  }

  /** A listing of the due messages that starts with `id`. */
  lemma ListDue(spool: map<Id, Entry>, id: Id, now: int) returns (ids: seq<Id>)
    requires id in spool && Due(spool[id], now)
    ensures Lists(spool, ids, now) && ids != [] && ids[0] == id
  {
    var left := (set i | i in spool && Due(spool[i], now)) - {id};
    ids := [id];
    while left != {}
      invariant ids != [] && ids[0] == id && NoDuplicates(ids)
      invariant forall i :: 0 <= i < |ids| ==> ids[i] in spool && Due(spool[ids[i]], now) && ids[i] !in left
      invariant forall i :: i in spool && Due(spool[i], now) ==> i in ids || i in left
      invariant forall i :: i in left ==> i in spool && Due(spool[i], now)
      decreases left
    {
      var i :| i in left;
      ids := ids + [i];
      left := left - {i};
    }
  }

  // ---- A relay with one message ----

  const SENDER: seq<Byte> := [97]

  lemma SenderMayBounce()
    ensures !NullSender(SENDER)
  {
  }

  /** A message 0 has been accepted, and nothing else has happened. */
  function FirstState(cfg: Config): State {
    var env := Envelope(SENDER, []);
    State(map[0 := NewEntry(env, [], 0)], map[], [], cfg.threads, map[], {0}, [Accepted(0, env, [])])
  }

  lemma FirstMessage(cfg: Config) returns (steps: seq<Step>)
    ensures LeadsCarefully(cfg, Init(cfg), steps, FirstState(cfg))
  {
    var step := Accept(0, Envelope(SENDER, []), [], 0);
    OneStep(cfg, Init(cfg), step);
    steps := [step];
    assert Apply(cfg, Init(cfg), step) == FirstState(cfg);
  }

  /** The only message is due and on no task yet: the state after scan, spawn and mark. */
  function TakenUp(s: State, id: Id, tid: TaskId): State
    requires id in s.spool && s.free > 0
  {
    var e := s.spool[id].(meta := s.spool[id].meta.(status := Active, attempts := s.spool[id].meta.attempts + 1));
    s.(spool := s.spool[id := e], tasks := s.tasks[tid := Working(id, e)], scan := [], free := s.free - 1,
       log := s.log + [Started(id)])
  }

  lemma TakeUp(cfg: Config, s0: State, steps: seq<Step>, s: State, id: Id, tid: TaskId) returns (more: seq<Step>)
    requires Leads(cfg, s0, steps, s)
    requires s.scan == [] && s.free > 0 && s.spool.Keys == {id} && Due(s.spool[id], 0) && tid !in s.tasks
    requires forall t :: t in s.tasks ==> s.tasks[t].Working?
    ensures Leads(cfg, s0, more, TakenUp(s, id, tid))
    ensures LeadsCarefully(cfg, s0, steps, s) ==> LeadsCarefully(cfg, s0, more, TakenUp(s, id, tid))
  {
    hide Leads, LeadsCarefully;
    RunSnoc(cfg, s0, steps, s, Scan([id], 0));
    var s1 := Apply(cfg, s, Scan([id], 0));
    RunSnoc(cfg, s0, steps + [Scan([id], 0)], s1, Spawn(tid));
    var s2 := Apply(cfg, s1, Spawn(tid));
    RunSnoc(cfg, s0, steps + [Scan([id], 0)] + [Spawn(tid)], s2, Mark(tid));
    more := steps + [Scan([id], 0)] + [Spawn(tid)] + [Mark(tid)];
    assert Apply(cfg, s2, Mark(tid)) == TakenUp(s, id, tid);
  }

  /** The task's message is refused for good and bounced. */
  function BouncedState(cfg: Config, s: State, tid: TaskId, bounce: Id): State
    requires tid in s.tasks && s.tasks[tid].Working?
  {
    var e := s.tasks[tid].entry;
    var report := NewEntry(Envelope(cfg.bounceSender, [e.env.sender]), cfg.report(e.env, [], e.bytes), 0);
    Gone(Enqueued(Ended(s, tid), bounce, report), s.tasks[tid].id, Bounced(s.tasks[tid].id, bounce))
  }

  lemma BounceIt(cfg: Config, s0: State, steps: seq<Step>, s: State, tid: TaskId, bounce: Id)
    returns (more: seq<Step>)
    requires Leads(cfg, s0, steps, s) && tid in s.tasks && s.tasks[tid].Working? && bounce !in s.used
    requires !NullSender(s.tasks[tid].entry.env.sender)
    ensures Leads(cfg, s0, more, BouncedState(cfg, s, tid, bounce))
    ensures LeadsCarefully(cfg, s0, steps, s) ==> LeadsCarefully(cfg, s0, more, BouncedState(cfg, s, tid, bounce))
  {
    hide Leads, LeadsCarefully, NullSender;
    var step := Finish(tid, Hosts([[Perm([])]]), 0, bounce);
    assert Concat([[Perm([])]]) == [Perm([])];
    more := steps + [step];
    RunSnoc(cfg, s0, steps, s, step);
  }

  /** The operator retries message 0 while a task works on it: a second task starts on it. */
  lemma SecondTask(cfg: Config) returns (steps: seq<Step>, s: State)
    requires cfg.threads >= 2
    ensures Leads(cfg, Init(cfg), steps, s)
    ensures s.tasks.Keys == {0, 1} && s.tasks[0].Working? && s.tasks[1].Working?
    ensures forall t :: t in s.tasks ==> s.tasks[t].id == 0 && s.tasks[t].entry.env == Envelope(SENDER, [])
    ensures s.used == {0} && s.log == [Accepted(0, Envelope(SENDER, []), [])] + [Started(0)] + [Started(0)]
  {
    hide Leads, LeadsCarefully;
    var s0 := FirstState(cfg);
    steps := FirstMessage(cfg);
    LeadsBoth(cfg, Init(cfg), steps, s0);
    steps := TakeUp(cfg, Init(cfg), steps, s0, 0, 0);
    var s1 := TakenUp(s0, 0, 0);
    RunSnoc(cfg, Init(cfg), steps, s1, Look(0, 0));
    var s2 := Apply(cfg, s1, Look(0, 0));
    RunSnoc(cfg, Init(cfg), steps + [Look(0, 0)], s2, Put(0, ToRetry(0)));
    var s3 := Apply(cfg, s2, Put(0, ToRetry(0)));
    steps := TakeUp(cfg, Init(cfg), steps + [Look(0, 0)] + [Put(0, ToRetry(0))], s3, 0, 1);
    s := TakenUp(s3, 0, 1);
  }

  lemma LeadsBoth(cfg: Config, s: State, steps: seq<Step>, s': State)
    requires LeadsCarefully(cfg, s, steps, s')
    ensures Leads(cfg, s, steps, s')
  {
  }
}
