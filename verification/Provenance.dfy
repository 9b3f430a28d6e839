/** Where a spooled message comes from (serverwall-relay/src/delivery/mod.rs, serverwall-relay/src/bounce.rs):
    over every run of the delivery protocol a message is what was accepted, or the bounce of one. */
module Provenance {
  import opened Bytes
  import opened Queue
  import opened Delivery

  /** A message as it was accepted, or a bounce to the sender of another message. */
  datatype Origin = Unknown | Original(env: Envelope, bytes: seq<Byte>) | Report(env: Envelope)

  /** What the log says of a message. */
  function OriginOf(cfg: Config, log: seq<Event>, id: Id): Origin {
    if log == [] then Unknown
    else
      var n := |log| - 1;
      match log[n]
      case Accepted(i, env, bytes) => if i == id then Original(env, bytes) else OriginOf(cfg, log[..n], id)
      case Bounced(m, b) =>
        if b == id then ReportOn(cfg, OriginOf(cfg, log[..n], m)) else OriginOf(cfg, log[..n], id)
      case _ => OriginOf(cfg, log[..n], id)
  }

  /** From the bounce sender to the sender of the message reported on, and nobody else. */
  function ReportOn(cfg: Config, o: Origin): Origin {
    if o.Unknown? then Unknown else Report(Envelope(cfg.bounceSender, [o.env.sender]))
  }

  predicate Agrees(o: Origin, e: Entry) {
    match o
    case Unknown => false
    case Original(env, bytes) => e.env == env && e.bytes == bytes
    case Report(env) => e.env == env
  }

  /** Entries and the copies tasks work with are what the log says, and their ids were given out. */
  ghost predicate Traced(cfg: Config, s: State) {
    && (forall id :: id in s.spool ==> id in s.used && Agrees(OriginOf(cfg, s.log, id), s.spool[id]))
    && (forall t :: t in s.tasks && s.tasks[t].Working? ==>
          s.tasks[t].id in s.used && Agrees(OriginOf(cfg, s.log, s.tasks[t].id), s.tasks[t].entry))
  }

  lemma OriginSnoc(cfg: Config, log: seq<Event>, e: Event, id: Id)
    ensures OriginOf(cfg, log + [e], id) ==
      if e.Accepted? && e.id == id then Original(e.env, e.bytes)
      else if e.Bounced? && e.bounce == id then ReportOn(cfg, OriginOf(cfg, log, e.id))
      else OriginOf(cfg, log, id)
  {
    assert (log + [e])[..|log|] == log;
  }

  predicate SameText(e: Entry, e': Entry) { e.env == e'.env && e.bytes == e'.bytes }

  /** The entries and copies of `s'` are those of `s`, metadata apart. */
  predicate TextsFrom(s: State, s': State) {
    && (forall id :: id in s'.spool ==> id in s.spool && SameText(s'.spool[id], s.spool[id]))
    && (forall t :: t in s'.tasks && s'.tasks[t].Working? ==>
          || (t in s.tasks && s'.tasks[t] == s.tasks[t])
          || (s'.tasks[t].id in s.spool && SameText(s'.tasks[t].entry, s.spool[s'.tasks[t].id])))
  }

  /** Steps that bring in no message and log no arrival. */
  lemma KeepsTraced(cfg: Config, s: State, s': State, e: Event)
    requires Traced(cfg, s) && s'.used == s.used && TextsFrom(s, s')
    requires s'.log == s.log || (s'.log == s.log + [e] && !e.Accepted? && !e.Bounced?)
    ensures Traced(cfg, s')
  {
    hide OriginOf;
    forall id: Id
      ensures OriginOf(cfg, s'.log, id) == OriginOf(cfg, s.log, id)
    {
      OriginSnoc(cfg, s.log, e, id);
    }
  }

  lemma AcceptTraced(cfg: Config, s: State, id: Id, e: Entry)
    requires Traced(cfg, s) && id !in s.used
    ensures Traced(cfg, AcceptEntry(s, id, e))
  {
    hide OriginOf;
    forall i: Id
      ensures OriginOf(cfg, AcceptEntry(s, id, e).log, i) ==
        if i == id then Original(e.env, e.bytes) else OriginOf(cfg, s.log, i)
    {
      OriginSnoc(cfg, s.log, Accepted(id, e.env, e.bytes), i);
    }
  }

  /** A bounce goes to the sender of the copy its task worked with. */
  lemma BounceTraced(cfg: Config, s: State, tid: TaskId, b: Id, e: Entry)
    requires Traced(cfg, s) && b !in s.used && tid in s.tasks && s.tasks[tid].Working?
    requires e.env == Envelope(cfg.bounceSender, [s.tasks[tid].entry.env.sender])
    ensures Traced(cfg, Gone(Enqueued(Ended(s, tid), b, e), s.tasks[tid].id, Bounced(s.tasks[tid].id, b)))
  {
    hide OriginOf;
    var id := s.tasks[tid].id;
    var s' := Gone(Enqueued(Ended(s, tid), b, e), id, Bounced(id, b));
    forall i: Id
      ensures OriginOf(cfg, s'.log, i) ==
        if i == b then ReportOn(cfg, OriginOf(cfg, s.log, id)) else OriginOf(cfg, s.log, i)
    {
      OriginSnoc(cfg, s.log, Bounced(id, b), i);
    }
  }

  lemma FinishTraced(cfg: Config, s: State, tid: TaskId, mx: Mx, now: int, bounce: Id)
    requires Traced(cfg, s) && bounce !in s.used && tid in s.tasks && s.tasks[tid].Working?
    ensures Traced(cfg, FinishTask(cfg, s, tid, mx, now, bounce))
  {
    hide Traced, Conclude;
    var id, entry := s.tasks[tid].id, s.tasks[tid].entry;
    var s' := FinishTask(cfg, s, tid, mx, now, bounce);
    match Conclude(cfg, entry, mx, now)
    case Done => KeepsTraced(cfg, s, s', Delivered(id));
    case Defer(meta) => KeepsTraced(cfg, s, s', Started(id));
    case GiveUp(error, original) =>
      match Generate(cfg, entry.env, error, original) {
        case NoBounce => KeepsTraced(cfg, s, s', Dropped(id));
        case Bounce(env, bytes) => BounceTraced(cfg, s, tid, bounce, NewEntry(env, bytes, now));
      }
  }

  lemma QuietTraced(cfg: Config, s: State, step: Step)
    requires Traced(cfg, s) && Quiet(step) && Enabled(s, step)
    ensures Traced(cfg, Apply(cfg, s, step))
  {
    hide Traced, Lists;
    KeepsTraced(cfg, s, Apply(cfg, s, step), Started(0));
  }

  lemma MarkTraced(cfg: Config, s: State, tid: TaskId)
    requires Traced(cfg, s) && tid in s.tasks
    ensures Traced(cfg, MarkTask(s, tid))
  {
    hide Traced;
    KeepsTraced(cfg, s, MarkTask(s, tid), Started(s.tasks[tid].id));
  }

  lemma ApplyTraced(cfg: Config, s: State, step: Step)
    requires Traced(cfg, s) && Enabled(s, step)
    ensures Traced(cfg, Apply(cfg, s, step))
  {
    hide Traced, AcceptEntry, MarkTask, FinishTask, Lists;
    match step
    case Accept(id, env, bytes, now) => AcceptTraced(cfg, s, id, NewEntry(env, bytes, now));
    case Finish(tid, mx, now, bounce) => FinishTraced(cfg, s, tid, mx, now, bounce);
    case Mark(tid) => MarkTraced(cfg, s, tid);
    case Delete(id) => KeepsTraced(cfg, s, DeleteEntry(s, id), Deleted(id));
    case _ => QuietTraced(cfg, s, step);
  }

  lemma {:induction false} RunTraced(cfg: Config, s: State, steps: seq<Step>)
    requires Traced(cfg, s) && Possible(cfg, s, steps)
    ensures Traced(cfg, After(cfg, s, steps))
    decreases |steps|
  {
    hide Apply, Enabled, Traced;
    if steps != [] {
      ApplyTraced(cfg, s, steps[0]);
      RunTraced(cfg, Apply(cfg, s, steps[0]), steps[1..]);
    }
  }

  /** In every state of every run, whatever the operator does, every spooled message and every copy a task works with
      has the envelope and the text it was accepted with, or is a bounce from the bounce sender to exactly the
      sender of the message it reports on. */
  lemma MessagesKept(cfg: Config, steps: seq<Step>)
    requires Possible(cfg, Init(cfg), steps)
    ensures var s := After(cfg, Init(cfg), steps);
      && (forall id :: id in s.spool ==> Agrees(OriginOf(cfg, s.log, id), s.spool[id]))
      && (forall t :: t in s.tasks && s.tasks[t].Working? ==>
            Agrees(OriginOf(cfg, s.log, s.tasks[t].id), s.tasks[t].entry))
  {
    hide Agrees, OriginOf;
    RunTraced(cfg, Init(cfg), steps);
  }
}
