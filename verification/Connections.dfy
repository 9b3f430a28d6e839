/** The listener's connection counter (serverwall-proxy/src/listener/tcp_listener.rs). One dispatch loop
    reads the counter and then raises it; handler tasks lower it when they return, and one that dies lowers
    nothing. */
module Listener {
  import opened Options
  import opened Sets

  /** `live` handlers still run, `done` ones have returned and not yet lowered the counter, `dead` ones
      never will. `admitted` says the dispatch loop has passed its test and not yet raised the counter. */
  datatype State = State(active: int, admitted: bool, live: set<nat>, done: set<nat>, dead: set<nat>)

  datatype Step = Test | Spawn(id: nat) | Return(id: nat) | Lower(id: nat) | Die(id: nat)

  const INIT := State(0, false, {}, {}, {})

  predicate Full(s: State, max: Option<nat>) { max.Some? && s.active >= max.value }

  predicate Enabled(s: State, step: Step) {
    match step
    case Test => !s.admitted
    case Spawn(id) => s.admitted && id !in s.live + s.done + s.dead
    case Return(id) => id in s.live
    case Lower(id) => id in s.done
    case Die(id) => id in s.live
  }

  function Apply(s: State, step: Step, max: Option<nat>): State
    requires Enabled(s, step)
  {
    match step
    case Test => if Full(s, max) then s else s.(admitted := true)
    case Spawn(id) => s.(active := s.active + 1, admitted := false, live := s.live + {id})
    case Return(id) => s.(live := s.live - {id}, done := s.done + {id})
    case Lower(id) => s.(active := s.active - 1, done := s.done - {id})
    case Die(id) => s.(live := s.live - {id}, dead := s.dead + {id})
  }

  predicate Possible(s: State, run: seq<Step>, max: Option<nat>)
    decreases |run|
  {
    run == [] || (Enabled(s, run[0]) && Possible(Apply(s, run[0], max), run[1..], max))
  }

  function After(s: State, run: seq<Step>, max: Option<nat>): State
    requires Possible(s, run, max)
    decreases |run|
  {
    if run == [] then s else After(Apply(s, run[0], max), run[1..], max)
  }

  ghost predicate Counted(s: State, max: Option<nat>) {
    && s.live !! s.done && s.live !! s.dead && s.done !! s.dead
    && s.active == |s.live| + |s.done| + |s.dead|
    && (max.Some? ==> s.active <= max.value && (s.admitted ==> s.active < max.value))
  }

  lemma ApplyCounted(s: State, step: Step, max: Option<nat>)
    requires Counted(s, max) && Enabled(s, step)
    ensures Counted(Apply(s, step, max), max) && s.dead <= Apply(s, step, max).dead
  {
  }

  lemma {:induction false} RunCounted(s: State, run: seq<Step>, max: Option<nat>)
    requires Counted(s, max) && Possible(s, run, max)
    ensures Counted(After(s, run, max), max) && s.dead <= After(s, run, max).dead
    decreases |run|
  {
    if run != [] {
      ApplyCounted(s, run[0], max);
      RunCounted(Apply(s, run[0], max), run[1..], max);
    }
  }

  /** In every state of every interleaving: running handlers are at most the counter, the counter is at most
      the limit and never negative, and handlers that died stay counted, so what a run has lost it never
      gets back. The counter is exact just when no handler has died and none is about to lower it. */
  lemma ListenerSafety(before: seq<Step>, after: seq<Step>, max: Option<nat>)
    requires Possible(INIT, before, max) && Possible(After(INIT, before, max), after, max)
    ensures var mid := After(INIT, before, max); var s := After(mid, after, max);
      && 0 <= |s.live| <= s.active
      && (max.Some? ==> s.active <= max.value && |s.live| <= max.value - |mid.dead|)
      && (s.active == |s.live| <==> s.done == {} && s.dead == {})
  {
    RunCounted(INIT, before, max);
    var mid := After(INIT, before, max);
    RunCounted(mid, after, max);
    SubsetSize(mid.dead, After(mid, after, max).dead);
  }

  /** Once as many handlers have died as the limit allows, no later step starts another. */
  lemma {:induction false} DeadListenerAdmitsNone(s: State, run: seq<Step>, max: nat)
    requires Counted(s, Some(max)) && |s.dead| == max && Possible(s, run, Some(max))
    ensures forall i :: 0 <= i < |run| ==> run[i] == Test
    ensures After(s, run, Some(max)) == s
    decreases |run|
  {
    if run != [] {
      assert s.live == {} && s.done == {};
      DeadListenerAdmitsNone(Apply(s, run[0], Some(max)), run[1..], max);
    }
  }

  /** The dispatcher's own code: it admits a connection exactly when the counter is below the limit. */
  class TcpListener {
    const maxConnections: Option<nat>
    var active: nat

    constructor (maxConnections: Option<nat>)
      ensures this.maxConnections == maxConnections && active == 0
    {
      this.maxConnections := maxConnections;
      active := 0;
    }

    method DispatchConnection(ghost s: State, ghost id: nat) returns (spawned: bool)
      requires active == s.active && Enabled(s, Test) && id !in s.live + s.done + s.dead
      modifies this
      ensures spawned <==> !Full(s, maxConnections)
      ensures var tested := Apply(s, Test, maxConnections);
        active == (if spawned then Apply(tested, Spawn(id), maxConnections) else tested).active
    {
      if maxConnections.Some? {
        var current := active;
        if current >= maxConnections.value {
          return false;
        }
      }
      active := active + 1;
      spawned := true;
    }
  }
}

/** A backend's connection counter (serverwall-core/src/types.rs, serverwall-proxy/src/pipeline.rs). A task
    that finds the backend available takes its guard only later, so several may have seen the same
    count; a sticky session takes a guard without looking at the limit. */
module BackendGuards {
  import opened Options

  /** `pending` tasks have seen the backend available and hold no guard yet; `sticky` is the part of
      `guards` taken by tag. */
  datatype Backend = Backend(
    enabled: bool,
    healthy: bool,
    active: int,
    total: nat,
    pending: set<nat>,
    guards: set<nat>,
    sticky: set<nat>,
    dropped: nat)

  datatype Move =
    | Look(task: nat)
    | Leave(task: nat)
    | Take(task: nat)
    | TakeByTag(task: nat)
    | Drop(task: nat)
    | SetEnabled(on: bool)
    | SetHealthy(on: bool)

  const NEW := Backend(true, true, 0, 0, {}, {}, {}, 0)

  predicate IsAvailable(b: Backend, max: Option<nat>) {
    b.enabled && b.healthy && (max.Some? ==> b.active < max.value)
  }

  /** At most `tasks` tasks are between their look and their guard. */
  predicate Allowed(b: Backend, move: Move, max: Option<nat>, tasks: nat) {
    match move
    case Look(t) => IsAvailable(b, max) && t !in b.pending + b.guards && |b.pending| < tasks
    case Leave(t) => t in b.pending
    case Take(t) => t in b.pending
    case TakeByTag(t) => b.enabled && b.healthy && t !in b.pending + b.guards
    case Drop(t) => t in b.guards
    case SetEnabled(_) => true
    case SetHealthy(_) => true
  }

  function Moved(b: Backend, move: Move): Backend {
    match move
    case Look(t) => b.(pending := b.pending + {t})
    case Leave(t) => b.(pending := b.pending - {t})
    case Take(t) =>
      b.(pending := b.pending - {t}, guards := b.guards + {t}, active := b.active + 1, total := b.total + 1)
    case TakeByTag(t) =>
      b.(guards := b.guards + {t}, sticky := b.sticky + {t}, active := b.active + 1, total := b.total + 1)
    case Drop(t) =>
      b.(guards := b.guards - {t}, sticky := b.sticky - {t}, active := b.active - 1, dropped := b.dropped + 1)
    case SetEnabled(on) => b.(enabled := on)
    case SetHealthy(on) => b.(healthy := on)
  }

  predicate CanRun(b: Backend, run: seq<Move>, max: Option<nat>, tasks: nat)
    decreases |run|
  {
    run == [] || (Allowed(b, run[0], max, tasks) && CanRun(Moved(b, run[0]), run[1..], max, tasks))
  }

  function Reached(b: Backend, run: seq<Move>): Backend
    decreases |run|
  {
    if run == [] then b else Reached(Moved(b, run[0]), run[1..])
  }

  ghost predicate Guarded(b: Backend, max: Option<nat>, tasks: nat) {
    && b.pending !! b.guards && b.sticky <= b.guards
    && b.active == |b.guards|
    && b.total == b.active + b.dropped
    && |b.pending| <= tasks
    && (max.Some? ==>
          if max.value == 0 then b.pending == {} && b.guards == b.sticky
          else b.active + |b.pending| <= max.value - 1 + tasks + |b.sticky|)
  }

  lemma TakenGuarded(b: Backend, move: Move, max: Option<nat>, tasks: nat)
    requires Guarded(b, max, tasks) && Allowed(b, move, max, tasks) && (move.Take? || move.TakeByTag?)
    ensures Guarded(Moved(b, move), max, tasks)
  {
    match move
    case Take(t) => assert Moved(b, move).sticky == b.sticky && |b.pending - {t}| == |b.pending| - 1;
    case TakeByTag(t) => assert Moved(b, move).pending == b.pending && t !in b.sticky;
  }

  lemma DroppedGuarded(b: Backend, task: nat, max: Option<nat>, tasks: nat)
    requires Guarded(b, max, tasks) && task in b.guards
    ensures Guarded(Moved(b, Drop(task)), max, tasks)
  {
    assert |b.guards - {task}| == |b.guards| - 1;
    if task !in b.sticky {
      assert b.sticky - {task} == b.sticky;
    }
  }

  lemma MovedGuarded(b: Backend, move: Move, max: Option<nat>, tasks: nat)
    requires Guarded(b, max, tasks) && Allowed(b, move, max, tasks)
    ensures Guarded(Moved(b, move), max, tasks)
  {
    if move.Drop? {
      DroppedGuarded(b, move.task, max, tasks);
    } else if move.Take? || move.TakeByTag? {
      TakenGuarded(b, move, max, tasks);
    }
  }

  lemma {:induction false} ReachedGuarded(b: Backend, run: seq<Move>, max: Option<nat>, tasks: nat)
    requires Guarded(b, max, tasks) && CanRun(b, run, max, tasks)
    ensures Guarded(Reached(b, run), max, tasks)
    decreases |run|
  {
    if run != [] {
      MovedGuarded(b, run[0], max, tasks);
      ReachedGuarded(Moved(b, run[0]), run[1..], max, tasks);
    }
  }

  predicate UsesTags(run: seq<Move>) { exists i :: 0 <= i < |run| && run[i].TakeByTag? }

  lemma {:induction false} NoTagsNoSticky(b: Backend, run: seq<Move>)
    requires b.sticky == {} && !UsesTags(run)
    ensures Reached(b, run).sticky == {}
    decreases |run|
  {
    if run != [] {
      assert !run[0].TakeByTag?;
      assert forall i :: 0 <= i < |run[1..]| ==> run[1..][i] == run[i + 1];
      NoTagsNoSticky(Moved(b, run[0]), run[1..]);
    }
  }

  /** In every interleaving with at most `tasks` tasks between look and guard, the counter is the number of
      live guards, never negative, and the total counts every guard ever made. A limit `max >= 1` is
      exceeded by at most `tasks - 1` connections, plus those routed by tag; a limit of 0 admits only
      those routed by tag. */
  lemma BackendSafety(run: seq<Move>, max: Option<nat>, tasks: nat)
    requires CanRun(NEW, run, max, tasks)
    ensures var b := Reached(NEW, run);
      && b.active == |b.guards| && b.total == b.active + b.dropped
      && (max.Some? && max.value > 0 ==> b.active <= max.value - 1 + tasks + |b.sticky|)
      && (max.Some? && max.value > 0 && !UsesTags(run) ==> b.active <= max.value - 1 + tasks)
      && (max.Some? && max.value == 0 ==> b.guards == b.sticky)
  {
    ReachedGuarded(NEW, run, max, tasks);
    if !UsesTags(run) {
      NoTagsNoSticky(NEW, run);
    }
  }

  /** The counters a backend holds, and the code that reads and changes them; `model` is the backend they
      belong to, with the tasks and guards the counters do not name. */
  class Counters {
    const maxConnections: Option<nat>
    var enabled: bool
    var healthy: bool
    var active: nat
    var total: nat
    ghost var model: Backend

    ghost predicate Valid()
      reads this
    {
      && enabled == model.enabled && healthy == model.healthy && active == model.active && total == model.total
      && active == |model.guards|
    }

    constructor (maxConnections: Option<nat>)
      ensures Valid() && model == NEW && this.maxConnections == maxConnections
    {
      this.maxConnections, enabled, healthy, active, total, model := maxConnections, true, true, 0, 0, NEW;
    }

    method Available() returns (r: bool)
      requires Valid()
      ensures r <==> IsAvailable(model, maxConnections)
    {
      r := enabled && healthy;
      if r && maxConnections.Some? {
        r := active < maxConnections.value;
      }
    }

    /** A guard is made: for a task that looked, or for one routed here by tag. */
    method NewGuard(ghost task: nat, ghost byTag: bool)
      requires Valid() && task !in model.guards
      modifies this
      ensures Valid() && model == Moved(old(model), if byTag then TakeByTag(task) else Take(task))
    {
      model := Moved(model, if byTag then TakeByTag(task) else Take(task));
      active := active + 1;
      total := total + 1;
    }

    method DropGuard(ghost task: nat)
      requires Valid() && task in model.guards
      modifies this
      ensures Valid() && model == Moved(old(model), Drop(task))
    {
      model := Moved(model, Drop(task));
      active := active - 1;
    }
  }

  // ---- The bound is reached ----

  function Fill(first: nat, n: nat): seq<Move>
    decreases n
  {
    if n == 0 then [] else [Look(first), Take(first)] + Fill(first + 1, n - 1)
  }

  function Looks(first: nat, n: nat): seq<Move>
    decreases n
  {
    if n == 0 then [] else [Look(first)] + Looks(first + 1, n - 1)
  }

  function Takes(first: nat, n: nat): seq<Move>
    decreases n
  {
    if n == 0 then [] else [Take(first)] + Takes(first + 1, n - 1)
  }

  lemma {:induction false} RunJoin(b: Backend, one: seq<Move>, two: seq<Move>, max: Option<nat>, tasks: nat)
    requires CanRun(b, one, max, tasks) && CanRun(Reached(b, one), two, max, tasks)
    ensures CanRun(b, one + two, max, tasks) && Reached(b, one + two) == Reached(Reached(b, one), two)
    decreases |one|
  {
    if one == [] {
      assert one + two == two;
    } else {
      assert (one + two)[1..] == one[1..] + two;
      RunJoin(Moved(b, one[0]), one[1..], two, max, tasks);
    }
  }

  predicate Ready(b: Backend, first: nat) {
    && b.enabled && b.healthy
    && (forall t :: t in b.guards ==> t < first)
    && (forall t :: t in b.pending ==> t < first)
  }

  lemma {:induction false} FillRuns(b: Backend, first: nat, n: nat, max: nat, tasks: nat)
    requires Ready(b, first) && b.pending == {} && b.active + n <= max && tasks > 0
    ensures CanRun(b, Fill(first, n), Some(max), tasks)
    ensures var b' := Reached(b, Fill(first, n));
      Ready(b', first + n) && b'.pending == {} && b'.active == b.active + n
    decreases n
  {
    if n > 0 {
      var run := Fill(first, n);
      var b1 := Moved(b, Look(first));
      var b2 := Moved(b1, Take(first));
      assert b2.pending == {} && Ready(b2, first + 1);
      FillRuns(b2, first + 1, n - 1, max, tasks);
      assert run[1..][1..] == Fill(first + 1, n - 1);
      assert run[1..][0] == Take(first);
    }
  }

  lemma {:induction false} LooksRun(b: Backend, first: nat, n: nat, max: nat, tasks: nat)
    requires Ready(b, first) && b.active < max && |b.pending| + n <= tasks
    ensures CanRun(b, Looks(first, n), Some(max), tasks)
    ensures var b' := Reached(b, Looks(first, n));
      && Ready(b', first + n) && b'.active == b.active
      && forall t :: t in b'.pending <==> t in b.pending || first <= t < first + n
    decreases n
  {
    if n > 0 {
      var b1 := Moved(b, Look(first));
      LooksRun(b1, first + 1, n - 1, max, tasks);
      assert Looks(first, n)[1..] == Looks(first + 1, n - 1);
    }
  }

  lemma {:induction false} TakesRun(b: Backend, first: nat, n: nat, max: Option<nat>, tasks: nat)
    requires forall t :: first <= t < first + n ==> t in b.pending
    ensures CanRun(b, Takes(first, n), max, tasks)
    ensures var b' := Reached(b, Takes(first, n));
      && b'.active == b.active + n && b'.sticky == b.sticky && b'.enabled == b.enabled && b'.healthy == b.healthy
      && b'.pending <= b.pending && b'.guards <= b.guards + b.pending
    decreases n
  {
    if n > 0 {
      TakesRun(Moved(b, Take(first)), first + 1, n - 1, max, tasks);
      assert Takes(first, n)[1..] == Takes(first + 1, n - 1);
    }
  }

  lemma {:induction false} NoTags(first: nat, n: nat)
    ensures !UsesTags(Fill(first, n)) && !UsesTags(Looks(first, n)) && !UsesTags(Takes(first, n))
    decreases n
  {
    if n > 0 {
      NoTags(first + 1, n - 1);
      var f, l, t := Fill(first, n), Looks(first, n), Takes(first, n);
      assert f[2..] == Fill(first + 1, n - 1) && l[1..] == Looks(first + 1, n - 1) && t[1..] == Takes(first + 1, n - 1);
      assert forall i :: 2 <= i < |f| ==> f[i] == f[2..][i - 2];
      assert forall i :: 1 <= i < |l| ==> l[i] == l[1..][i - 1];
      assert forall i :: 1 <= i < |t| ==> t[i] == t[1..][i - 1];
    }
  }

  lemma TagsJoin(one: seq<Move>, two: seq<Move>)
    requires !UsesTags(one) && !UsesTags(two)
    ensures !UsesTags(one + two)
  {
  }

  function Tags(first: nat, n: nat): seq<Move>
    decreases n
  {
    if n == 0 then [] else [TakeByTag(first)] + Tags(first + 1, n - 1)
  }

  lemma {:induction false} TagsRun(b: Backend, first: nat, n: nat, max: Option<nat>, tasks: nat)
    requires Ready(b, first) && b.sticky <= b.guards
    ensures CanRun(b, Tags(first, n), max, tasks)
    ensures var b' := Reached(b, Tags(first, n)); b'.active == b.active + n && |b'.sticky| == |b.sticky| + n
    decreases n
  {
    hide Ready, Moved, IsAvailable;
    if n > 0 {
      TagStep(b, first, max, tasks);
      TagsRun(Moved(b, TakeByTag(first)), first + 1, n - 1, max, tasks);
      assert Tags(first, n)[1..] == Tags(first + 1, n - 1);
    }
  }

  lemma TagStep(b: Backend, first: nat, max: Option<nat>, tasks: nat)
    requires Ready(b, first) && b.sticky <= b.guards
    ensures Allowed(b, TakeByTag(first), max, tasks)
    ensures var b' := Moved(b, TakeByTag(first));
      Ready(b', first + 1) && b'.sticky <= b'.guards && b'.active == b.active + 1 && |b'.sticky| == |b.sticky| + 1
  {
    assert first !in b.guards && first !in b.pending && first !in b.sticky;
  }

  /** A run without tags that reaches the limit less one, and then has every task take its guard. */
  lemma Crowded(max: nat, tasks: nat) returns (run: seq<Move>)
    requires max > 0 && tasks > 0
    ensures CanRun(NEW, run, Some(max), tasks) && !UsesTags(run)
    ensures var b := Reached(NEW, run); b.active == max - 1 + tasks && b.sticky == {} && Ready(b, max - 1 + tasks)
  {
    hide CanRun, Reached, Fill, Looks, Takes, UsesTags;
    var fill, looks, takes := Fill(0, max - 1), Looks(max - 1, tasks), Takes(max - 1, tasks);
    FillRuns(NEW, 0, max - 1, max, tasks);
    var b := Reached(NEW, fill);
    LooksRun(b, max - 1, tasks, max, tasks);
    TakesRun(Reached(b, looks), max - 1, tasks, Some(max), tasks);
    RunJoin(b, looks, takes, Some(max), tasks);
    RunJoin(NEW, fill, looks + takes, Some(max), tasks);
    NoTags(0, max - 1);
    NoTags(max - 1, tasks);
    TagsJoin(looks, takes);
    TagsJoin(fill, looks + takes);
    run := fill + (looks + takes);
    NoTagsNoSticky(NEW, run);
  }

  /** The bound cannot be lowered: for every limit, every number of tasks and every number of guards routed by tag some
      run reaches it, and one without tags if there are none. */
  lemma BoundReached(max: nat, tasks: nat, tags: nat) returns (run: seq<Move>)
    requires max > 0 && tasks > 0
    ensures CanRun(NEW, run, Some(max), tasks) && (tags == 0 ==> !UsesTags(run))
    ensures var b := Reached(NEW, run); b.active == max - 1 + tasks + tags && |b.sticky| == tags
  {
    hide CanRun, Reached, UsesTags;
    var crowd := Crowded(max, tasks);
    var b, tag := Reached(NEW, crowd), Tags(max - 1 + tasks, tags);
    TagsRun(b, max - 1 + tasks, tags, Some(max), tasks);
    RunJoin(NEW, crowd, tag, Some(max), tasks);
    run := crowd + tag;
    if tags == 0 {
      assert run == crowd;
    }
  }
}
