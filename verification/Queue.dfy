/** The outbound queue: messages, retry schedule, bounces and the spool
    (serverwall-relay/src/queue/ and serverwall-relay/src/bounce.rs). */
module Queue {
  import opened Bytes
  import opened Options

  type Id = nat

  datatype Envelope = Envelope(sender: seq<Byte>, rcpts: seq<seq<Byte>>)

  datatype Status = Pending | Active | Deferred | Held

  datatype Meta = Meta(
    created: int, nextRetry: int, attempts: nat, lastError: Option<seq<Byte>>, status: Status, size: nat)

  datatype Entry = Entry(env: Envelope, meta: Meta, bytes: seq<Byte>)

  /** What the relay is configured with. `report` is the text of a bounce for an envelope, an error
      and the original message. */
  datatype Config = Config(
    threads: nat,
    maxAttempts: nat,
    maxAge: int,
    intervals: seq<int>,
    bounceSender: seq<Byte>,
    report: (Envelope, seq<Byte>, seq<Byte>) -> seq<Byte>)

  function NewEntry(env: Envelope, bytes: seq<Byte>, now: int): Entry {
    Entry(env, Meta(now, now, 0, None, Pending, |bytes|), bytes)
  }

  // ---- Retry schedule ----

  const HOUR: int := 3600

  /** When to try again after `attempt` attempts; None once there were `maxAttempts`. */
  function NextRetry(cfg: Config, attempt: nat, now: int): Option<int> {
    if attempt >= cfg.maxAttempts then None
    else if attempt < |cfg.intervals| then Some(now + cfg.intervals[attempt])
    else if cfg.intervals != [] then Some(now + cfg.intervals[|cfg.intervals| - 1])
    else Some(now + HOUR)
  }

  predicate Expired(cfg: Config, created: int, now: int) { now - created > cfg.maxAge }

  // ---- Bounces ----

  const MAILER_DAEMON: seq<Byte> := [77, 65, 73, 76, 69, 82, 45, 68, 65, 69, 77, 79, 78]

  /** Senders that are never sent a bounce: the empty one, `<>`, and MAILER-DAEMON in any case. */
  predicate NullSender(sender: seq<Byte>) {
    || sender == []
    || (|sender| == |MAILER_DAEMON| && forall i :: 0 <= i < |sender| ==> UpperByte(sender[i]) == MAILER_DAEMON[i])
    || sender == [60, 62]
  }

  datatype Bounce = NoBounce | Bounce(env: Envelope, bytes: seq<Byte>)

  function Generate(cfg: Config, env: Envelope, error: seq<Byte>, original: seq<Byte>): Bounce {
    if NullSender(env.sender) then NoBounce
    else Bounce(Envelope(cfg.bounceSender, [env.sender]), cfg.report(env, error, original))
  }

  // ---- One attempt over the MX hosts ----

  /** What the client reports for one address of one host. */
  datatype Attempt = Sent | Perm(error: seq<Byte>) | Temp(error: seq<Byte>)

  /** MX resolution fails, or yields hosts, each with the outcome its addresses would have. */
  datatype Mx = Unresolved(error: seq<Byte>) | Hosts(hosts: seq<seq<Attempt>>)

  datatype Tried = TriedSent | TriedPerm(error: seq<Byte>) | TriedTemp(lastError: Option<seq<Byte>>)

  function Concat(hosts: seq<seq<Attempt>>): seq<Attempt> {
    if hosts == [] then [] else hosts[0] + Concat(hosts[1..])
  }

  /** Addresses in order until one accepts or refuses for good; otherwise the last temporary error. */
  function Decide(attempts: seq<Attempt>, last: Option<seq<Byte>>): Tried {
    if attempts == [] then TriedTemp(last)
    else match attempts[0]
      case Sent => TriedSent
      case Perm(error) => TriedPerm(error)
      case Temp(error) => Decide(attempts[1..], Some(error))
  }

  /** The nested loops over hosts and their addresses. */
  method TryHosts(hosts: seq<seq<Attempt>>, lastError: Option<seq<Byte>>) returns (r: Tried)
    ensures r == Decide(Concat(hosts), lastError)
  {
    var last := lastError;
    for i := 0 to |hosts|
      invariant Decide(Concat(hosts), lastError) == Decide(Concat(hosts[i..]), last)
    {
      var host := hosts[i];
      assert hosts[i..][1..] == hosts[i + 1..];
      ghost var later := Concat(hosts[i + 1..]);
      assert Concat(hosts[i..]) == host + later;
      assert host[0..] + later == host + later;
      for j := 0 to |host|
        invariant Decide(Concat(hosts), lastError) == Decide(host[j..] + later, last)
      {
        assert (host[j..] + later)[0] == host[j] && (host[j..] + later)[1..] == host[j + 1..] + later;
        match host[j] {
          case Sent => return TriedSent;
          case Perm(error) => return TriedPerm(error);
          case Temp(error) => last := Some(error);
        }
      }
      assert host[|host|..] + later == later;
    }
    assert hosts[|hosts|..] == [];
    r := TriedTemp(last);
  }

  /** The loops in declarative terms: the first address that does not fail temporarily decides,
      and without one the last temporary error is kept. */
  lemma {:induction false} DecideFirst(attempts: seq<Attempt>, last: Option<seq<Byte>>) returns (k: nat)
    ensures TempUpTo(attempts, k)
    ensures match Decide(attempts, last)
      case TriedSent => k < |attempts| && attempts[k] == Sent
      case TriedPerm(error) => k < |attempts| && attempts[k] == Perm(error)
      case TriedTemp(l) =>
        k == |attempts| && l == if attempts == [] then last else Some(attempts[k - 1].error)
  {
    k := 0;
    if attempts != [] && attempts[0].Temp? {
      var k' := DecideFirst(attempts[1..], Some(attempts[0].error));
      k := k' + 1;
      assert forall i :: 0 < i < |attempts| ==> attempts[i] == attempts[1..][i - 1];
    }
  }

  predicate TempUpTo(attempts: seq<Attempt>, n: nat) {
    n <= |attempts| && forall i :: 0 <= i < n ==> attempts[i].Temp?
  }

  // ---- What becomes of the message ----

  datatype Conclusion = Done | GiveUp(error: seq<Byte>, original: seq<Byte>) | Defer(meta: Meta)

  function TempFail(cfg: Config, queued: Entry, error: seq<Byte>, now: int): Conclusion {
    if Expired(cfg, queued.meta.created, now) then GiveUp(error, [])
    else match NextRetry(cfg, queued.meta.attempts, now)
      case Some(next) => Defer(queued.meta.(nextRetry := next, status := Deferred, lastError := Some(error)))
      case None => GiveUp(error, [])
  }

  function Conclude(cfg: Config, queued: Entry, mx: Mx, now: int): Conclusion {
    match mx
    case Unresolved(error) => TempFail(cfg, queued, error, now)
    case Hosts(hosts) =>
      match Decide(Concat(hosts), queued.meta.lastError)
      case TriedSent => Done
      case TriedPerm(error) => GiveUp(error, queued.bytes)
      case TriedTemp(last) =>
        TempFail(cfg, queued.(meta := queued.meta.(lastError := last)), if last.Some? then last.value else [], now)
  }

  /** Address `k` is the first that does not fail temporarily, and reports `a`. */
  predicate FirstAt(attempts: seq<Attempt>, k: nat, a: Attempt) {
    k < |attempts| && TempUpTo(attempts, k) && attempts[k] == a && !a.Temp?
  }

  predicate Decided(mx: Mx, a: Attempt) {
    mx.Hosts? && exists k :: 0 <= k < |Concat(mx.hosts)| && FirstAt(Concat(mx.hosts), k, a)
  }

  /** A message is done exactly when the first address to decide accepts it, and kept exactly when none
      decides, it has not expired and has attempts left; otherwise it is given up, with its text
      quoted exactly when an address refused it for good. */
  lemma ConcludeExact(cfg: Config, queued: Entry, mx: Mx, now: int)
    ensures var c := Conclude(cfg, queued, mx, now);
      var temporary := !Decided(mx, Sent) && forall error :: !Decided(mx, Perm(error));
      && (c.Done? <==> Decided(mx, Sent))
      && (c.Defer? <==> temporary && !Expired(cfg, queued.meta.created, now) && queued.meta.attempts < cfg.maxAttempts)
      && (c.GiveUp? && !temporary ==> Decided(mx, Perm(c.error)) && c.original == queued.bytes)
      && (c.GiveUp? && temporary ==> c.original == [])
  {
    hide Concat, Decide;
    if mx.Hosts? {
      var all := Concat(mx.hosts);
      var k := DecideFirst(all, queued.meta.lastError);
      FirstUnique(all, k);
    }
  }

  lemma FirstUnique(attempts: seq<Attempt>, k: nat)
    requires TempUpTo(attempts, k)
    ensures k < |attempts| && !attempts[k].Temp? ==>
      FirstAt(attempts, k, attempts[k]) && forall i, a :: FirstAt(attempts, i, a) ==> i == k && a == attempts[k]
    ensures k == |attempts| ==> forall i, a :: !FirstAt(attempts, i, a)
  {
  }
}
