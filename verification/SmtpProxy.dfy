/** The inbound SMTP proxy session (serverwall-proxy/src/proxy/smtp_proxy.rs) with the decisions of
    the antispam pipeline (serverwall-antispam/src/pipeline.rs). */
module SmtpProxy {
  import opened Bytes
  import DataTransfer
  import opened SmtpCommands
  import opened Options

  // ---- Antispam pipeline ----

  datatype Outcome = Pass | Skip | Hit | Reject(reason: seq<Byte>) | TempFail(reason: seq<Byte>)

  datatype Decision = Continue | Accept | Refuse(code: nat, reason: seq<Byte>) | Later(reason: seq<Byte>)

  datatype Verdict = Clean | Suspect | Spam

  predicate Decisive(o: Outcome) { o.Reject? || o.TempFail? }

  function DecisionOf(o: Outcome): Decision {
    match o
    case Reject(reason) => Refuse(550, reason)
    case TempFail(reason) => Later(reason)
    case _ => Continue
  }

  /** The first check that rejects or defers decides. */
  function FirstDecision(checks: seq<Outcome>): Decision {
    if checks == [] then Continue
    else if Decisive(checks[0]) then DecisionOf(checks[0])
    else FirstDecision(checks[1..])
  }

  predicate FirstDecisive(checks: seq<Outcome>, i: nat) {
    i < |checks| && Decisive(checks[i]) && forall j :: 0 <= j < i ==> !Decisive(checks[j])
  }

  /** The loop over the pre-DATA checks. */
  method RunPreData(checks: seq<Outcome>) returns (d: Decision)
    ensures d == FirstDecision(checks)
    ensures d == Continue <==> forall i :: 0 <= i < |checks| ==> !Decisive(checks[i])
    ensures d != Continue ==> exists i :: 0 <= i < |checks| && FirstDecisive(checks, i) && d == DecisionOf(checks[i])
  {
    for i := 0 to |checks|
      invariant FirstDecision(checks) == FirstDecision(checks[i..])
      invariant forall j :: 0 <= j < i ==> !Decisive(checks[j])
    {
      assert Decisive(checks[i]) ==> FirstDecisive(checks, i);
      match checks[i] {
        case Reject(reason) => return Refuse(550, reason);
        case TempFail(reason) => return Later(reason);
        case _ =>
      }
      assert checks[i..][1..] == checks[i + 1..];
    }
    d := Continue;
  }

  /** The spam report's verdict, or the decision of the check that stopped the pipeline. */
  datatype PostData = Report(verdict: Verdict) | Stopped(decision: Decision)

  function RunPostData(checks: seq<Outcome>, verdict: Verdict): PostData {
    var d := FirstDecision(checks);
    if d == Continue then Report(verdict) else Stopped(d)
  }

  /** The pipeline stops with a rejection or a deferral and nothing else, so the session's catch-all
      arm is never taken. */
  lemma {:induction false} CatchAllUnreachable(checks: seq<Outcome>, verdict: Verdict)
    ensures var p := RunPostData(checks, verdict);
      p.Stopped? ==> p.decision.Refuse? || p.decision.Later?
  {
    if checks != [] && !Decisive(checks[0]) {
      CatchAllUnreachable(checks[1..], verdict);
    }
  }

  // ---- The DATA loop ----

  datatype Body = Body(bytes: seq<Byte>, rest: seq<Byte>) | NotText

  function More(line: seq<Byte>, b: Body): Body {
    if b.Body? then Body(line + b.bytes, b.rest) else b
  }

  /** Reads to the lone dot or to the end of the input, whichever comes first. */
  function ReadBody(s: seq<Byte>): Body
    decreases |s|
  {
    var n := LineLen(s);
    if n == 0 then Body([], [])
    else if !Valid(s[..n]) then NotText
    else if s[..n] == [DOT] + CRLF || s[..n] == [DOT, LF] then Body([], s[n..])
    else More(DataTransfer.Unstuffed(s[..n]), ReadBody(s[n..]))
  }

  method ReceiveBody(stream: seq<Byte>) returns (r: Body)
    ensures r == ReadBody(stream)
  {
    hide Valid, LineLen;
    var data: seq<Byte> := [];
    var rest := stream;
    while true
      invariant ReadBody(stream) == More(data, ReadBody(rest))
      decreases |rest|
    {
      var n := LineLen(rest);
      var line := rest[..n];
      if n == 0 {
        return Body(data + [], []);
      }
      if !Valid(line) {
        return NotText;
      }
      if line == [DOT] + CRLF || line == [DOT, LF] {
        return Body(data + [], rest[n..]);
      }
      var bytes := DataTransfer.Unstuffed(line);
      ghost var tail := ReadBody(rest[n..]);
      assert tail.Body? ==> data + (bytes + tail.bytes) == data + bytes + tail.bytes;
      data := data + bytes;
      rest := rest[n..];
    }
  }

  lemma SameTerminator(line: seq<Byte>)
    requires line != [] && line[|line| - 1] == LF && LF !in line[..|line| - 1]
    ensures DataTransfer.IsTerminator(line) <==> line == [DOT] + CRLF || line == [DOT, LF]
  {
    var x := line[..|line| - 1];
    assert line == x + [LF];
    if x != [] && x[|x| - 1] == CR {
      var y := x[..|x| - 1];
      assert x == y + [CR] && line == y + CRLF;
      DataTransfer.TrimmedLine(y);
      assert line == [DOT] + CRLF ==> y == [DOT];
      assert line != [DOT, LF];
    } else {
      assert |line| >= 2 ==> line[|line| - 2..][0] != CR;
      assert TrimEndMatches(line, CRLF) == line;
      assert line[|line| - 1..] == [LF];
      assert x != [] ==> x[|x| - 1..][0] != LF;
      assert TrimEndMatches(line, [LF]) == TrimEndMatches(x, [LF]) == x;
      assert x == [DOT] <==> line == [DOT, LF];
    }
  }

  lemma LineShape(s: seq<Byte>)
    ensures var n := LineLen(s); LF !in s[..n] || (n > 0 && s[n - 1] == LF && LF !in s[..n][..n - 1])
  {
  }

  /** The proxy's loop reads what the relay receiver's loop reads whenever the latter ends at a full
      line; the two differ only on input that stops early or ends in a dot without a newline. */
  lemma {:induction false} SameAsReceiver(s: seq<Byte>)
    requires var r := DataTransfer.ReadData(s);
      r.Received? && |r.rest| < |s| && s[|s| - |r.rest| - 1] == LF
    ensures var r := DataTransfer.ReadData(s); ReadBody(s) == Body(r.body, r.rest)
    decreases |s|
  {
    hide LineLen, Valid, DataTransfer.IsTerminator, DataTransfer.Unstuffed;
    var n := LineLen(s);
    var line := s[..n];
    LineShape(s);
    if n < |s| || DataTransfer.IsTerminator(line) {
      SameTerminator(line);
    }
    if !DataTransfer.IsTerminator(line) {
      DataTransfer.ReadDataConsumes(s[n..]);
      SameAsReceiver(s[n..]);
    }
  }

  /** A body the relay's client sends arrives normalised, with what follows unread. */
  lemma BodyRoundTrip(m: seq<Byte>, rest: seq<Byte>)
    requires Valid(m)
    ensures ReadBody(DataTransfer.Encode(m) + rest) == Body(DataTransfer.Normalize(m), rest)
  {
    hide Valid, ReadBody, DataTransfer.ReadData, DataTransfer.Normalize;
    var wire := DataTransfer.Encode(m);
    DataTransfer.RoundTrip(m, rest);
    EndsInNewline(m);
    assert (wire + rest)[|wire| - 1] == wire[|wire| - 1];
    SameAsReceiver(wire + rest);
  }

  lemma {:induction false} EndsInNewline(m: seq<Byte>)
    ensures var wire := DataTransfer.Encode(m); wire != [] && wire[|wire| - 1] == LF
    decreases |m|
  {
    var n := LineLen(m);
    hide DataTransfer.WireLine, LineLen;
    if n > 0 && m[n - 1] == LF {
      EndsInNewline(m[n..]);
    }
  }

  // ---- The session ----

  datatype Phase = Connected | BannerSent | HeloReceived | MailGiven | RcptGiven | InData | Proxying | Finished

  /** Block and allow lists, as this client's address and the configuration decide them. */
  datatype Lists = Lists(
    blockedSender: seq<Byte> -> bool, blockedRcpt: seq<Byte> -> bool, allowedSender: seq<Byte> -> bool)

  /** What follows a DATA: the body read (None if reading failed), the outcomes of the checks, the verdict
      their scores would give, and the backend's reply (None if it cannot be reached). */
  datatype Content = Content(
    body: Option<seq<Byte>>, pre: seq<Outcome>, post: seq<Outcome>, verdict: Verdict, backend: Option<nat>)

  /** What code outside the session will say of the k-th body on this connection. */
  datatype Oracle = Oracle(
    pre: nat -> seq<Outcome>, post: nat -> seq<Outcome>, verdict: nat -> Verdict, backend: nat -> Option<nat>)

  /** One reply to a command; the 354 to a DATA, with the content it brings; a message given to the
      backend, `bypass` if the allow list spared it the post-DATA checks; the final reply to a DATA. */
  datatype Event =
    | Replied(cmd: Command, code: nat)
    | Began(content: Content)
    | Forwarded(sender: seq<Byte>, rcpts: seq<seq<Byte>>, bytes: seq<Byte>, bypass: bool)
    | Final(code: nat)

  datatype Session = Session(
    phase: Phase, sender: seq<Byte>, rcpts: seq<seq<Byte>>, allowed: bool, open: bool, events: seq<Event>)

  const START: Session := Session(BannerSent, [], [], false, true, [])

  function DropAngles(s: seq<Byte>): seq<Byte> {
    if s != [] && (s[0] == 60 || s[0] == 62) then DropAngles(s[1..])
    else if s != [] && (s[|s| - 1] == 60 || s[|s| - 1] == 62) then DropAngles(s[..|s| - 1])
    else s
  }

  function Reply(s: Session, cmd: Command, code: nat): Session {
    s.(events := s.events + [Replied(cmd, code)])
  }

  /** The state every transaction ends in; whether `allowed` is cleared depends on the path. */
  function Reset(s: Session, events: seq<Event>, allowed: bool): Session {
    s.(phase := HeloReceived, sender := [], rcpts := [], allowed := allowed, events := s.events + events)
  }

  function BackendCode(backend: Option<nat>): nat { if backend.Some? then backend.value else 451 }

  /** The events of a DATA whose body was read: the 354, the message if it is given to the backend, the final
      reply. */
  function JudgedEvents(s: Session, d: Content): seq<Event>
    requires d.body.Some?
  {
    var pre := FirstDecision(d.pre);
    if pre.Refuse? then [Began(d), Final(pre.code)]
    else if pre.Later? then [Began(d), Final(451)]
    else if s.allowed then ForwardEvents(s, d, true)
    else
      match RunPostData(d.post, d.verdict)
      case Stopped(Refuse(code, _)) => [Began(d), Final(code)]
      case Stopped(Later(_)) => [Began(d), Final(451)]
      case Stopped(_) => [Began(d)]
      case Report(verdict) => if verdict == Spam then [Began(d), Final(550)] else ForwardEvents(s, d, false)
  }

  function ForwardEvents(s: Session, d: Content, bypass: bool): seq<Event>
    requires d.body.Some?
  {
    [Began(d), Forwarded(s.sender, s.rcpts, d.body.value, bypass), Final(BackendCode(d.backend))]
  }

  /** The mark is cleared only past the post-DATA checks, where it is not set. */
  function Judged(s: Session, d: Content): Session
    requires d.body.Some?
  {
    var pre := FirstDecision(d.pre);
    Reset(s, JudgedEvents(s, d), if pre.Refuse? || pre.Later? || s.allowed then s.allowed else false)
  }

  predicate TakesData(s: Session) { s.phase == RcptGiven || s.phase == MailGiven }

  function TakeData(s: Session, d: Content): Session {
    if d.body.None? then s.(phase := InData, open := false, events := s.events + [Began(d)]) else Judged(s, d)
  }

  function Answer(lists: Lists, s: Session, cmd: Command): Session {
    match cmd
    case Ehlo(_) => Reply(s.(phase := HeloReceived), cmd, 250)
    case Helo(_) => Reply(s.(phase := HeloReceived), cmd, 250)
    case StartTls => Reply(s, cmd, 454)
    case MailFrom(addr) =>
      var sender := DropAngles(addr);
      if lists.blockedSender(sender)
      then Reply(s.(sender := sender, phase := Finished, open := false), cmd, 550)
      else Reply(s.(sender := sender, phase := MailGiven), cmd, 250)
    case RcptTo(addr) =>
      var rcpt := DropAngles(addr);
      if lists.blockedRcpt(rcpt) then Reply(s, cmd, 550)
      else
        Reply(s.(rcpts := s.rcpts + [rcpt], allowed := s.allowed || lists.allowedSender(s.sender), phase := RcptGiven),
              cmd, 250)
    case Rset =>
      Reply(s.(sender := [], rcpts := [], allowed := false,
               phase := if s.phase != BannerSent && s.phase != Connected then HeloReceived else s.phase), cmd, 250)
    case Noop => Reply(s, cmd, 250)
    case Quit => Reply(s.(phase := Finished, open := false), cmd, 221)
    case _ => Reply(s, cmd, 502)
  }

  /** The content of the k-th DATA, with what is left unread after it. */
  function ContentOf(oracle: Oracle, k: nat, b: Body): Content {
    var body := if b.Body? then Some(b.bytes) else None;
    Content(body, oracle.pre(k), oracle.post(k), oracle.verdict(k), oracle.backend(k))
  }

  /** The session from state `s` on, with `stream` unread and `k` bodies read so far. */
  function Talk(lists: Lists, oracle: Oracle, s: Session, stream: seq<Byte>, k: nat): Session
    decreases |stream|
  {
    var n := LineLen(stream);
    if !s.open || n == 0 || !Valid(stream[..n]) then s
    else
      var cmd, rest := Parse(stream[..n]), stream[n..];
      if !cmd.Data? then Talk(lists, oracle, Answer(lists, s, cmd), rest, k)
      else if !TakesData(s) then Talk(lists, oracle, Reply(s, cmd, 503), rest, k)
      else
        var b := ReadBody(rest);
        var s' := TakeData(s, ContentOf(oracle, k, b));
        if b.Body? then
          ReadBodyShrinks(rest);
          Talk(lists, oracle, s', b.rest, k + 1)
        else s'
  }

  lemma {:induction false} ReadBodyShrinks(s: seq<Byte>)
    ensures ReadBody(s).Body? ==> |ReadBody(s).rest| <= |s|
    decreases |s|
  {
    hide Valid;
    if LineLen(s) > 0 {
      ReadBodyShrinks(s[LineLen(s)..]);
    }
  }

  /** The proxy object: the command loop changes its fields in place. */
  class Proxy {
    const lists: Lists
    var phase: Phase
    var sender: seq<Byte>
    var rcpts: seq<seq<Byte>>
    var allowed: bool
    var open: bool
    var events: seq<Event>

    function Now(): Session
      reads this
    {
      Session(phase, sender, rcpts, allowed, open, events)
    }

    constructor (lists: Lists)
      ensures this.lists == lists && Now() == START
    {
      this.lists := lists;
      phase, sender, rcpts, allowed, open, events := BannerSent, [], [], false, true, [];
    }

    method Say(cmd: Command, code: nat)
      modifies this
      ensures Now() == Reply(old(Now()), cmd, code)
    {
      events := events + [Replied(cmd, code)];
    }

    method EndTransaction(tail: seq<Event>)
      modifies this
      ensures Now() == Reset(old(Now()), tail, old(allowed))
    {
      events := events + tail;
      sender, rcpts, phase := [], [], HeloReceived;
    }

    method HandleLine(cmd: Command)
      requires open && !cmd.Data?
      modifies this
      ensures Now() == Answer(lists, old(Now()), cmd)
    {
      match cmd {
        case Ehlo(_) => phase := HeloReceived; Say(cmd, 250);
        case Helo(_) => phase := HeloReceived; Say(cmd, 250);
        case StartTls => Say(cmd, 454);
        case MailFrom(addr) =>
          sender := DropAngles(addr);
          if lists.blockedSender(sender) {
            Say(cmd, 550);
            phase, open := Finished, false;
          } else {
            phase := MailGiven;
            Say(cmd, 250);
          }
        case RcptTo(addr) =>
          var rcpt := DropAngles(addr);
          if lists.blockedRcpt(rcpt) {
            Say(cmd, 550);
          } else {
            rcpts := rcpts + [rcpt];
            if lists.allowedSender(sender) {
              allowed := true;
            }
            phase := RcptGiven;
            Say(cmd, 250);
          }
        case Rset =>
          sender, rcpts, allowed := [], [], false;
          if phase != BannerSent && phase != Connected {
            phase := HeloReceived;
          }
          Say(cmd, 250);
        case Noop => Say(cmd, 250);
        case Quit =>
          Say(cmd, 221);
          phase, open := Finished, false;
        case Auth(_) => Say(cmd, 502);
        case Xclient(_) => Say(cmd, 502);
        case Unknown(_) => Say(cmd, 502);
      }
    }

    /** DATA: the body, the pre-DATA checks, the allow list, the post-DATA checks, the backend. */
    method HandleData(d: Content)
      requires open
      modifies this
      ensures Now() == TakeData(old(Now()), d)
    {
      hide FirstDecision;
      phase := InData;
      var began := Began(d);
      if d.body.None? {
        open := false;
        events := events + [began];
        return;
      }
      var pre := RunPreData(d.pre);
      if pre.Refuse? {
        EndTransaction([began, Final(pre.code)]);
        return;
      }
      if pre.Later? {
        EndTransaction([began, Final(451)]);
        return;
      }
      if allowed {
        phase := Proxying;
        EndTransaction([began, Forwarded(sender, rcpts, d.body.value, true), Final(BackendCode(d.backend))]);
        return;
      }
      match RunPostData(d.post, d.verdict) {
        case Stopped(Refuse(code, _)) => EndTransaction([began, Final(code)]);
        case Stopped(Later(_)) => EndTransaction([began, Final(451)]);
        case Stopped(Accept) => EndTransaction([began]);
        case Report(verdict) =>
          if verdict == Spam {
            EndTransaction([began, Final(550)]);
          } else {
            phase := Proxying;
            EndTransaction([began, Forwarded(sender, rcpts, d.body.value, false), Final(BackendCode(d.backend))]);
          }
      }
      allowed := false;
    }

    /** The command loop over the bytes of the connection. */
    method Serve(oracle: Oracle, stream: seq<Byte>)
      modifies this
      ensures Now() == Talk(lists, oracle, old(Now()), stream, 0)
    {
      hide Valid, LineLen, Parse, Answer, TakeData, ReadBody;
      var rest, k := stream, 0;
      while open
        invariant Talk(lists, oracle, Now(), rest, k) == Talk(lists, oracle, old(Now()), stream, 0)
        decreases |rest|, open
      {
        var n := LineLen(rest);
        if n == 0 || !Valid(rest[..n]) {
          return;
        }
        var cmd := Parse(rest[..n]);
        rest := rest[n..];
        if !cmd.Data? {
          HandleLine(cmd);
        } else if phase != RcptGiven && phase != MailGiven {
          Say(cmd, 503);
        } else {
          var b := ReceiveBody(rest);
          HandleData(ContentOf(oracle, k, b));
          if b.NotText? {
            return;
          }
          ReadBodyShrinks(rest);
          rest, k := b.rest, k + 1;
        }
      }
    }
  }

  // ---- What an observer of the session may rely on ----

  /** A DATA answered 354 and RSET end the collection of an envelope. */
  predicate Boundary(e: Event) { e.Began? || (e.Replied? && e.cmd.Rset?) }

  /** Recipients accepted since the last boundary, in order. */
  function RcptsSince(ev: seq<Event>): seq<seq<Byte>> {
    if ev == [] then []
    else
      var e := ev[|ev| - 1];
      var before := RcptsSince(ev[..|ev| - 1]);
      if Boundary(e) then []
      else if e.Replied? && e.cmd.RcptTo? && e.code == 250 then before + [DropAngles(e.cmd.addr)]
      else before
  }

  /** The last sender accepted since the last boundary, empty if there is none. */
  function SenderSince(ev: seq<Event>): seq<Byte> {
    if ev == [] then []
    else
      var e := ev[|ev| - 1];
      if Boundary(e) then []
      else if e.Replied? && e.cmd.MailFrom? && e.code == 250 then DropAngles(e.cmd.addr)
      else SenderSince(ev[..|ev| - 1])
  }

  /** Some recipient accepted since the last RSET was given for an allow-listed sender: nothing else clears the
      session's mark, not even the end of that transaction. */
  predicate AllowedSince(lists: Lists, ev: seq<Event>) {
    if ev == [] then false
    else
      var e, before := ev[|ev| - 1], ev[..|ev| - 1];
      if e.Replied? && e.cmd.Rset? then false
      else AllowedSince(lists, before) || (AcceptedRcpt(e) && lists.allowedSender(SenderSince(before)))
  }

  predicate AcceptedRcpt(e: Event) { e.Replied? && e.cmd.RcptTo? && e.code == 250 }

  predicate AllowedAt(lists: Lists, ev: seq<Event>, j: nat) {
    && j < |ev| && AcceptedRcpt(ev[j]) && lists.allowedSender(SenderSince(ev[..j]))
    && forall i :: j < i < |ev| ==> !(ev[i].Replied? && ev[i].cmd.Rset?)
  }

  /** The mark in terms of single events. */
  lemma {:induction false} AllowedSinceIs(lists: Lists, ev: seq<Event>)
    ensures AllowedSince(lists, ev) <==> exists j :: 0 <= j < |ev| && AllowedAt(lists, ev, j)
  {
    hide SenderSince;
    if ev != [] {
      var n := |ev| - 1;
      AllowedSinceIs(lists, ev[..n]);
      assert AllowedAt(lists, ev, n) <==> AcceptedRcpt(ev[n]) && lists.allowedSender(SenderSince(ev[..n]));
      forall j | 0 <= j < n
        ensures AllowedAt(lists, ev, j) <==> AllowedAt(lists, ev[..n], j) && !(ev[n].Replied? && ev[n].cmd.Rset?)
      {
        assert ev[..n][..j] == ev[..j];
      }
    }
  }

  predicate NoneBlocked(lists: Lists, rcpts: seq<seq<Byte>>) {
    forall i :: 0 <= i < |rcpts| ==> !lists.blockedRcpt(rcpts[i])
  }

  /** A message given to the backend, with the content `d` of its DATA, the events before it and the final reply:
      the body read and the envelope collected since the last boundary, nothing of it block-listed, past
      the pre-DATA checks, and not spam unless the allow list spared it the verdict, which it does
      exactly for a session marked allowed; the reply is the backend's. */
  predicate RightlyForwarded(lists: Lists, before: seq<Event>, d: Content, f: Event, code: nat)
    requires f.Forwarded?
  {
    && d.body == Some(f.bytes)
    && f.rcpts == RcptsSince(before) && NoneBlocked(lists, f.rcpts)
    && f.sender == SenderSince(before) && (f.sender == [] || !lists.blockedSender(f.sender))
    && !Stops(d.pre)
    && (f.bypass <==> AllowedSince(lists, before))
    && (!f.bypass ==> !Stops(d.post) && d.verdict != Spam)
    && code == (if d.backend.Some? then d.backend.value else 451)
  }

  predicate Stops(checks: seq<Outcome>) { exists i :: 0 <= i < |checks| && Decisive(checks[i]) }

  /** The first check that decided asked for this reply. */
  predicate StoppedWith(checks: seq<Outcome>, code: nat) {
    exists i :: 0 <= i < |checks| && FirstDecisive(checks, i) && code == if checks[i].Reject? then 550 else 451
  }

  /** A message not forwarded was refused by the first check that decided, or is spam; the post-DATA checks and the
      verdict count only in a session not marked allowed. */
  predicate RightlyRefused(allowed: bool, d: Content, code: nat) {
    || StoppedWith(d.pre, code)
    || (!Stops(d.pre) && !allowed
        && (StoppedWith(d.post, code) || (!Stops(d.post) && d.verdict == Spam && code == 550)))
  }

  /** The decision function against the checks themselves. */
  lemma {:induction false} FirstDecisionIs(checks: seq<Outcome>)
    ensures var d := FirstDecision(checks);
      && (d == Continue <==> !Stops(checks))
      && d != Accept
      && (d.Refuse? ==> StoppedWith(checks, d.code))
      && (d.Later? ==> StoppedWith(checks, 451))
  {
    if checks != [] {
      if Decisive(checks[0]) {
        assert FirstDecisive(checks, 0);
      } else {
        FirstDecisionIs(checks[1..]);
        var d := FirstDecision(checks);
        if d.Refuse? || d.Later? {
          var code := if d.Refuse? then d.code else 451;
          var i :| 0 <= i < |checks[1..]| && FirstDecisive(checks[1..], i)
            && code == if checks[1..][i].Reject? then 550 else 451;
          assert FirstDecisive(checks, i + 1);
        }
      }
    }
  }

  /** How event `i` stands among its neighbours: a 354 is followed by exactly one final reply, with at
      most one forwarded message between, and final replies and messages occur nowhere else. Only the
      last event of a session can be a 354 without a final reply: its body could not be read. */
  predicate InPlace(lists: Lists, ev: seq<Event>, i: nat)
    requires i < |ev|
  {
    match ev[i]
    case Replied(_, _) => true
    case Began(_) =>
      || i + 1 == |ev|
      || (ev[i + 1].Final? && RightlyRefused(AllowedSince(lists, ev[..i]), ev[i].content, ev[i + 1].code))
      || (ev[i + 1].Forwarded? && i + 2 < |ev| && ev[i + 2].Final?
          && RightlyForwarded(lists, ev[..i], ev[i].content, ev[i + 1], ev[i + 2].code))
    case Forwarded(_, _, _, _) => i >= 1 && ev[i - 1].Began?
    case Final(_) => i >= 1 && (ev[i - 1].Began? || (i >= 2 && ev[i - 1].Forwarded? && ev[i - 2].Began?))
  }

  /** While the session is open its fields are what the observer concludes from the events. */
  predicate Observed(lists: Lists, s: Session) {
    && AllInPlace(lists, s.events)
    && (s.open ==>
          && s.rcpts == RcptsSince(s.events) && NoneBlocked(lists, s.rcpts)
          && s.sender == SenderSince(s.events) && (s.sender == [] || !lists.blockedSender(s.sender))
          && s.allowed == AllowedSince(lists, s.events)
          && Complete(s.events))
  }

  predicate AllInPlace(lists: Lists, ev: seq<Event>) {
    forall i :: 0 <= i < |ev| ==> InPlace(lists, ev, i)
  }

  predicate Complete(ev: seq<Event>) { ev != [] ==> !ev[|ev| - 1].Began? }

  lemma StaysInPlace(lists: Lists, ev: seq<Event>, t: seq<Event>, i: nat)
    requires i < |ev| && InPlace(lists, ev, i) && Complete(ev)
    ensures InPlace(lists, ev + t, i)
  {
    hide RightlyForwarded, RightlyRefused, AllowedSince;
    assert forall k :: 0 <= k < |ev| ==> (ev + t)[k] == ev[k];
    assert (ev + t)[..i] == ev[..i];
  }

  /** What a step may append to a session whose last transaction is complete. */
  predicate Block(lists: Lists, ev: seq<Event>, t: seq<Event>) {
    || (|t| == 1 && (t[0].Replied? || t[0].Began?))
    || (|t| == 2 && t[0].Began? && t[1].Final? && RightlyRefused(AllowedSince(lists, ev), t[0].content, t[1].code))
    || (|t| == 3 && t[0].Began? && t[1].Forwarded? && t[2].Final?
        && RightlyForwarded(lists, ev, t[0].content, t[1], t[2].code))
  }

  lemma TailInPlace(lists: Lists, ev: seq<Event>, t: seq<Event>, i: nat)
    requires Block(lists, ev, t) && |ev| <= i < |ev| + |t|
    ensures InPlace(lists, ev + t, i)
  {
    hide RightlyForwarded, RightlyRefused, AllowedSince;
    var all, n := ev + t, |ev|;
    assert all[..n] == ev;
    assert all[n] == t[0];
    assert |t| >= 2 ==> all[n + 1] == t[1];
    assert |t| >= 3 ==> all[n + 2] == t[2];
  }

  lemma BlockInPlace(lists: Lists, ev: seq<Event>, t: seq<Event>)
    requires AllInPlace(lists, ev) && Complete(ev) && Block(lists, ev, t)
    ensures AllInPlace(lists, ev + t)
  {
    hide InPlace, Block, Complete;
    forall i | 0 <= i < |ev + t| ensures InPlace(lists, ev + t, i) {
      if i < |ev| {
        StaysInPlace(lists, ev, t, i);
      } else {
        TailInPlace(lists, ev, t, i);
      }
    }
  }

  lemma SinceSnoc(lists: Lists, ev: seq<Event>, e: Event)
    ensures RcptsSince(ev + [e]) ==
      if Boundary(e) then []
      else if AcceptedRcpt(e) then RcptsSince(ev) + [DropAngles(e.cmd.addr)]
      else RcptsSince(ev)
    ensures SenderSince(ev + [e]) ==
      if Boundary(e) then []
      else if e.Replied? && e.cmd.MailFrom? && e.code == 250 then DropAngles(e.cmd.addr)
      else SenderSince(ev)
    ensures AllowedSince(lists, ev + [e]) <==>
      && !(e.Replied? && e.cmd.Rset?)
      && (AllowedSince(lists, ev) || (AcceptedRcpt(e) && lists.allowedSender(SenderSince(ev))))
  {
    assert (ev + [e])[..|ev|] == ev;
  }

  lemma AnswerObserved(lists: Lists, s: Session, cmd: Command)
    requires Observed(lists, s) && s.open && !cmd.Data?
    ensures Observed(lists, Answer(lists, s, cmd))
  {
    hide Observed, DropAngles, NoneBlocked;
    var s' := Answer(lists, s, cmd);
    var e := s'.events[|s.events|];
    assert e.Replied? && e.cmd == cmd && s'.events == s.events + [e];
    ReplyObserved(lists, s, s', e);
  }

  /** A reply that changes the fields as the observer expects. */
  lemma ReplyObserved(lists: Lists, s: Session, s': Session, e: Event)
    requires Observed(lists, s) && s.open && e.Replied? && s'.events == s.events + [e]
    requires s'.open ==>
      if e.cmd.Rset? then s'.rcpts == [] && s'.sender == [] && !s'.allowed
      else if AcceptedRcpt(e) then
        && s'.rcpts == s.rcpts + [DropAngles(e.cmd.addr)] && !lists.blockedRcpt(DropAngles(e.cmd.addr))
        && s'.sender == s.sender && s'.allowed == (s.allowed || lists.allowedSender(s.sender))
      else if e.cmd.MailFrom? && e.code == 250 then
        && s'.sender == DropAngles(e.cmd.addr) && !lists.blockedSender(s'.sender)
        && s'.rcpts == s.rcpts && s'.allowed == s.allowed
      else s'.rcpts == s.rcpts && s'.sender == s.sender && s'.allowed == s.allowed
    ensures Observed(lists, s')
  {
    hide AllInPlace, RcptsSince, SenderSince, AllowedSince, DropAngles;
    BlockInPlace(lists, s.events, [e]);
    SinceSnoc(lists, s.events, e);
  }

  /** A DATA out of order changes nothing. */
  lemma RefusalObserved(lists: Lists, s: Session)
    requires Observed(lists, s) && s.open
    ensures Observed(lists, Reply(s, Data, 503))
  {
    hide AllInPlace, RcptsSince, SenderSince, AllowedSince;
    BlockInPlace(lists, s.events, [Replied(Data, 503)]);
    SinceSnoc(lists, s.events, Replied(Data, 503));
  }

  lemma {:induction false} CloseData(lists: Lists, ev: seq<Event>, t: seq<Event>)
    requires |t| >= 1 && t[0].Began? && forall i :: 1 <= i < |t| ==> t[i].Forwarded? || t[i].Final?
    ensures RcptsSince(ev + t) == [] && SenderSince(ev + t) == []
    ensures AllowedSince(lists, ev + t) <==> AllowedSince(lists, ev)
    decreases |t|
  {
    hide RcptsSince, SenderSince, AllowedSince;
    var n := |t| - 1;
    assert ev + t == (ev + t[..n]) + [t[n]];
    SinceSnoc(lists, ev + t[..n], t[n]);
    if n > 0 {
      CloseData(lists, ev, t[..n]);
    } else {
      assert ev + t[..n] == ev;
    }
  }

  /** The events a judged DATA appends, each with its reason. */
  lemma JudgedBlock(lists: Lists, s: Session, d: Content)
    requires Observed(lists, s) && s.open && d.body.Some?
    ensures var t := JudgedEvents(s, d);
      && 2 <= |t| <= 3 && Block(lists, s.events, t)
      && t[0].Began? && t[|t| - 1].Final? && (|t| == 3 ==> t[1].Forwarded?)
  {
    hide AllInPlace, RcptsSince, SenderSince, AllowedSince, FirstDecision, NoneBlocked, Stops, StoppedWith;
    FirstDecisionIs(d.pre);
    FirstDecisionIs(d.post);
  }

  lemma DataObserved(lists: Lists, s: Session, d: Content)
    requires Observed(lists, s) && s.open
    ensures Observed(lists, TakeData(s, d))
  {
    hide JudgedEvents, AllInPlace, RcptsSince, SenderSince, AllowedSince, Block, FirstDecision;
    if d.body.None? {
      BegunBlock(lists, s.events, d);
      BlockInPlace(lists, s.events, [Began(d)]);
    } else {
      var t := JudgedEvents(s, d);
      JudgedBlock(lists, s, d);
      BlockInPlace(lists, s.events, t);
      CloseData(lists, s.events, t);
    }
  }

  lemma BegunBlock(lists: Lists, ev: seq<Event>, d: Content)
    ensures Block(lists, ev, [Began(d)])
  {
  }

  lemma {:induction false} TalkObserved(lists: Lists, oracle: Oracle, s: Session, stream: seq<Byte>, k: nat)
    requires Observed(lists, s)
    ensures Observed(lists, Talk(lists, oracle, s, stream, k))
    decreases |stream|
  {
    hide Observed, Answer, TakeData, Valid, LineLen, Parse, ReadBody;
    var n := LineLen(stream);
    if s.open && n > 0 && Valid(stream[..n]) {
      var cmd, rest := Parse(stream[..n]), stream[n..];
      if !cmd.Data? {
        AnswerObserved(lists, s, cmd);
        TalkObserved(lists, oracle, Answer(lists, s, cmd), rest, k);
      } else if !TakesData(s) {
        RefusalObserved(lists, s);
        TalkObserved(lists, oracle, Reply(s, cmd, 503), rest, k);
      } else {
        var b := ReadBody(rest);
        var d := ContentOf(oracle, k, b);
        DataObserved(lists, s, d);
        if b.Body? {
          ReadBodyShrinks(rest);
          TalkObserved(lists, oracle, TakeData(s, d), b.rest, k + 1);
        }
      }
    }
  }

  /** Session safety for every byte stream: every forwarded message is rightly forwarded, every message not forwarded
      rightly refused, and every 354 gets exactly one final reply unless its body could not be read. */
  lemma SessionSafety(lists: Lists, oracle: Oracle, stream: seq<Byte>)
    ensures var s := Talk(lists, oracle, START, stream, 0);
      && AllInPlace(lists, s.events)
      && (s.open ==> Complete(s.events) && (s.allowed <==> AllowedSince(lists, s.events)))
  {
    hide InPlace, Talk, AllowedSince;
    StartObserved(lists);
    TalkObserved(lists, oracle, START, stream, 0);
  }

  lemma StartObserved(lists: Lists)
    ensures Observed(lists, START)
  {
  }
}
