/** SMTP command lines (serverwall-core/src/proto/smtp.rs). */
module SmtpCommands {
  import opened Bytes

  datatype Command =
    | Ehlo(domain: seq<Byte>)
    | Helo(domain: seq<Byte>)
    | MailFrom(addr: seq<Byte>)
    | RcptTo(addr: seq<Byte>)
    | Data
    | Quit
    | Rset
    | Noop
    | StartTls
    | Auth(rest: seq<Byte>)
    | Xclient(rest: seq<Byte>)
    | Unknown(line: seq<Byte>)

  const EHLO_: seq<Byte> := [69, 72, 76, 79, 32] // "EHLO "
  const HELO_: seq<Byte> := [72, 69, 76, 79, 32] // "HELO "
  const MAIL_FROM: seq<Byte> := [77, 65, 73, 76, 32, 70, 82, 79, 77, 58] // "MAIL FROM:"
  const RCPT_TO: seq<Byte> := [82, 67, 80, 84, 32, 84, 79, 58] // "RCPT TO:"
  const DATA: seq<Byte> := [68, 65, 84, 65] // "DATA"
  const QUIT: seq<Byte> := [81, 85, 73, 84] // "QUIT"
  const RSET: seq<Byte> := [82, 83, 69, 84] // "RSET"
  const NOOP: seq<Byte> := [78, 79, 79, 80] // "NOOP"
  const STARTTLS: seq<Byte> := [83, 84, 65, 82, 84, 84, 76, 83] // "STARTTLS"
  const AUTH_: seq<Byte> := [65, 85, 84, 72, 32] // "AUTH "
  const XCLIENT_: seq<Byte> := [88, 67, 76, 73, 69, 78, 84, 32] // "XCLIENT "

  function Upper(s: seq<Byte>): seq<Byte> {
    seq(|s|, i requires 0 <= i < |s| => UpperByte(s[i]))
  }

  function Parse(line: seq<Byte>): Command {
    var trimmed := Trim(line);
    var upper := Upper(trimmed);
    if StartsWith(upper, EHLO_) then Ehlo(Trim(upper[|EHLO_|..]))
    else if StartsWith(upper, HELO_) then Helo(Trim(upper[|HELO_|..]))
    else if StartsWith(upper, MAIL_FROM) then MailFrom(Trim(trimmed[|MAIL_FROM|..]))
    else if StartsWith(upper, RCPT_TO) then RcptTo(Trim(trimmed[|RCPT_TO|..]))
    else if upper == DATA then Data
    else if upper == QUIT then Quit
    else if upper == RSET then Rset
    else if upper == NOOP then Noop
    else if upper == STARTTLS then StartTls
    else if StartsWith(upper, AUTH_) then Auth(Trim(upper[|AUTH_|..]))
    else if StartsWith(upper, XCLIENT_) then Xclient(Trim(upper[|XCLIENT_|..]))
    else Unknown(trimmed)
  }

  /** The bare address in `<user@domain>` or `user@domain`. */
  function ExtractAddress(raw: seq<Byte>): seq<Byte> {
    var s := Trim(raw);
    if |s| >= 2 && s[0] == 60 && s[|s| - 1] == 62 then s[1..|s| - 1] else s
  }

  /** What follows the last `@`, or all of the address if it has none. */
  function DomainOf(addr: seq<Byte>): seq<Byte> {
    if addr == [] || addr[|addr| - 1] == 64 then [] else DomainOf(addr[..|addr| - 1]) + [addr[|addr| - 1]]
  }
}

/** The relay's SMTP receiver session (serverwall-relay/src/receiver.rs): one connection from
    the first command line to its end, as the events the peer can observe. */
module Receiver {
  import opened Bytes
  import opened DataTransfer
  import opened SmtpCommands

  datatype State =
    | Connected
    | Greeted
    | HaveSender(sender: seq<Byte>)
    | HaveRcpts(sender: seq<Byte>, rcpts: seq<seq<Byte>>)

  datatype Message = Message(sender: seq<Byte>, rcpts: seq<seq<Byte>>, bytes: seq<Byte>)

  datatype Spooled = None | Spooled(message: Message)

  /** The configured policy and the answers of code outside the session. `rate` and `spoolWorks`
      are indexed by the number of bodies received so far on this connection. */
  datatype Env = Env(
    aligned: seq<Byte> -> bool,
    maxRecipients: nat,
    rate: nat -> bool,
    content: seq<Byte> -> bool,
    sign: (seq<Byte>, seq<Byte>) -> seq<Byte>,
    spoolWorks: nat -> bool)

  /** A command with its one reply; a DATA answered 354 with the number of bodies before it, its body, its final reply
      and what was spooled; a DATA answered 354 whose body never ended. */
  datatype Event =
    | Answered(cmd: Command, code: nat)
    | Transfer(k: nat, body: seq<Byte>, code: nat, spooled: Spooled)
    | Lost

  /** New state and reply code for every command but an acceptable DATA. */
  function Answer(env: Env, st: State, cmd: Command): (State, nat) {
    match cmd
    case Ehlo(_) => (Greeted, 250)
    case Helo(_) => (Greeted, 250)
    case MailFrom(addr) =>
      if st.Connected? then (st, 503)
      else
        var sender := ExtractAddress(addr);
        if env.aligned(DomainOf(sender)) then (HaveSender(sender), 250) else (st, 550)
    case RcptTo(addr) =>
      if !st.HaveSender? && !st.HaveRcpts? then (st, 503)
      else
        var rcpts := (if st.HaveRcpts? then st.rcpts else []) + [ExtractAddress(addr)];
        if |rcpts| > env.maxRecipients then (st, 550) else (HaveRcpts(st.sender, rcpts), 250)
    case Data => (st, 503)
    case Rset => (Greeted, 250)
    case Noop => (st, 250)
    case Quit => (st, 221)
    case Auth(_) => (st, 502)
    case StartTls => (st, 502)
    case Xclient(_) => (st, 500)
    case Unknown(_) => (st, 500)
  }

  predicate TakesData(st: State) { st.HaveRcpts? && st.rcpts != [] }

  /** Policy check, signature and spool write after the k-th body. */
  function Finish(env: Env, st: State, body: seq<Byte>, k: nat): Event
    requires st.HaveRcpts?
  {
    var domain := DomainOf(st.sender);
    if !(env.aligned(domain) && |st.rcpts| <= env.maxRecipients && env.rate(k) && env.content(body))
    then Transfer(k, body, 550, None)
    else if !env.spoolWorks(k) then Transfer(k, body, 451, None)
    else Transfer(k, body, 250, Spooled(Message(st.sender, st.rcpts, env.sign(domain, body))))
  }

  /** One turn of the command loop: the session ends without a further event, ends with one,
      or goes on. */
  datatype Turn = Stop | Last(event: Event) | Next(event: Event, st: State, rest: seq<Byte>, k: nat)

  function Step(env: Env, st: State, stream: seq<Byte>, k: nat): (t: Turn)
    ensures t.Next? ==> |t.rest| < |stream|
  {
    var n := LineLen(stream);
    if n == 0 || !Valid(stream[..n]) then Stop
    else
      var cmd := Parse(stream[..n]);
      if cmd.Data? && TakesData(st) then
        var r := ReadData(stream[n..]);
        ReadDataConsumes(stream[n..]);
        if r.Received? then Next(Finish(env, st, r.body, k), Greeted, r.rest, k + 1) else Last(Lost)
      else if cmd.Quit? then Last(Answered(cmd, 221))
      else
        var a := Answer(env, st, cmd);
        Next(Answered(cmd, a.1), a.0, stream[n..], k)
  }

  /** The events of a session in state `st` with `stream` still unread. */
  function Session(env: Env, st: State, stream: seq<Byte>, k: nat): seq<Event>
    decreases |stream|
  {
    match Step(env, st, stream, k)
    case Stop => []
    case Last(e) => [e]
    case Next(e, st', rest, k') => [e] + Session(env, st', rest, k')
  }

  /** The command loop. */
  method Handle(env: Env, stream: seq<Byte>) returns (events: seq<Event>)
    ensures events == Session(env, Connected, stream, 0)
  {
    var st := Connected;
    var rest := stream;
    var k := 0;
    events := [];
    while true
      invariant events + Session(env, st, rest, k) == Session(env, Connected, stream, 0)
      decreases |rest|
    {
      ghost var turn := Step(env, st, rest, k);
      var n := LineLen(rest);
      var line := rest[..n];
      if n == 0 || !Valid(line) {
        assert turn == Stop;
        break;
      }
      var cmd := Parse(line);
      var event;
      if cmd.Data? && TakesData(st) {
        var r := ReceiveData(rest[n..]);
        if !r.Received? {
          assert turn == Last(Lost);
          return events + [Lost];
        }
        event := Finish(env, st, r.body, k);
        assert turn == Next(event, Greeted, r.rest, k + 1);
        st, rest, k := Greeted, r.rest, k + 1;
      } else if cmd.Quit? {
        assert turn == Last(Answered(cmd, 221));
        return events + [Answered(cmd, 221)];
      } else {
        var (st', code) := Answer(env, st, cmd);
        event := Answered(cmd, code);
        assert turn == Next(event, st', rest[n..], k);
        st, rest := st', rest[n..];
      }
      hide Step;
      Assoc(events, [event], Session(env, st, rest, k));
      events := events + [event];
    }
  }

  // ---- What an observer of the replies concludes ----

  predicate AcceptedMail(e: Event) { e.Answered? && e.cmd.MailFrom? && e.code == 250 }

  predicate AcceptedRcpt(e: Event) { e.Answered? && e.cmd.RcptTo? && e.code == 250 }

  /** EHLO, HELO, RSET and a DATA whose body was received end a transaction. */
  predicate Boundary(e: Event) {
    e.Transfer? || (e.Answered? && (e.cmd.Ehlo? || e.cmd.Helo? || e.cmd.Rset?))
  }

  /** Event `j` is the MAIL of the transaction open just before event `i`. */
  predicate OpenedBy(ev: seq<Event>, i: nat, j: nat)
    requires i <= |ev|
  {
    j < i && AcceptedMail(ev[j]) && forall k :: j < k < i ==> !Boundary(ev[k]) && !AcceptedMail(ev[k])
  }

  /** Addresses of the accepted RCPTs, in order. */
  function RcptsIn(ev: seq<Event>): seq<seq<Byte>> {
    if ev == [] then []
    else
      var e := ev[|ev| - 1];
      RcptsIn(ev[..|ev| - 1]) + if AcceptedRcpt(e) then [ExtractAddress(e.cmd.addr)] else []
  }

  /** Event `i`, if it is a DATA, was treated as its transaction deserves: a body was asked for
      exactly when the open transaction had recipients, and what was spooled, exactly with reply
      250, carries that transaction's sender and recipients and the signed body, within policy. */
  ghost predicate Deserved(env: Env, ev: seq<Event>, i: nat)
    requires i < |ev|
  {
    && (ev[i].Answered? && ev[i].cmd.Data? ==>
          ev[i].code == 503 && forall j :: OpenedBy(ev, i, j) ==> RcptsIn(ev[j + 1..i]) == [])
    && (ev[i].Transfer? || ev[i].Lost? ==>
          exists j :: OpenedBy(ev, i, j) && TransactionOf(env, ev, i, j))
  }

  predicate TransactionOf(env: Env, ev: seq<Event>, i: nat, j: nat)
    requires i < |ev| && OpenedBy(ev, i, j)
  {
    var sender, rcpts := ExtractAddress(ev[j].cmd.addr), RcptsIn(ev[j + 1..i]);
    && 1 <= |rcpts| <= env.maxRecipients
    && env.aligned(DomainOf(sender))
    && (ev[i].Transfer? ==> ev[i].k == Bodies(ev[..i]) && RightlySpooled(env, ev[i], sender, rcpts))
  }

  /** Bodies received so far. */
  function Bodies(ev: seq<Event>): nat {
    if ev == [] then 0 else Bodies(ev[..|ev| - 1]) + if ev[|ev| - 1].Transfer? then 1 else 0
  }

  /** A body is refused exactly when rate or content policy refuse it, and deferred exactly when only the spool fails;
      otherwise its message, signed for the sender's domain, is spooled. */
  predicate RightlySpooled(env: Env, e: Event, sender: seq<Byte>, rcpts: seq<seq<Byte>>)
    requires e.Transfer?
  {
    && (e.code == 550 <==> !(env.rate(e.k) && env.content(e.body)))
    && (e.code == 451 <==> env.rate(e.k) && env.content(e.body) && !env.spoolWorks(e.k))
    && (e.code == 250 <==> env.rate(e.k) && env.content(e.body) && env.spoolWorks(e.k))
    && e.spooled ==
         (if e.code == 250 then Spooled(Message(sender, rcpts, env.sign(DomainOf(sender), e.body))) else None)
  }

  /** The session state says what the observer would conclude from the history `h`. */
  ghost predicate Matches(env: Env, h: seq<Event>, st: State) {
    match st
    case Connected => forall j :: !OpenedBy(h, |h|, j)
    case Greeted => forall j :: !OpenedBy(h, |h|, j)
    case HaveSender(s) => exists j :: OpenedBy(h, |h|, j) && Transaction(env, h, j, s, [])
    case HaveRcpts(s, rs) => exists j :: OpenedBy(h, |h|, j) && Transaction(env, h, j, s, rs)
  }

  predicate Transaction(env: Env, h: seq<Event>, j: nat, s: seq<Byte>, rs: seq<seq<Byte>>)
    requires OpenedBy(h, |h|, j)
  {
    && ExtractAddress(h[j].cmd.addr) == s && RcptsIn(h[j + 1..]) == rs
    && env.aligned(DomainOf(s)) && |rs| <= env.maxRecipients
  }

  /** Only one MAIL opens the current transaction. */
  lemma OpenedByUnique(ev: seq<Event>, i: nat, j: nat, j': nat)
    requires i <= |ev| && OpenedBy(ev, i, j) && OpenedBy(ev, i, j')
    ensures j == j'
  {
  }

  lemma OpenedByPrefix(h: seq<Event>, t: seq<Event>, j: nat)
    ensures OpenedBy(h + t, |h|, j) <==> OpenedBy(h, |h|, j)
    ensures j < |h| ==> (h + t)[j + 1..|h|] == h[j + 1..]
  {
    assert forall k :: 0 <= k < |h| ==> (h + t)[k] == h[k];
  }

  lemma OpenedBySnoc(h: seq<Event>, e: Event, j: nat)
    ensures !Boundary(e) && !AcceptedMail(e) ==> (OpenedBy(h + [e], |h + [e]|, j) <==> OpenedBy(h, |h|, j))
    ensures Boundary(e) ==> !OpenedBy(h + [e], |h + [e]|, j)
    ensures AcceptedMail(e) ==> (OpenedBy(h + [e], |h + [e]|, j) <==> j == |h|)
  {
    assert forall k :: 0 <= k < |h| ==> (h + [e])[k] == h[k];
    assert (h + [e])[|h|] == e;
  }

  lemma RcptsInSnoc(h: seq<Event>, e: Event, j: nat)
    requires j < |h|
    ensures RcptsIn((h + [e])[j + 1..])
         == RcptsIn(h[j + 1..]) + if AcceptedRcpt(e) then [ExtractAddress(e.cmd.addr)] else []
  {
    var t := (h + [e])[j + 1..];
    assert t[..|t| - 1] == h[j + 1..] && t[|t| - 1] == e;
  }

  lemma AnswerMatches(env: Env, h: seq<Event>, st: State, cmd: Command)
    requires Matches(env, h, st)
    ensures var (st', code) := Answer(env, st, cmd); Matches(env, h + [Answered(cmd, code)], st')
  {
    hide RcptsIn, ExtractAddress, DomainOf;
    var (st', code) := Answer(env, st, cmd);
    var e := Answered(cmd, code);
    if Boundary(e) {
      BoundaryMatches(env, h, e);
    } else if AcceptedMail(e) {
      MailMatches(env, h, e, st'.sender);
    } else if st.HaveSender? || st.HaveRcpts? {
      var rs := if st.HaveRcpts? then st.rcpts else [];
      var j: nat :| OpenedBy(h, |h|, j) && Transaction(env, h, j, st.sender, rs);
      OpenedBySnoc(h, e, j);
      RcptsInSnoc(h, e, j);
      assert Transaction(env, h + [e], j, st'.sender, if st'.HaveRcpts? then st'.rcpts else []);
    } else {
      forall j: nat ensures !OpenedBy(h + [e], |h + [e]|, j) { OpenedBySnoc(h, e, j); }
    }
  }

  lemma MailMatches(env: Env, h: seq<Event>, e: Event, s: seq<Byte>)
    requires AcceptedMail(e) && ExtractAddress(e.cmd.addr) == s && env.aligned(DomainOf(s))
    ensures Matches(env, h + [e], HaveSender(s))
  {
    OpenedBySnoc(h, e, |h|);
    assert (h + [e])[|h| + 1..] == [];
    assert Transaction(env, h + [e], |h|, s, []);
  }

  lemma BoundaryMatches(env: Env, h: seq<Event>, e: Event)
    requires Boundary(e)
    ensures Matches(env, h + [e], Greeted)
  {
    forall j: nat ensures !OpenedBy(h + [e], |h + [e]|, j) { OpenedBySnoc(h, e, j); }
  }

  lemma FinishSpooled(env: Env, st: State, body: seq<Byte>, k: nat)
    requires TakesData(st) && env.aligned(DomainOf(st.sender)) && |st.rcpts| <= env.maxRecipients
    ensures var e := Finish(env, st, body, k);
      e.Transfer? && e.k == k && RightlySpooled(env, e, st.sender, st.rcpts)
  {
  }

  /** A DATA in state `st` is answered as the history before it deserves. */
  lemma DataDeserved(env: Env, h: seq<Event>, st: State, body: seq<Byte>, e: Event, t: seq<Event>)
    requires Matches(env, h, st)
    requires if TakesData(st) then e.Lost? || e == Finish(env, st, body, Bodies(h)) else e == Answered(Data, 503)
    ensures Deserved(env, h + [e] + t, |h|)
  {
    hide RcptsIn, ExtractAddress, DomainOf, Bodies, Finish, RightlySpooled;
    var ev := h + [e] + t;
    assert ev == h + ([e] + t) && ev[|h|] == e && ev[..|h|] == h;
    forall j: nat { OpenedByPrefix(h, [e] + t, j); }
    if st.HaveSender? || st.HaveRcpts? {
      var rs := if st.HaveRcpts? then st.rcpts else [];
      var j: nat :| OpenedBy(h, |h|, j) && Transaction(env, h, j, st.sender, rs);
      assert OpenedBy(ev, |h|, j) && ev[j] == h[j];
      forall j': nat | OpenedBy(ev, |h|, j') { OpenedByUnique(ev, |h|, j, j'); }
      if TakesData(st) {
        FinishSpooled(env, st, body, Bodies(h));
        assert TransactionOf(env, ev, |h|, j);
      }
    }
  }

  lemma AnswerDeserved(env: Env, h: seq<Event>, st: State, cmd: Command, t: seq<Event>)
    requires Matches(env, h, st) && (cmd.Data? ==> !TakesData(st))
    ensures Deserved(env, h + [Answered(cmd, Answer(env, st, cmd).1)] + t, |h|)
  {
    hide OpenedBy, TransactionOf;
    var e := Answered(cmd, Answer(env, st, cmd).1);
    if cmd.Data? {
      DataDeserved(env, h, st, [], e, t);
    } else {
      assert (h + [e] + t)[|h|] == e;
    }
  }

  /** A turn that does not stop answers a command or, with `data`, takes a body. */
  lemma TurnIs(env: Env, st: State, stream: seq<Byte>, k: nat) returns (data: bool, cmd: Command, body: seq<Byte>)
    requires !Step(env, st, stream, k).Stop?
    ensures var turn := Step(env, st, stream, k);
      if data then
        && TakesData(st) && (turn.Last? ==> turn.event == Lost)
        && (turn.Next? ==> turn.event == Finish(env, st, body, k) && turn.st == Greeted && turn.k == k + 1)
      else
        && (cmd.Data? ==> !TakesData(st)) && turn.event == Answered(cmd, Answer(env, st, cmd).1)
        && (turn.Next? ==> turn.st == Answer(env, st, cmd).0 && turn.k == k)
  {
    hide Parse, LineLen, Valid, Finish, ReadData;
    var n := LineLen(stream);
    cmd := Parse(stream[..n]);
    data := cmd.Data? && TakesData(st);
    body := [];
    if data {
      var r := ReadData(stream[n..]);
      if r.Received? {
        body := r.body;
      }
    }
  }

  lemma BodiesSnoc(h: seq<Event>, e: Event)
    ensures Bodies(h + [e]) == Bodies(h) + if e.Transfer? then 1 else 0
  {
    assert (h + [e])[..|h|] == h;
  }

  lemma StepDeserved(env: Env, h: seq<Event>, st: State, stream: seq<Byte>, k: nat, t: seq<Event>)
    requires Matches(env, h, st) && k == Bodies(h)
    ensures var turn := Step(env, st, stream, k);
      && (!turn.Stop? ==> Deserved(env, h + [turn.event] + t, |h|))
      && (turn.Next? ==> Matches(env, h + [turn.event], turn.st) && turn.k == Bodies(h + [turn.event]))
  {
    hide Step, Deserved, Matches, Answer, Bodies;
    var turn := Step(env, st, stream, k);
    if !turn.Stop? {
      var data, cmd, body := TurnIs(env, st, stream, k);
      BodiesSnoc(h, turn.event);
      if data {
        DataDeserved(env, h, st, body, turn.event, t);
        if turn.Next? {
          BoundaryMatches(env, h, turn.event);
        }
      } else {
        AnswerDeserved(env, h, st, cmd, t);
        AnswerMatches(env, h, st, cmd);
      }
    }
  }

  /** Every DATA of every session is treated as its transaction deserves. */
  lemma {:induction false} SessionDeserved(env: Env, h: seq<Event>, st: State, stream: seq<Byte>, k: nat)
    requires Matches(env, h, st) && k == Bodies(h)
    ensures var ev := h + Session(env, st, stream, k);
      forall i :: |h| <= i < |ev| ==> Deserved(env, ev, i)
    decreases |stream|
  {
    hide Step, Matches, Deserved;
    var turn := Step(env, st, stream, k);
    if turn.Next? {
      var t := Session(env, turn.st, turn.rest, turn.k);
      StepDeserved(env, h, st, stream, k, t);
      Assoc(h, [turn.event], t);
      SessionDeserved(env, h + [turn.event], turn.st, turn.rest, turn.k);
      var ev := h + Session(env, st, stream, k);
      assert ev == h + [turn.event] + Session(env, turn.st, turn.rest, turn.k);
      assert forall i :: |h + [turn.event]| <= i < |ev| ==> Deserved(env, ev, i);
    } else {
      StepDeserved(env, h, st, stream, k, []);
      assert turn.Last? ==> h + [turn.event] + [] == h + [turn.event];
    }
  }

  /** The receiver refines the observer's specification, from the first command of a connection. */
  lemma ReceiverRefinesTrace(env: Env, stream: seq<Byte>)
    ensures var ev := Session(env, Connected, stream, 0);
      forall i :: 0 <= i < |ev| ==> Deserved(env, ev, i)
  {
    SessionDeserved(env, [], Connected, stream, 0);
    assert [] + Session(env, Connected, stream, 0) == Session(env, Connected, stream, 0);
  }
}
