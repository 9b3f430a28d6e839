/** The client of one relay talking to the receiver of another: each side's output is fed to the
    other side's model. */
module RelayToRelay {
  import opened Bytes
  import opened DataTransfer
  import opened SmtpCommands
  import opened Receiver
  import opened Client

  /** The bytes of what the client sends. */
  function Flat(sent: seq<Sent>): seq<Byte> {
    if sent == [] then []
    else (if sent[0].Line? then sent[0].text + CRLF else sent[0].wire) + Flat(sent[1..])
  }

  /** Text that fits on one line. */
  predicate OneLine(t: seq<Byte>) { LF !in t && Valid(t) }

  function Bracketed(a: seq<Byte>): seq<Byte> { [60] + a + [62] }

  lemma BracketedAddress(a: seq<Byte>)
    ensures Trim(Bracketed(a)) == Bracketed(a) && ExtractAddress(Bracketed(a)) == a
  {
    hide Trim;
    TrimVisible(Bracketed(a));
  }

  /** A command line `p<a>` with a visible ASCII keyword `p` comes back from the parser's trim. */
  lemma BracketedLine(p: seq<Byte>, a: seq<Byte>)
    requires p != [] && forall i :: 0 <= i < |p| ==> 32 <= p[i] <= 126
    requires Visible(p[0]) && OneLine(a)
    ensures OneLine(p + [60] + a + [62])
    ensures Trim(p + [60] + a + [62] + CRLF) == p + [60] + a + [62]
  {
    hide Trim, Valid;
    var l := p + [60] + a + [62];
    TrimVisible(l);
    AsciiValid(p);
    ValidAround(p, 60, a);
    assert Valid([]) by { EmptyValid(); }
    ValidAround(p + [60] + a, 62, []);
    assert l + [] == l;
  }

  lemma MailParsed(a: seq<Byte>)
    requires OneLine(a)
    ensures OneLine(MailCommand(a)) && Parse(MailCommand(a) + CRLF) == MailFrom(Bracketed(a))
  {
    hide Trim, Valid;
    BracketedLine(MAIL_FROM, a);
    BracketedAddress(a);
    var l := MailCommand(a);
    assert Upper(l)[..10] == MAIL_FROM && l[10..] == Bracketed(a);
    assert Upper(l)[..5][0] == 77;
  }

  lemma RcptParsed(a: seq<Byte>)
    requires OneLine(a)
    ensures OneLine(RcptCommand(a)) && Parse(RcptCommand(a) + CRLF) == RcptTo(Bracketed(a))
  {
    hide Trim, Valid;
    BracketedLine(RCPT_TO, a);
    BracketedAddress(a);
    var l := RcptCommand(a);
    assert Upper(l)[..8] == RCPT_TO && l[8..] == Bracketed(a);
    assert Upper(l)[..5][0] == 82 && Upper(l)[..10][0] == 82;
  }

  lemma WordsParsed()
    ensures OneLine(DATA) && Parse(DATA + CRLF) == Data
    ensures OneLine(QUIT) && Parse(QUIT + CRLF) == Quit
  {
    hide Trim, Valid;
    TrimVisible(DATA);
    TrimVisible(QUIT);
    AsciiValid(DATA);
    AsciiValid(QUIT);
    assert Upper(DATA) == DATA && Upper(QUIT) == QUIT;
  }

  lemma LineArrives(t: seq<Byte>, rest: seq<Byte>)
    requires OneLine(t)
    ensures var s := t + CRLF + rest; var n := LineLen(s);
      n == |t| + 2 && s[..n] == t + CRLF && s[n..] == rest && Valid(s[..n])
  {
    hide Valid, LineLen;
    LineOnWire(t, rest);
    ValidCrlf(t);
    TakeDrop(t + CRLF, rest);
  }

  /** A command line on the wire makes the session answer that command. */
  lemma CommandStep(env: Env, st: State, t: seq<Byte>, rest: seq<Byte>, k: nat)
    requires OneLine(t)
    requires var cmd := Parse(t + CRLF); !cmd.Quit? && !(cmd.Data? && TakesData(st))
    ensures var a := Answer(env, st, Parse(t + CRLF));
      Session(env, st, t + CRLF + rest, k) == [Answered(Parse(t + CRLF), a.1)] + Session(env, a.0, rest, k)
  {
    hide Valid, LineLen, Parse, ReadData;
    LineArrives(t, rest);
  }

  /** DATA and an encoded body on the wire make the session finish exactly that message. */
  lemma DataStep(env: Env, st: State, m: seq<Byte>, rest: seq<Byte>, k: nat)
    requires TakesData(st) && Valid(m)
    ensures Session(env, st, DATA + CRLF + (Encode(m) + rest), k)
         == [Finish(env, st, Normalize(m), k)] + Session(env, Greeted, rest, k + 1)
  {
    hide Valid, LineLen, Parse, ReadData, Finish;
    WordsParsed();
    LineArrives(DATA, Encode(m) + rest);
    RoundTrip(m, rest);
  }

  lemma QuitStep(env: Env, st: State, k: nat)
    ensures Session(env, st, QUIT + CRLF, k) == [Answered(Quit, 221)]
  {
    hide Valid, LineLen, Parse, ReadData;
    WordsParsed();
    LineArrives(QUIT, []);
    assert QUIT + CRLF + [] == QUIT + CRLF;
  }

  function RcptLines(rcpts: seq<seq<Byte>>): seq<Byte> {
    if rcpts == [] then [] else RcptCommand(rcpts[0]) + CRLF + RcptLines(rcpts[1..])
  }

  function RcptAnswers(rcpts: seq<seq<Byte>>): seq<Event> {
    if rcpts == [] then [] else [Answered(RcptTo(Bracketed(rcpts[0])), 250)] + RcptAnswers(rcpts[1..])
  }

  function After(sender: seq<Byte>, rcpts: seq<seq<Byte>>): State {
    if rcpts == [] then HaveSender(sender) else HaveRcpts(sender, rcpts)
  }

  predicate OneLines(ts: seq<seq<Byte>>) { forall i :: 0 <= i < |ts| ==> OneLine(ts[i]) }

  lemma {:induction false} RcptsRun(
    env: Env, sender: seq<Byte>, done: seq<seq<Byte>>, left: seq<seq<Byte>>, tail: seq<Byte>, k: nat)
    requires OneLines(left) && |done| + |left| <= env.maxRecipients
    ensures Session(env, After(sender, done), RcptLines(left) + tail, k)
         == RcptAnswers(left) + Session(env, After(sender, done + left), tail, k)
    decreases |left|
  {
    hide Session, Parse, RcptCommand, OneLine, ExtractAddress;
    if left == [] {
      assert [] + tail == tail && done + [] == done;
      assert [] + Session(env, After(sender, done), tail, k) == Session(env, After(sender, done), tail, k);
    } else {
      var a, left' := left[0], left[1..];
      RcptParsed(a);
      BracketedAddress(a);
      CommandStep(env, After(sender, done), RcptCommand(a), RcptLines(left') + tail, k);
      RcptsRun(env, sender, done + [a], left', tail, k);
      assert done + [a] + left' == done + left;
      Assoc(RcptCommand(a) + CRLF, RcptLines(left'), tail);
      Assoc([Answered(RcptTo(Bracketed(a)), 250)], RcptAnswers(left'),
        Session(env, After(sender, done + left), tail, k));
    }
  }

  /** The bytes of a whole transaction. */
  function TransactionWire(sender: seq<Byte>, rcpts: seq<seq<Byte>>, m: seq<Byte>): seq<Byte> {
    MailCommand(sender) + CRLF + (RcptLines(rcpts) + (DATA + CRLF + (Encode(m) + (QUIT + CRLF))))
  }

  lemma {:induction false} FlatRcpts(rcpts: seq<seq<Byte>>, tail: seq<Sent>)
    ensures Flat(Lines(seq(|rcpts|, i requires 0 <= i < |rcpts| => RcptCommand(rcpts[i]))) + tail)
         == RcptLines(rcpts) + Flat(tail)
  {
    hide RcptCommand;
    var cmds := seq(|rcpts|, i requires 0 <= i < |rcpts| => RcptCommand(rcpts[i]));
    var lines := Lines(cmds);
    if rcpts == [] {
      assert lines + tail == tail;
    } else {
      var r' := rcpts[1..];
      var cmds' := seq(|r'|, i requires 0 <= i < |r'| => RcptCommand(r'[i]));
      assert cmds[1..] == cmds';
      assert lines == [Line(RcptCommand(rcpts[0]))] + Lines(cmds');
      assert (lines + tail)[1..] == Lines(cmds') + tail;
      FlatRcpts(r', tail);
      Assoc(RcptCommand(rcpts[0]) + CRLF, RcptLines(r'), Flat(tail));
    }
  }

  lemma FlatTail(m: seq<Byte>)
    ensures Flat([Line(DATA), Body(Encode(m)), Line(QUIT)]) == DATA + CRLF + (Encode(m) + (QUIT + CRLF))
  {
    hide Encode;
    assert Flat([]) == [];
    assert Flat([Line(QUIT)]) == QUIT + CRLF;
    assert [Body(Encode(m)), Line(QUIT)][1..] == [Line(QUIT)];
    assert Flat([Body(Encode(m)), Line(QUIT)]) == Encode(m) + (QUIT + CRLF);
    assert [Line(DATA), Body(Encode(m)), Line(QUIT)][1..] == [Body(Encode(m)), Line(QUIT)];
  }

  lemma FlatAll(sender: seq<Byte>, rcpts: seq<seq<Byte>>, m: seq<Byte>)
    ensures Flat(AllSent(sender, rcpts, m)) == TransactionWire(sender, rcpts, m)
  {
    hide Encode, MailCommand, RcptCommand;
    var tail := [Line(DATA), Body(Encode(m)), Line(QUIT)];
    var lines := Lines(seq(|rcpts|, i requires 0 <= i < |rcpts| => RcptCommand(rcpts[i])));
    FlatTail(m);
    FlatRcpts(rcpts, tail);
    assert AllSent(sender, rcpts, m)[1..] == lines + tail;
  }

  /** What the receiver does with a transaction its policy accepts. */
  function ExpectedEvents(env: Env, sender: seq<Byte>, rcpts: seq<seq<Byte>>, m: seq<Byte>): seq<Event> {
    [Answered(MailFrom(Bracketed(sender)), 250)] + (RcptAnswers(rcpts)
      + ([Transfer(0, Normalize(m), 250, Spooled(Message(sender, rcpts, env.sign(DomainOf(sender), Normalize(m)))))]
      + [Answered(Quit, 221)]))
  }

  ghost predicate PolicyAccepts(env: Env, sender: seq<Byte>, rcpts: seq<seq<Byte>>, body: seq<Byte>) {
    && env.aligned(DomainOf(sender)) && 1 <= |rcpts| <= env.maxRecipients
    && env.rate(0) && env.content(body) && env.spoolWorks(0)
  }

  lemma TransactionRuns(env: Env, sender: seq<Byte>, rcpts: seq<seq<Byte>>, m: seq<Byte>)
    requires OneLine(sender) && OneLines(rcpts) && Valid(m) && PolicyAccepts(env, sender, rcpts, Normalize(m))
    ensures Session(env, Greeted, TransactionWire(sender, rcpts, m), 0) == ExpectedEvents(env, sender, rcpts, m)
  {
    hide Session, Parse, MailCommand, OneLine, ExtractAddress, Encode, Normalize, Valid, RcptLines, RcptAnswers;
    var body := DATA + CRLF + (Encode(m) + (QUIT + CRLF));
    MailParsed(sender);
    BracketedAddress(sender);
    CommandStep(env, Greeted, MailCommand(sender), RcptLines(rcpts) + body, 0);
    RcptsRun(env, sender, [], rcpts, body, 0);
    assert [] + rcpts == rcpts;
    DataStep(env, HaveRcpts(sender, rcpts), m, QUIT + CRLF, 0);
    QuitStep(env, Greeted, 1);
  }

  function FirstDigit(code: nat): Byte { if code < 1000 then (48 + code / 100) as Byte else 0 }

  /** First digits of the replies a peer sees, in order; a DATA whose body is read gets 354 and a final reply. */
  function FirstDigits(ev: seq<Event>): seq<Byte> {
    if ev == [] then []
    else
      (match ev[0]
       case Answered(_, code) => [FirstDigit(code)]
       case Transfer(_, _, code, _) => [51, FirstDigit(code)]
       case Lost => [51]) + FirstDigits(ev[1..])
  }

  lemma {:induction false} RcptDigits(rcpts: seq<seq<Byte>>, t: seq<Event>)
    ensures var d := FirstDigits(RcptAnswers(rcpts) + t);
      && |d| == |rcpts| + |FirstDigits(t)| && d[|rcpts|..] == FirstDigits(t)
      && forall i :: 0 <= i < |rcpts| ==> d[i] == 50
  {
    if rcpts == [] {
      assert [] + t == t;
    } else {
      RcptDigits(rcpts[1..], t);
      var e := Answered(RcptTo(Bracketed(rcpts[0])), 250);
      Assoc([e], RcptAnswers(rcpts[1..]), t);
      TakeDrop([e], RcptAnswers(rcpts[1..]) + t);
      hide RcptAnswers, Bracketed;
      assert FirstDigits([e] + (RcptAnswers(rcpts[1..]) + t)) == [50] + FirstDigits(RcptAnswers(rcpts[1..]) + t);
    }
  }

  lemma ExpectedDigits(env: Env, sender: seq<Byte>, rcpts: seq<seq<Byte>>, m: seq<Byte>)
    ensures var d, n := FirstDigits(ExpectedEvents(env, sender, rcpts, m)), |rcpts| + 1;
      |d| == n + 3 && forall i :: 0 <= i < n + 3 ==> d[i] == if i == n then 51 else 50
  {
    hide RcptAnswers, Normalize, DomainOf;
    var msg := Message(sender, rcpts, env.sign(DomainOf(sender), Normalize(m)));
    var t := [Transfer(0, Normalize(m), 250, Spooled(msg))] + [Answered(Quit, 221)];
    assert t[1..] == [Answered(Quit, 221)] && [Answered(Quit, 221)][1..] == [];
    assert FirstDigits(t) == [51, 50, 50];
    RcptDigits(rcpts, t);
    var ev := ExpectedEvents(env, sender, rcpts, m);
    assert ev[1..] == RcptAnswers(rcpts) + t;
  }

  /** The replies `rs` come one by one, each with the first digit of the receiver's to this transaction. */
  predicate Answers(env: Env, sender: seq<Byte>, rcpts: seq<seq<Byte>>, m: seq<Byte>, rs: seq<Reply>) {
    && Script(rs)
    && seq(|rs|, i requires 0 <= i < |rs| => rs[i].c0)
         == FirstDigits(Session(env, Greeted, Flat(AllSent(sender, rcpts, m)), 0))
  }

  /** Two relays back to back. A transaction the receiver's policy accepts is spooled once, with the
      sender, the recipients and the normalised, signed body the client was given, and ends with QUIT;
      and against any lock-step replies with the first digits the receiver sent, the client sends
      exactly that transaction and reports success. */
  lemma RelaysAgree(env: Env, sender: seq<Byte>, rcpts: seq<seq<Byte>>, m: seq<Byte>, rs: seq<Reply>)
    requires OneLine(sender) && OneLines(rcpts) && Valid(m) && PolicyAccepts(env, sender, rcpts, Normalize(m))
    requires Answers(env, sender, rcpts, m, rs)
    ensures Session(env, Greeted, Flat(AllSent(sender, rcpts, m)), 0) == ExpectedEvents(env, sender, rcpts, m)
    ensures var (sent, result) := Conversation(sender, rcpts, m, ScriptWire(rs));
      sent == AllSent(sender, rcpts, m) && Verdict(result).Success?
  {
    hide Session, Flat, AllSent, Conversation, ScriptWire, FirstDigits;
    hide OneLine, Valid, WellFormed, Normalize, PolicyAccepts;
    FlatAll(sender, rcpts, m);
    TransactionRuns(env, sender, rcpts, m);
    ExpectedDigits(env, sender, rcpts, m);
    ConversationScript(sender, rcpts, m, rs);
    var n := |rcpts| + 1;
    forall i | 0 <= i < |rs| ensures Good(rs, n, i) {
      assert rs[i].c0 == seq(|rs|, i requires 0 <= i < |rs| => rs[i].c0)[i];
    }
    assert GoodUpTo(rs, n, n + 2);
  }

  // ---- What a receiver has spooled can be sent on ----

  lemma OneLineTrimmed(t: seq<Byte>)
    requires OneLine(t)
    ensures OneLine(Trim(t))
  {
    hide Valid, Trim;
    TrimLine(t);
  }

  lemma OneLineAddress(raw: seq<Byte>)
    requires OneLine(raw)
    ensures OneLine(ExtractAddress(raw))
  {
    hide Valid, Trim;
    OneLineTrimmed(raw);
    var s := Trim(raw);
    if |s| >= 2 && s[0] == 60 && s[|s| - 1] == 62 {
      var a := s[1..|s| - 1];
      assert s == [] + [60] + (a + [62]) && a + [62] == a + [62] + [];
      ValidAround([], 60, a + [62]);
      ValidAround(a, 62, []);
    }
  }

  /** What follows an ASCII keyword on a line. */
  lemma OneLineAfter(t: seq<Byte>, keyword: seq<Byte>)
    requires OneLine(t) && StartsWith(Upper(t), keyword) && forall i :: 0 <= i < |keyword| ==> keyword[i] < 0x80
    ensures OneLine(Trim(t[|keyword|..]))
  {
    hide Valid, Trim;
    forall i | 0 <= i < |keyword|
      ensures t[i] < 0x80
    {
      assert keyword[i] == Upper(t)[..|keyword|][i] == UpperByte(t[i]);
    }
    DropAscii(t, |keyword|);
    OneLineTrimmed(t[|keyword|..]);
  }

  /** The addresses of a command read from a line. */
  lemma OneLineCommand(line: seq<Byte>)
    requires Valid(line) && OneLf(line)
    ensures var cmd := Parse(line); cmd.MailFrom? || cmd.RcptTo? ==> OneLine(cmd.addr)
  {
    hide Valid, Trim, OneLf;
    TrimLine(line);
    var t := Trim(line);
    if StartsWith(Upper(t), MAIL_FROM) {
      OneLineAfter(t, MAIL_FROM);
    }
    if StartsWith(Upper(t), RCPT_TO) {
      OneLineAfter(t, RCPT_TO);
    }
  }

  predicate OneLineState(st: State) {
    && (st.HaveSender? || st.HaveRcpts? ==> OneLine(st.sender))
    && (st.HaveRcpts? ==> OneLines(st.rcpts))
  }

  lemma OneLineAnswer(env: Env, st: State, line: seq<Byte>)
    requires OneLineState(st) && Valid(line) && OneLf(line)
    ensures OneLineState(Answer(env, st, Parse(line)).0)
  {
    hide Valid, OneLf, OneLine, Parse, ExtractAddress;
    OneLineCommand(line);
    var cmd := Parse(line);
    if cmd.MailFrom? || cmd.RcptTo? {
      OneLineAddress(cmd.addr);
    }
  }

  predicate OneLineEvent(e: Event) {
    e.Transfer? && e.spooled.Spooled? ==> OneLine(e.spooled.message.sender) && OneLines(e.spooled.message.rcpts)
  }

  /** One turn of the receiver keeps its addresses on one line, and spools only such. */
  lemma OneLineTurn(env: Env, st: State, stream: seq<Byte>, k: nat)
    requires OneLineState(st)
    ensures var t := Step(env, st, stream, k);
      && (t.Last? || t.Next? ==> OneLineEvent(t.event))
      && (t.Next? ==> OneLineState(t.st))
  {
    hide Valid, OneLine, Parse, Answer;
    var line := stream[..LineLen(stream)];
    assert OneLf(line);
    if Valid(line) {
      OneLineAnswer(env, st, line);
    }
  }

  /** Whatever bytes a receiver is sent, the addresses of every message it spools are text on one line. */
  lemma {:induction false} SpooledOneLine(env: Env, st: State, stream: seq<Byte>, k: nat)
    requires OneLineState(st)
    ensures forall i :: 0 <= i < |Session(env, st, stream, k)| ==> OneLineEvent(Session(env, st, stream, k)[i])
    decreases |stream|
  {
    hide OneLineState, OneLineEvent;
    OneLineTurn(env, st, stream, k);
    var t := Step(env, st, stream, k);
    if t.Next? {
      SpooledOneLine(env, t.st, t.rest, t.k);
    }
  }

  ghost predicate SpooledBy(env: Env, stream: seq<Byte>, m: Message) {
    exists i :: 0 <= i < |Session(env, Connected, stream, 0)| && Holds(Session(env, Connected, stream, 0)[i], m)
  }

  predicate Holds(e: Event, m: Message) { e.Transfer? && e.spooled == Spooled(m) }

  /** A message one relay spooled, from whatever bytes it was sent, passes on to the next: if its text is valid and the
      next relay's policy accepts it, that relay spools it with the same sender and recipients, and the first relay,
      seeing the replies, reports success. */
  lemma PassedOn(first: Env, stream: seq<Byte>, m: Message, next: Env, rs: seq<Reply>)
    requires SpooledBy(first, stream, m) && Valid(m.bytes)
    requires PolicyAccepts(next, m.sender, m.rcpts, Normalize(m.bytes))
    requires Answers(next, m.sender, m.rcpts, m.bytes, rs)
    ensures Session(next, Greeted, Flat(AllSent(m.sender, m.rcpts, m.bytes)), 0)
         == ExpectedEvents(next, m.sender, m.rcpts, m.bytes)
    ensures var (sent, result) := Conversation(m.sender, m.rcpts, m.bytes, ScriptWire(rs));
      sent == AllSent(m.sender, m.rcpts, m.bytes) && Verdict(result).Success?
  {
    hide Session, Flat, AllSent, Conversation, ScriptWire, ExpectedEvents, PolicyAccepts, Answers;
    hide Valid, OneLine, Normalize;
    SpooledOneLine(first, Connected, stream, 0);
    var events := Session(first, Connected, stream, 0);
    var i :| 0 <= i < |events| && Holds(events[i], m);
    assert OneLineEvent(events[i]);
    RelaysAgree(next, m.sender, m.rcpts, m.bytes, rs);
  }
}
