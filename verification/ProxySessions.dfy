/** Sessions of the SMTP proxy with a client that speaks as the relay does (serverwall-proxy/src/proxy/smtp_proxy.rs,
    serverwall-relay/src/delivery/sender.rs). */
module ProxySessions {
  import opened Bytes
  import opened SmtpCommands
  import opened SmtpProxy
  import C = Client
  import D = DataTransfer
  import R = RelayToRelay

  lemma LineTalk(lists: Lists, oracle: Oracle, s: Session, t: seq<Byte>, rest: seq<Byte>, k: nat)
    requires s.open && R.OneLine(t) && !Parse(t + CRLF).Data?
    ensures Talk(lists, oracle, s, t + CRLF + rest, k)
         == Talk(lists, oracle, Answer(lists, s, Parse(t + CRLF)), rest, k)
  {
    hide Valid, LineLen, Parse, Answer;
    R.LineArrives(t, rest);
  }

  /** DATA with an encoded body: the content carries the normalised message, and what follows is read next. */
  lemma DataTalk(lists: Lists, oracle: Oracle, s: Session, m: seq<Byte>, rest: seq<Byte>, k: nat)
    requires s.open && TakesData(s) && Valid(m)
    ensures var d := ContentOf(oracle, k, Body(D.Normalize(m), rest));
      Talk(lists, oracle, s, DATA + CRLF + (D.Encode(m) + rest), k) == Talk(lists, oracle, TakeData(s, d), rest, k + 1)
  {
    hide Valid, LineLen, Parse, TakeData, ReadBody, D.Encode, D.Normalize;
    R.WordsParsed();
    R.LineArrives(DATA, D.Encode(m) + rest);
    BodyRoundTrip(m, rest);
  }

  /** An address a client may send: on one line, without angle brackets. */
  predicate Plain(a: seq<Byte>) { R.OneLine(a) && 60 !in a && 62 !in a }

  lemma NoAngles(a: seq<Byte>)
    requires 60 !in a && 62 !in a
    ensures DropAngles(R.Bracketed(a)) == a
  {
    assert R.Bracketed(a)[1..] == a + [62];
    NoAngleAfter(a);
  }

  lemma NoAngleAfter(a: seq<Byte>)
    requires 60 !in a && 62 !in a
    ensures DropAngles(a + [62]) == a
  {
    var b := a + [62];
    if a == [] {
      assert b[1..] == [];
    } else {
      assert b[..|b| - 1] == a && b[0] == a[0];
      assert DropAngles(a) == a;
    }
  }

  /** One message to one recipient, up to its lone dot. */
  function MessageWire(sender: seq<Byte>, rcpt: seq<Byte>, m: seq<Byte>, rest: seq<Byte>): seq<Byte> {
    C.MailCommand(sender) + CRLF + (C.RcptCommand(rcpt) + CRLF + (DATA + CRLF + (D.Encode(m) + rest)))
  }

  /** The session once the envelope is taken. */
  function Enveloped(lists: Lists, s: Session, sender: seq<Byte>, rcpt: seq<Byte>): Session {
    s.(phase := RcptGiven, sender := sender, rcpts := s.rcpts + [rcpt],
       allowed := s.allowed || lists.allowedSender(sender),
       events := s.events + [Replied(MailFrom(R.Bracketed(sender)), 250)] + [Replied(RcptTo(R.Bracketed(rcpt)), 250)])
  }

  /** A message from a relay reaches the checks with its envelope and its normalised body. */
  lemma MessageTalk(lists: Lists, oracle: Oracle, s: Session, sender: seq<Byte>, rcpt: seq<Byte>, m: seq<Byte>,
                    rest: seq<Byte>, k: nat)
    requires s.open && Plain(sender) && Plain(rcpt) && Valid(m)
    requires !lists.blockedSender(sender) && !lists.blockedRcpt(rcpt)
    ensures var d := ContentOf(oracle, k, Body(D.Normalize(m), rest));
      Talk(lists, oracle, s, MessageWire(sender, rcpt, m, rest), k)
      == Talk(lists, oracle, TakeData(Enveloped(lists, s, sender, rcpt), d), rest, k + 1)
  {
    hide Talk, Valid, Parse, DropAngles, R.OneLine, TakeData, D.Normalize, D.Encode, C.MailCommand, C.RcptCommand;
    var data := DATA + CRLF + (D.Encode(m) + rest);
    R.MailParsed(sender);
    R.RcptParsed(rcpt);
    NoAngles(sender);
    NoAngles(rcpt);
    LineTalk(lists, oracle, s, C.MailCommand(sender), C.RcptCommand(rcpt) + CRLF + data, k);
    var s1 := Answer(lists, s, MailFrom(R.Bracketed(sender)));
    LineTalk(lists, oracle, s1, C.RcptCommand(rcpt), data, k);
    assert Answer(lists, s1, RcptTo(R.Bracketed(rcpt))) == Enveloped(lists, s, sender, rcpt);
    DataTalk(lists, oracle, Enveloped(lists, s, sender, rcpt), m, rest, k);
  }

  /** The mark outlives its transaction: after a message of an allow-listed sender, a message of another sender goes
      to the backend without being judged, spam or not. */
  lemma LaterMessageUnjudged(lists: Lists, oracle: Oracle, a: seq<Byte>, b: seq<Byte>, rcpt: seq<Byte>,
                             m: seq<Byte>, m': seq<Byte>)
    requires Plain(a) && Plain(b) && Plain(rcpt) && Valid(m) && Valid(m')
    requires !lists.blockedSender(a) && !lists.blockedSender(b) && !lists.blockedRcpt(rcpt)
    requires lists.allowedSender(a) && !lists.allowedSender(b)
    requires oracle.pre(0) == [] && oracle.pre(1) == [] && oracle.verdict(1) == Spam
    ensures var ev := Talk(lists, oracle, START, MessageWire(a, rcpt, m, MessageWire(b, rcpt, m', [])), 0).events;
      |ev| >= 2 && ev[|ev| - 2] == Forwarded(b, [rcpt], D.Normalize(m'), true)
  {
    hide Valid, Plain, Talk, MessageWire, D.Normalize, RunPostData;
    var second := MessageWire(b, rcpt, m', []);
    var d := ContentOf(oracle, 0, Body(D.Normalize(m), second));
    MessageTalk(lists, oracle, START, a, rcpt, m, second, 0);
    var s1 := TakeData(Enveloped(lists, START, a, rcpt), d);
    assert s1.open && s1.allowed && s1.rcpts == [];
    var d' := ContentOf(oracle, 1, Body(D.Normalize(m'), []));
    MessageTalk(lists, oracle, s1, b, rcpt, m', [], 1);
    var s2 := TakeData(Enveloped(lists, s1, b, rcpt), d');
    NothingLeft(lists, oracle, s2, 2);
    var s1' := Enveloped(lists, s1, b, rcpt);
    assert s2.events == s1'.events + ForwardEvents(s1', d', true);
  }

  lemma NothingLeft(lists: Lists, oracle: Oracle, s: Session, k: nat)
    ensures Talk(lists, oracle, s, [], k) == s
  {
  }
}
