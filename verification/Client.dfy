/** The relay's SMTP client on a plain connection (serverwall-relay/src/delivery/sender.rs):
    reading replies, the MAIL/RCPT/DATA conversation, and the verdict on the attempt. */
module Client {
  import opened Bytes
  import opened DataTransfer
  import opened SmtpCommands

  // ---- Reading one reply ----

  datatype Reading = Got(text: seq<Byte>, rest: seq<Byte>) | Failed

  predicate EndsReply(line: seq<Byte>) { |line| < 4 || line[3] == SP }

  function WithLine(line: seq<Byte>, r: Reading): Reading {
    if r.Got? then Got(line + r.text, r.rest) else r
  }

  function ReadLines(s: seq<Byte>): Reading
    decreases |s|
  {
    var n := LineLen(s);
    if n == 0 || !Valid(s[..n]) then Failed
    else if EndsReply(s[..n]) then Got(s[..n], s[n..])
    else WithLine(s[..n], ReadLines(s[n..]))
  }

  function ReadReply(s: seq<Byte>): Reading {
    var r := ReadLines(s);
    if r.Got? then Got(Trim(r.text), r.rest) else r
  }

  lemma ReadLinesIs(s: seq<Byte>)
    ensures ReadLines(s) ==
      var n := LineLen(s);
      if n == 0 || !Valid(s[..n]) then Failed
      else if EndsReply(s[..n]) then Got(s[..n], s[n..])
      else WithLine(s[..n], ReadLines(s[n..]))
  {
    hide Valid, LineLen, WithLine, EndsReply;
  }

  lemma WithLineTwice(a: seq<Byte>, b: seq<Byte>, r: Reading)
    ensures WithLine(a, WithLine(b, r)) == WithLine(a + b, r) && WithLine([], r) == r
  {
    if r.Got? {
      Assoc(a, b, r.text);
      assert [] + r.text == r.text;
    }
  }

  method ReadResponse(stream: seq<Byte>) returns (r: Reading)
    ensures r == ReadReply(stream)
  {
    hide Trim, Valid, LineLen, ReadLines;
    var full: seq<Byte> := [];
    var rest := stream;
    WithLineTwice([], [], ReadLines(stream));
    while true
      invariant ReadLines(stream) == WithLine(full, ReadLines(rest))
      decreases |rest|
    {
      var n := LineLen(rest);
      var line := rest[..n];
      ReadLinesIs(rest);
      if n == 0 || !Valid(line) {
        return Failed;
      }
      if |line| < 4 || line[3] == SP {
        return Got(Trim(full + line), rest[n..]);
      }
      WithLineTwice(full, line, ReadLines(rest[n..]));
      full := full + line;
      rest := rest[n..];
    }
  }

  predicate Positive(text: seq<Byte>) { text != [] && text[0] == 50 }

  predicate Intermediate(text: seq<Byte>) { text != [] && text[0] == 51 }

  // ---- The conversation ----

  /** What goes onto the wire: a command line, or a stuffed body with its lone dot. */
  datatype Sent = Line(text: seq<Byte>) | Body(wire: seq<Byte>)

  datatype Result = Accepted(reply: seq<Byte>) | Refused(reply: seq<Byte>) | Broken

  datatype Outcome = Success(reply: seq<Byte>) | TempFail | PermFail

  /** The verdict of `send`: a refusal starting with 5 is permanent, any other failure temporary. */
  function Verdict(r: Result): Outcome {
    match r
    case Accepted(reply) => Success(reply)
    case Refused(reply) => if |reply| > 2 && reply[0] == 53 then PermFail else TempFail
    case Broken => TempFail
  }

  function MailCommand(sender: seq<Byte>): seq<Byte> { MAIL_FROM + [60] + sender + [62] }

  function RcptCommand(rcpt: seq<Byte>): seq<Byte> { RCPT_TO + [60] + rcpt + [62] }

  function EnvelopeCommands(sender: seq<Byte>, rcpts: seq<seq<Byte>>): (cmds: seq<seq<Byte>>)
    ensures |cmds| == |rcpts| + 1
  {
    [MailCommand(sender)] + seq(|rcpts|, i requires 0 <= i < |rcpts| => RcptCommand(rcpts[i]))
  }

  function Lines(cmds: seq<seq<Byte>>): (sent: seq<Sent>)
    ensures |sent| == |cmds|
  {
    seq(|cmds|, i requires 0 <= i < |cmds| => Line(cmds[i]))
  }

  /** Commands sent one at a time while each is answered positively: either all were, with
      `rest` unread, or the `count`-th was the last one sent. */
  datatype Asked = AllYes(rest: seq<Byte>) | Stopped(count: nat, result: Result)

  function Ask(cmds: seq<seq<Byte>>, s: seq<Byte>): (a: Asked)
    ensures a.Stopped? ==> a.count <= |cmds|
  {
    if cmds == [] then AllYes(s)
    else
      var r := ReadReply(s);
      if r.Failed? then Stopped(1, Broken)
      else if !Positive(r.text) then Stopped(1, Refused(r.text))
      else
        var a := Ask(cmds[1..], r.rest);
        if a.Stopped? then Stopped(a.count + 1, a.result) else a
  }

  /** DATA, the body and QUIT, once the envelope was accepted. */
  function SendBody(message: seq<Byte>, s: seq<Byte>): (seq<Sent>, Result) {
    var data := [Line(DATA)];
    var r := ReadReply(s);
    if r.Failed? then (data, Broken)
    else if !Intermediate(r.text) then (data, Refused(r.text))
    else
      var sent := data + [Body(Encode(message))];
      var f := ReadReply(r.rest);
      if f.Failed? then (sent, Broken)
      else if !Positive(f.text) then (sent, Refused(f.text))
      else (sent + [Line(QUIT)], Accepted(f.text))
  }

  function Conversation(sender: seq<Byte>, rcpts: seq<seq<Byte>>, message: seq<Byte>, s: seq<Byte>)
    : (seq<Sent>, Result)
  {
    var cmds := EnvelopeCommands(sender, rcpts);
    match Ask(cmds, s)
    case Stopped(count, result) => (Lines(cmds[..count]), result)
    case AllYes(rest) =>
      var (sent, result) := SendBody(message, rest);
      (Lines(cmds) + sent, result)
  }

  /** The conversation with its loop over the recipients. */
  method Converse(sender: seq<Byte>, rcpts: seq<seq<Byte>>, message: seq<Byte>, stream: seq<Byte>)
    returns (sent: seq<Sent>, result: Result)
    ensures (sent, result) == Conversation(sender, rcpts, message, stream)
  {
    hide ReadReply, SendBody, MailCommand, RcptCommand;
    ghost var cmds := EnvelopeCommands(sender, rcpts);
    sent := [Line(MailCommand(sender))];
    assert sent == Lines(cmds[..1]);
    var reply := ReadResponse(stream);
    if reply.Failed? {
      return sent, Broken;
    }
    if !Positive(reply.text) {
      return sent, Refused(reply.text);
    }
    var rest := reply.rest;
    for i := 0 to |rcpts|
      invariant sent == Lines(cmds[..i + 1])
      invariant Ask(cmds, stream) == Shifted(i + 1, Ask(cmds[i + 1..], rest))
    {
      sent := sent + [Line(RcptCommand(rcpts[i]))];
      assert cmds[i + 1] == RcptCommand(rcpts[i]);
      assert sent == Lines(cmds[..i + 2]);
      assert cmds[i + 1..][1..] == cmds[i + 2..];
      reply := ReadResponse(rest);
      if reply.Failed? {
        return sent, Broken;
      }
      if !Positive(reply.text) {
        return sent, Refused(reply.text);
      }
      rest := reply.rest;
    }
    assert cmds[..|cmds|] == cmds;
    var tail, r := Transmit(message, rest);
    sent := sent + tail;
    result := r;
  }

  function Shifted(n: nat, a: Asked): Asked {
    if a.Stopped? then Stopped(a.count + n, a.result) else a
  }

  /** DATA, the body and the final reply. */
  method Transmit(message: seq<Byte>, stream: seq<Byte>) returns (sent: seq<Sent>, result: Result)
    ensures (sent, result) == SendBody(message, stream)
  {
    sent := [Line(DATA)];
    var reply := ReadResponse(stream);
    if reply.Failed? {
      return sent, Broken;
    }
    if !Intermediate(reply.text) {
      return sent, Refused(reply.text);
    }
    var wire := WriteBody(message);
    sent := sent + [Body(wire)];
    var final := ReadResponse(reply.rest);
    if final.Failed? {
      return sent, Broken;
    }
    if !Positive(final.text) {
      return sent, Refused(final.text);
    }
    sent := sent + [Line(QUIT)];
    result := Accepted(final.text);
  }

  // ---- Replies as a server may send them (section 4.2.1 of RFC 5321) ----

  /** A reply: the digits of its code, the texts of its continuation lines, and its last line, on which the
      grammar allows a bare code. */
  datatype Reply = Reply(c0: Byte, c1: Byte, c2: Byte, more: seq<seq<Byte>>, last: LastLine)

  datatype LastLine = Bare | Spaced(text: seq<Byte>)

  predicate TextString(t: seq<Byte>) { forall i :: 0 <= i < |t| ==> t[i] == 9 || 32 <= t[i] <= 126 }

  predicate WellFormed(r: Reply) {
    && 50 <= r.c0 <= 53 && 48 <= r.c1 <= 53 && 48 <= r.c2 <= 57
    && (forall i :: 0 <= i < |r.more| ==> TextString(r.more[i]))
    && (r.last.Spaced? ==> TextString(r.last.text))
  }

  function Code(r: Reply): seq<Byte> { [r.c0, r.c1, r.c2] }

  function LastOf(r: Reply): seq<Byte> {
    Code(r) + (if r.last.Spaced? then [SP] + r.last.text else [])
  }

  function Wire(r: Reply): seq<Byte>
    decreases |r.more|
  {
    if r.more == [] then LastOf(r) + CRLF
    else Code(r) + [DASH] + r.more[0] + CRLF + Wire(r.(more := r.more[1..]))
  }

  function ScriptWire(rs: seq<Reply>): seq<Byte> {
    if rs == [] then [] else Wire(rs[0]) + ScriptWire(rs[1..])
  }

  /** The text the client keeps of a reply. */
  function TextOf(r: Reply): seq<Byte> { Trim(Wire(r)) }

  /** One line `l` CRLF of ASCII text in front of `rest` is read as one line. */
  lemma AsciiLineRead(l: seq<Byte>, rest: seq<Byte>)
    requires |l| >= 3 && forall i :: 0 <= i < |l| ==> l[i] < 0x80 && l[i] != LF
    ensures ReadLines(l + CRLF + rest)
         == if EndsReply(l + CRLF) then Got(l + CRLF, rest) else WithLine(l + CRLF, ReadLines(rest))
  {
    LineOnWire(l, rest);
    AsciiValid(l + CRLF);
    TakeDrop(l + CRLF, rest);
  }

  lemma LastLineRead(r: Reply, rest: seq<Byte>)
    requires WellFormed(r)
    ensures ReadLines(LastOf(r) + CRLF + rest)
         == if r.last.Spaced? then Got(LastOf(r) + CRLF, rest) else WithLine(LastOf(r) + CRLF, ReadLines(rest))
  {
    hide ReadLines;
    var l := LastOf(r);
    AsciiLineRead(l, rest);
    assert (l + CRLF)[3] == if r.last.Spaced? then SP else CR;
  }

  /** A well-formed reply is read whole; the reader stops after it only if its last line has the space. */
  lemma {:induction false} WireRead(r: Reply, rest: seq<Byte>)
    requires WellFormed(r)
    ensures ReadLines(Wire(r) + rest)
         == if r.last.Spaced? then Got(Wire(r), rest) else WithLine(Wire(r), ReadLines(rest))
    decreases |r.more|
  {
    hide ReadLines;
    if r.more == [] {
      LastLineRead(r, rest);
    } else {
      var r' := r.(more := r.more[1..]);
      WireRead(r', rest);
      var l := Code(r) + [DASH] + r.more[0];
      AsciiLineRead(l, Wire(r') + rest);
      assert (l + CRLF)[3] == DASH;
      Assoc(l + CRLF, Wire(r'), rest);
      var tail := ReadLines(rest);
      assert tail.Got? ==> (l + CRLF) + (Wire(r') + tail.text) == Wire(r) + tail.text;
    }
  }

  lemma {:induction false} ReadLinesConsumes(s: seq<Byte>)
    ensures ReadLines(s).Got? ==> |ReadLines(s).rest| < |s|
    decreases |s|
  {
    if s != [] && !EndsReply(s[..LineLen(s)]) {
      ReadLinesConsumes(s[LineLen(s)..]);
    }
  }

  /** Lock step for one reply, exactly: the read returns this reply and leaves what follows
      unread if and only if the last line puts a space after the code. */
  lemma ReadsOneReply(r: Reply, rest: seq<Byte>)
    requires WellFormed(r)
    ensures ReadReply(Wire(r) + rest) == Got(TextOf(r), rest) <==> r.last.Spaced?
  {
    WireRead(r, rest);
    ReadLinesConsumes(rest);
  }

  /** A reply the grammar of RFC 5321 allows and the reader runs past. */
  lemma BareReplyRunsOn()
    ensures var ok := Reply(50, 53, 48, [], Bare);
      && WellFormed(ok)
      && ReadReply(Wire(ok)) == Failed
      && forall next: Reply | WellFormed(next) && next.last.Spaced? ::
           ReadReply(Wire(ok) + Wire(next)) == Got(Trim(Wire(ok) + Wire(next)), [])
  {
    hide ReadLines, Wire, Trim;
    var ok := Reply(50, 53, 48, [], Bare);
    WireRead(ok, []);
    assert Wire(ok) + [] == Wire(ok);
    assert ReadLines([]) == Failed by { NothingToRead(); }
    forall next: Reply | WellFormed(next) && next.last.Spaced?
      ensures ReadReply(Wire(ok) + Wire(next)) == Got(Trim(Wire(ok) + Wire(next)), [])
    {
      WireRead(ok, Wire(next));
      WireRead(next, []);
      assert Wire(next) + [] == Wire(next);
    }
  }

  lemma NothingToRead()
    ensures ReadLines([]) == Failed && ReadReply([]) == Failed
  {
  }

  lemma TextKeepsCode(r: Reply)
    requires WellFormed(r)
    ensures |TextOf(r)| >= 3 && TextOf(r)[0] == r.c0
  {
    var w := Wire(r);
    assert |w| >= 3 && w[..3] == Code(r) by { WireStarts(r); }
    assert w[0] == w[..3][0] && w[2] == w[..3][2];
    assert TrimStart(w) == w;
    TrimEndKeeps(w, 2);
  }

  lemma WireStarts(r: Reply)
    requires WellFormed(r)
    ensures |Wire(r)| >= 3 && Wire(r)[..3] == Code(r)
  {
  }

  predicate Script(rs: seq<Reply>) {
    forall i :: 0 <= i < |rs| ==> WellFormed(rs[i]) && rs[i].last.Spaced?
  }

  /** The next read returns the next reply of the script. */
  lemma ScriptRead(rs: seq<Reply>)
    requires Script(rs)
    ensures ReadReply(ScriptWire(rs)) == if rs == [] then Failed else Got(TextOf(rs[0]), ScriptWire(rs[1..]))
    ensures rs != [] ==>
      && (Positive(TextOf(rs[0])) <==> rs[0].c0 == 50)
      && (Intermediate(TextOf(rs[0])) <==> rs[0].c0 == 51)
      && (Verdict(Refused(TextOf(rs[0]))).PermFail? <==> rs[0].c0 == 53)
  {
    hide ReadReply, Wire, TextOf;
    NothingToRead();
    if rs != [] {
      ReadsOneReply(rs[0], ScriptWire(rs[1..]));
      TextKeepsCode(rs[0]);
    }
  }

  /** Each command is judged by its own reply: the i-th command goes out after i positive replies,
      and the first reply that is not positive, or the end of the input, stops the sequence. */
  lemma {:induction false} AskScript(cmds: seq<seq<Byte>>, rs: seq<Reply>)
    requires Script(rs)
    ensures match Ask(cmds, ScriptWire(rs))
      case AllYes(rest) =>
        |cmds| <= |rs| && (forall i :: 0 <= i < |cmds| ==> rs[i].c0 == 50) && rest == ScriptWire(rs[|cmds|..])
      case Stopped(count, result) =>
        && 1 <= count <= |cmds| && count - 1 <= |rs| && (forall i :: 0 <= i < count - 1 ==> rs[i].c0 == 50)
        && (if count - 1 == |rs| then result == Broken
            else rs[count - 1].c0 != 50 && FailsWith(result, rs[count - 1]))
  {
    hide ReadReply, ScriptWire, TextOf, Positive, WellFormed, Verdict, Intermediate;
    ScriptRead(rs);
    if cmds == [] {
      assert rs[0..] == rs;
    } else if rs != [] && rs[0].c0 == 50 {
      AskScript(cmds[1..], rs[1..]);
      assert |cmds| <= |rs| ==> rs[1..][|cmds| - 1..] == rs[|cmds|..];
      assert forall i :: 0 < i < |rs| ==> rs[i] == rs[1..][i - 1];
    }
  }

  predicate FailsWith(r: Result, reply: Reply) { r == Refused(TextOf(reply)) }

  /** What stops an attempt with `n` envelope commands is the first reply that is missing or not
      2xx, 3xx for the reply to DATA. */
  predicate Good(rs: seq<Reply>, n: nat, i: nat)
    requires i < |rs|
  {
    rs[i].c0 == if i == n then 51 else 50
  }

  predicate GoodUpTo(rs: seq<Reply>, n: nat, k: nat) {
    k <= |rs| && forall i :: 0 <= i < k ==> Good(rs, n, i)
  }

  /** Everything a successful attempt sends, in order. */
  function AllSent(sender: seq<Byte>, rcpts: seq<seq<Byte>>, message: seq<Byte>): (sent: seq<Sent>)
    ensures |sent| == |rcpts| + 4
  {
    Lines(EnvelopeCommands(sender, rcpts)) + [Line(DATA), Body(Encode(message)), Line(QUIT)]
  }

  /** DATA and the body against the replies that are left. */
  lemma BodyScript(message: seq<Byte>, rs: seq<Reply>)
    requires Script(rs)
    ensures var (sent, result) := SendBody(message, ScriptWire(rs));
      if rs == [] then sent == [Line(DATA)] && result == Broken
      else if rs[0].c0 != 51 then sent == [Line(DATA)] && FailsWith(result, rs[0])
      else if |rs| == 1 then sent == [Line(DATA), Body(Encode(message))] && result == Broken
      else if rs[1].c0 != 50 then sent == [Line(DATA), Body(Encode(message))] && FailsWith(result, rs[1])
      else sent == [Line(DATA), Body(Encode(message)), Line(QUIT)] && result.Accepted?
  {
    hide ReadReply, ScriptWire, TextOf, Positive, Intermediate, Encode, WellFormed, Verdict;
    ScriptRead(rs);
    if rs != [] {
      assert Script(rs[1..]);
      ScriptRead(rs[1..]);
    }
  }

  /** An attempt stopped by reply `k`, or by none if `k` is `n + 2`. */
  ghost predicate StoppedBy(rs: seq<Reply>, n: nat, k: nat, all: seq<Sent>, sent: seq<Sent>, result: Result)
    requires |all| == n + 3
  {
    && k <= n + 2 && GoodUpTo(rs, n, k) && sent == all[..k + 1]
    && (result.Accepted? <==> k == n + 2)
    && (k < n + 2 ==> if k == |rs| then result == Broken else !Good(rs, n, k) && FailsWith(result, rs[k]))
  }

  lemma ConversationStops(sender: seq<Byte>, rcpts: seq<seq<Byte>>, message: seq<Byte>, rs: seq<Reply>)
    returns (k: nat)
    requires Script(rs)
    ensures var (sent, result) := Conversation(sender, rcpts, message, ScriptWire(rs));
      StoppedBy(rs, |rcpts| + 1, k, AllSent(sender, rcpts, message), sent, result)
  {
    hide ScriptWire, EnvelopeCommands, Encode, Ask, SendBody, TextOf, WellFormed;
    var cmds, n := EnvelopeCommands(sender, rcpts), |rcpts| + 1;
    AskScript(cmds, rs);
    var asked := Ask(cmds, ScriptWire(rs));
    var all := AllSent(sender, rcpts, message);
    if asked.Stopped? {
      k := asked.count - 1;
      assert all[..k + 1] == Lines(cmds[..k + 1]);
    } else {
      var left := rs[n..];
      BodyScript(message, left);
      assert all[..n + 1] == Lines(cmds) + [Line(DATA)];
      assert all[..n + 2] == Lines(cmds) + [Line(DATA), Body(Encode(message))];
      assert all[..n + 3] == all;
      k := if left == [] || left[0].c0 != 51 then n
           else if |left| == 1 || left[1].c0 != 50 then n + 1
           else n + 2;
      assert forall i :: n <= i < |rs| ==> rs[i] == left[i - n];
    }
  }

  lemma RefusalVerdict(r: Reply)
    requires WellFormed(r)
    ensures Verdict(Refused(TextOf(r))).PermFail? <==> r.c0 == 53
  {
    TextKeepsCode(r);
  }

  /** The whole attempt against any script of lock-step replies. The i-th thing an attempt sends
      goes out exactly when the i replies before it were good: in particular the body exactly when
      MAIL and every RCPT got 2xx and DATA got 3xx. It succeeds exactly when the final reply was 2xx
      too, and fails permanently exactly when the reply that stopped it starts with 5. */
  lemma ConversationScript(sender: seq<Byte>, rcpts: seq<seq<Byte>>, message: seq<Byte>, rs: seq<Reply>)
    requires Script(rs)
    ensures var (sent, result) := Conversation(sender, rcpts, message, ScriptWire(rs));
      var all, n := AllSent(sender, rcpts, message), |rcpts| + 1;
      && sent <= all
      && (forall i :: 0 <= i < |all| ==> (i < |sent| <==> GoodUpTo(rs, n, i)))
      && (Verdict(result).Success? <==> GoodUpTo(rs, n, n + 2))
      && (Verdict(result).PermFail? <==>
            exists f :: 0 <= f < |rs| && f < n + 2 && GoodUpTo(rs, n, f) && !Good(rs, n, f) && rs[f].c0 == 53)
  {
    hide Conversation, AllSent, ScriptWire, TextOf, WellFormed;
    var k := ConversationStops(sender, rcpts, message, rs);
    var n := |rcpts| + 1;
    if k < |rs| {
      RefusalVerdict(rs[k]);
    }
    forall f | 0 <= f < |rs| && f < n + 2 && GoodUpTo(rs, n, f) && !Good(rs, n, f)
      ensures f == k
    {
    }
  }
}
