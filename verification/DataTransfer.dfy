/** The body of a message on the wire: the sender's dot-stuffing loop
    (serverwall-relay/src/delivery/sender.rs) and the receiver's DATA loop
    (serverwall-relay/src/receiver.rs). Section 4.5.2 of RFC 5321 asks that the
    second undo the first. */
module DataTransfer {
  import opened Bytes

  // ---- Sender ----

  function StripCr(l: seq<Byte>): seq<Byte> {
    if l != [] && l[|l| - 1] == CR then l[..|l| - 1] else l
  }

  predicate StartsWithDot(l: seq<Byte>) { l != [] && l[0] == DOT }

  function Stuffed(l: seq<Byte>): seq<Byte> {
    if StartsWithDot(l) then [DOT] + l else l
  }

  /** What the sender writes for one newline-separated segment of the message. */
  function WireLine(seg: seq<Byte>): seq<Byte> {
    Stuffed(StripCr(seg)) + CRLF
  }

  /** Everything the sender writes between the 354 reply and the final reply: a wire line per
      newline-separated segment (there is always at least one), then the lone dot. */
  function Encode(m: seq<Byte>): seq<Byte>
    decreases |m|
  {
    var n := LineLen(m);
    if n > 0 && m[n - 1] == LF then WireLine(m[..n - 1]) + Encode(m[n..])
    else WireLine(m) + ([DOT] + CRLF)
  }

  /** The body of the write loop: strip one CR, an extra dot if the line starts with one,
      the line, CRLF. */
  method WriteSegment(seg: seq<Byte>) returns (out: seq<Byte>)
    ensures out == WireLine(seg)
  {
    var line := seg;
    if |line| > 0 && line[|line| - 1] == CR {
      line := line[..|line| - 1];
    }
    assert line == StripCr(seg);
    out := [];
    if |line| > 0 && line[0] == DOT {
      out := [DOT];
    }
    out := out + line;
    assert out == Stuffed(line);
    hide StripCr, Stuffed;
    out := out + CRLF;
  }

  /** The write loop over the newline-separated segments, then the lone dot. */
  method WriteBody(message: seq<Byte>) returns (wire: seq<Byte>)
    ensures wire == Encode(message)
  {
    wire := [];
    var rest := message;
    var last := false;
    while !last
      invariant wire + (if last then [DOT] + CRLF else Encode(rest)) == Encode(message)
      decreases !last, |rest|
    {
      var n := LineLen(rest);
      last := !(n > 0 && rest[n - 1] == LF);
      var seg := if last then rest else rest[..n - 1];
      var out := WriteSegment(seg);
      hide WireLine, LineLen;
      Assoc(wire, out, if last then [DOT] + CRLF else Encode(rest[n..]));
      wire := wire + out;
      rest := if last then rest else rest[n..];
    }
    wire := wire + ([DOT] + CRLF);
  }

  // ---- Receiver ----

  /** What the DATA loop ends with: the body and the unread input, a connection closed
      before the lone dot, or a line that is not UTF-8 (a read error). */
  datatype Received = Received(body: seq<Byte>, rest: seq<Byte>) | Closed | NotText

  predicate IsTerminator(line: seq<Byte>) {
    TrimEndMatches(TrimEndMatches(line, CRLF), [LF]) == [DOT]
  }

  function Unstuffed(line: seq<Byte>): seq<Byte> {
    if |line| >= 2 && line[..2] == [DOT, DOT] then line[1..] else line
  }

  function Prepend(acc: seq<Byte>, r: Received): Received {
    if r.Received? then Received(acc + r.body, r.rest) else r
  }

  function ReadData(s: seq<Byte>): Received
    decreases |s|
  {
    if s == [] then Closed
    else
      var n := LineLen(s);
      if !Valid(s[..n]) then NotText
      else if IsTerminator(s[..n]) then Received([], s[n..])
      else Prepend(Unstuffed(s[..n]), ReadData(s[n..]))
  }

  lemma {:induction false} ReadDataConsumes(s: seq<Byte>)
    ensures ReadData(s).Received? ==> |ReadData(s).rest| < |s|
    decreases |s|
  {
    if s != [] && !IsTerminator(s[..LineLen(s)]) {
      ReadDataConsumes(s[LineLen(s)..]);
    }
  }

  lemma ReadDataIs(s: seq<Byte>)
    ensures ReadData(s) ==
      if s == [] then Closed
      else
        var n := LineLen(s);
        if !Valid(s[..n]) then NotText
        else if IsTerminator(s[..n]) then Received([], s[n..])
        else Prepend(Unstuffed(s[..n]), ReadData(s[n..]))
  {
    hide Valid, LineLen, IsTerminator, Unstuffed, Prepend;
  }

  lemma PrependTwice(a: seq<Byte>, b: seq<Byte>, r: Received)
    ensures Prepend(a, Prepend(b, r)) == Prepend(a + b, r) && Prepend([], r) == r
  {
    if r.Received? {
      Assoc(a, b, r.body);
      assert [] + r.body == r.body;
    }
  }

  /** The DATA loop of the receiver. */
  method ReceiveData(stream: seq<Byte>) returns (r: Received)
    ensures r == ReadData(stream)
  {
    hide ReadData, Valid, LineLen, IsTerminator, Unstuffed;
    var messageData: seq<Byte> := [];
    var rest := stream;
    PrependTwice([], [], ReadData(stream));
    while true
      invariant ReadData(stream) == Prepend(messageData, ReadData(rest))
      decreases |rest|
    {
      var n := LineLen(rest);
      var line := rest[..n];
      ReadDataIs(rest);
      if n == 0 {
        return Closed;
      }
      if !Valid(line) {
        return NotText;
      }
      if IsTerminator(line) {
        return Received(messageData + [], rest[n..]);
      }
      var bytes := Unstuffed(line);
      PrependTwice(messageData, bytes, ReadData(rest[n..]));
      messageData := messageData + bytes;
      rest := rest[n..];
    }
  }

  // ---- The two together ----

  /** Each segment without its trailing CR, ended by CRLF: what one hop makes of a message. */
  function Normalize(m: seq<Byte>): seq<Byte>
    decreases |m|
  {
    var n := LineLen(m);
    if n > 0 && m[n - 1] == LF then StripCr(m[..n - 1]) + CRLF + Normalize(m[n..])
    else StripCr(m) + CRLF
  }

  lemma ValidStripCr(l: seq<Byte>)
    ensures Valid(StripCr(l)) <==> Valid(l)
  {
    if l != [] && l[|l| - 1] == CR {
      ValidAround(StripCr(l), CR, []);
      assert StripCr(l) + [CR] + [] == l;
    }
  }

  /** A line of the shape the sender writes is no lone dot unless its text is one. */
  lemma TrimmedLine(x: seq<Byte>)
    requires LF !in x
    ensures IsTerminator(x + CRLF) <==> x == [DOT]
  {
    TakeDrop(x, CRLF);
    assert TrimEndMatches(x, CRLF) == x by {
      assert |x| >= 2 ==> x[|x| - 2..][1] in x;
    }
    assert TrimEndMatches(x, [LF]) == x by {
      assert |x| >= 1 ==> x[|x| - 1..][0] in x;
    }
  }

  lemma LineOnWire(x: seq<Byte>, rest: seq<Byte>)
    requires LF !in x
    ensures LineLen(x + CRLF + rest) == |x| + 2
  {
    LineLenAt(x + [CR], rest);
    assert x + CRLF + rest == (x + [CR]) + [LF] + rest;
  }

  lemma StuffedText(l: seq<Byte>)
    requires LF !in l
    ensures LF !in Stuffed(l) && Stuffed(l) != [DOT]
    ensures Valid(Stuffed(l)) <==> Valid(l)
    ensures Unstuffed(Stuffed(l) + CRLF) == l + CRLF
  {
    hide Valid;
    ValidAround([], DOT, l);
    assert [] + [DOT] + l == [DOT] + l;
    assert Valid([]) by { EmptyValid(); }
    if StartsWithDot(l) {
      Assoc([DOT], l, CRLF);
      TakeDrop([DOT], l + CRLF);
    } else {
      assert (l + CRLF)[..2][0] == if l == [] then CR else l[0];
    }
  }

  lemma EmptyValid()
    ensures Valid([])
  {
  }

  /** One wire line is read back as one line, never taken for the lone dot, and unstuffed. */
  lemma WireLineRead(seg: seq<Byte>, rest: seq<Byte>)
    requires LF !in seg
    ensures var w := WireLine(seg);
      && LineLen(w + rest) == |w|
      && (Valid(w) <==> Valid(seg))
      && !IsTerminator(w)
      && Unstuffed(w) == StripCr(seg) + CRLF
  {
    hide Valid, IsTerminator, Unstuffed, LineLen;
    var l := StripCr(seg);
    StuffedText(l);
    LineOnWire(Stuffed(l), rest);
    TrimmedLine(Stuffed(l));
    ValidStripCr(seg);
    ValidCrlf(Stuffed(l));
  }

  lemma DotRead(rest: seq<Byte>)
    ensures ReadData([DOT] + CRLF + rest) == Received([], rest)
  {
    LineOnWire([DOT], rest);
    TrimmedLine([DOT]);
    TakeDrop([DOT] + CRLF, rest);
    ValidCrlf([DOT]);
    assert Valid([DOT]);
  }

  lemma ReadOne(w: seq<Byte>, rest: seq<Byte>)
    requires w != [] && LineLen(w + rest) == |w| && !IsTerminator(w)
    ensures ReadData(w + rest) == if Valid(w) then Prepend(Unstuffed(w), ReadData(rest)) else NotText
  {
    TakeDrop(w, rest);
  }

  lemma SegmentRead(seg: seq<Byte>, wire: seq<Byte>, rest: seq<Byte>)
    requires LF !in seg
    ensures ReadData(WireLine(seg) + wire + rest)
         == if Valid(seg) then Prepend(StripCr(seg) + CRLF, ReadData(wire + rest)) else NotText
  {
    WireLineRead(seg, wire + rest);
    Assoc(WireLine(seg), wire, rest);
    hide ReadData, IsTerminator, Valid;
    ReadOne(WireLine(seg), wire + rest);
  }

  /** Framing and round trip, exactly: the DATA loop run on the sender's output followed by
      any bytes stops at the sender's own dot with the following bytes unread, and yields the
      normalised message, if and only if the message is valid UTF-8; otherwise the loop fails. */
  lemma {:induction false} RoundTrip(m: seq<Byte>, rest: seq<Byte>)
    ensures ReadData(Encode(m) + rest) == if Valid(m) then Received(Normalize(m), rest) else NotText
    decreases |m|
  {
    hide ReadData, Valid, WireLine, StripCr;
    var n := LineLen(m);
    if n > 0 && m[n - 1] == LF {
      var seg, m' := m[..n - 1], m[n..];
      assert m == seg + [LF] + m';
      ValidAround(seg, LF, m');
      RoundTrip(m', rest);
      SegmentRead(seg, Encode(m'), rest);
    } else {
      SegmentRead(m, [DOT] + CRLF, rest);
      DotRead(rest);
      assert StripCr(m) + CRLF + [] == StripCr(m) + CRLF;
    }
  }

  lemma ValidLineThen(l: seq<Byte>, t: seq<Byte>)
    ensures Valid(l + CRLF + t) <==> Valid(l) && Valid(t)
  {
    ValidAround(l + [CR], LF, t);
    ValidAround(l, CR, []);
    assert l + [CR] + [] == l + [CR] && l + CRLF + t == (l + [CR]) + [LF] + t;
  }

  lemma {:induction false} NormalizeValid(m: seq<Byte>)
    ensures Valid(Normalize(m)) <==> Valid(m)
    decreases |m|
  {
    hide Valid, StripCr;
    var n := LineLen(m);
    if n > 0 && m[n - 1] == LF {
      NormalizeValid(m[n..]);
      ValidAround(m[..n - 1], LF, m[n..]);
      assert m == m[..n - 1] + [LF] + m[n..];
      ValidStripCr(m[..n - 1]);
      ValidLineThen(StripCr(m[..n - 1]), Normalize(m[n..]));
    } else {
      ValidStripCr(m);
      ValidCrlf(StripCr(m));
    }
  }

  lemma NormalizeLine(l: seq<Byte>, t: seq<Byte>)
    requires LF !in l
    ensures Normalize(l + CRLF + t) == l + CRLF + Normalize(t)
  {
    var s := l + CRLF + t;
    assert s == (l + [CR]) + [LF] + t;
    LineLenAt(l + [CR], t);
    assert s[..|l| + 1] == l + [CR] && s[|l| + 2..] == t;
    assert StripCr(l + [CR]) == l;
  }

  lemma StripCrNoLf(l: seq<Byte>)
    requires LF !in l
    ensures LF !in StripCr(l)
  {
  }

  /** A normalised message is a fixed point of the next hop, up to what follows it. */
  lemma {:induction false} NormalizeAgain(m: seq<Byte>, t: seq<Byte>)
    ensures Normalize(Normalize(m) + t) == Normalize(m) + Normalize(t)
    decreases |m|
  {
    var n := LineLen(m);
    var seg := if n > 0 && m[n - 1] == LF then m[..n - 1] else m;
    StripCrNoLf(seg);
    var l := StripCr(seg);
    var body := if n > 0 && m[n - 1] == LF then Normalize(m[n..]) else [];
    assert Normalize(m) == l + CRLF + body by {
      assert l + CRLF + [] == l + CRLF;
    }
    hide StripCr, LineLen;
    if n > 0 && m[n - 1] == LF {
      NormalizeAgain(m[n..], t);
    } else {
      assert body + t == t && body + Normalize(t) == Normalize(t);
    }
    hide Normalize;
    Assoc(l + CRLF, body, t);
    NormalizeLine(l, body + t);
    Assoc(l + CRLF, body, Normalize(t));
  }

  lemma {:induction false} NormalizeCrlfs(j: nat)
    ensures Normalize(Repeat(CRLF, j)) == Repeat(CRLF, j + 1)
  {
    hide Normalize;
    if j == 0 {
      assert Normalize([]) == CRLF + [] by { OneEmptySegment(); }
    } else {
      NormalizeCrlfs(j - 1);
      NormalizeLine([], Repeat(CRLF, j - 1));
      assert [] + CRLF == CRLF;
    }
  }

  lemma OneEmptySegment()
    ensures Normalize([]) == CRLF + []
  {
  }

  /** A message sent and received `k` times in a row, unsigned. */
  function Hops(m: seq<Byte>, k: nat): Received {
    if k == 0 then Received(m, [])
    else
      var before := Hops(m, k - 1);
      if before.Received? then ReadData(Encode(before.body)) else before
  }

  lemma HopOnce(m: seq<Byte>)
    requires Valid(m)
    ensures ReadData(Encode(m)) == Received(Normalize(m), [])
  {
    hide ReadData, Encode, Normalize, Valid;
    RoundTrip(m, []);
    assert Encode(m) + [] == Encode(m);
  }

  /** `k` hops give the one-hop message and exactly `k - 1` further CRLFs. */
  lemma {:induction false} HopsGrow(m: seq<Byte>, k: nat)
    requires k >= 1 && Valid(m)
    ensures Hops(m, k) == Received(Normalize(m) + Repeat(CRLF, k - 1), [])
    ensures Valid(Normalize(m) + Repeat(CRLF, k - 1))
  {
    hide ReadData, Encode, Normalize, Valid;
    if k == 1 {
      HopOnce(m);
      NormalizeValid(m);
      assert Normalize(m) + [] == Normalize(m);
      assert Hops(m, 0) == Received(m, []);
    } else {
      HopsGrow(m, k - 1);
      var b := Normalize(m) + Repeat(CRLF, k - 2);
      HopOnce(b);
      NormalizeAgain(m, Repeat(CRLF, k - 2));
      NormalizeCrlfs(k - 2);
      NormalizeValid(b);
    }
  }
}
