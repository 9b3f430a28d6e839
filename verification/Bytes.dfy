/** Byte strings, the lines in them, and UTF-8 validity.
    The relay reads every SMTP line into a UTF-8 string, so a line that is not
    valid UTF-8 is a read error; `Valid` is the test that read makes. */
module Bytes {
  newtype Byte = b: int | 0 <= b < 256

  const LF: Byte := 10
  const CR: Byte := 13
  const SP: Byte := 32
  const DASH: Byte := 45
  const DOT: Byte := 46
  const CRLF: seq<Byte> := [13, 10]

  /** Length of the first line of `s` with its LF, or of all of `s` if it has none. */
  function LineLen(s: seq<Byte>): (n: nat)
    ensures n <= |s|
    ensures s != [] ==> n > 0
    ensures forall i :: 0 <= i < n - 1 ==> s[i] != LF
    ensures n < |s| ==> n > 0 && s[n - 1] == LF
  {
    if s == [] then 0 else if s[0] == LF then 1 else 1 + LineLen(s[1..])
  }

  lemma LineLenAt(l: seq<Byte>, rest: seq<Byte>)
    requires LF !in l
    ensures LineLen(l + [LF] + rest) == |l| + 1
  {
    assert (l + [LF] + rest)[|l|] == LF;
  }

  lemma Assoc<T>(a: seq<T>, b: seq<T>, c: seq<T>)
    ensures a + b + c == a + (b + c)
  {
  }

  lemma TakeDrop<T>(a: seq<T>, b: seq<T>)
    ensures (a + b)[..|a|] == a && (a + b)[|a|..] == b
  {
  }

  /** Rust's `trim_end_matches`: drops `p` from the end as often as it is there. */
  function TrimEndMatches(s: seq<Byte>, p: seq<Byte>): seq<Byte>
    requires p != []
    decreases |s|
  {
    if |s| >= |p| && s[|s| - |p|..] == p then TrimEndMatches(s[..|s| - |p|], p) else s
  }

  function Repeat(s: seq<Byte>, k: nat): seq<Byte> {
    if k == 0 then [] else s + Repeat(s, k - 1)
  }

  predicate Continuation(b: Byte) { 0x80 <= b < 0xC0 }

  /** Number of bytes of the UTF-8 sequence at the head of `s`, 0 if it is ill-formed
      (the byte ranges of section 4 of RFC 3629). */
  function HeadLen(s: seq<Byte>): (n: nat)
    ensures n <= |s|
  {
    if s == [] then 0
    else if s[0] < 0x80 then 1
    else if 0xC2 <= s[0] < 0xE0 then
      if |s| >= 2 && Continuation(s[1]) then 2 else 0
    else if 0xE0 <= s[0] < 0xF0 then
      if |s| >= 3 && Continuation(s[1]) && Continuation(s[2])
         && (s[0] == 0xE0 ==> 0xA0 <= s[1]) && (s[0] == 0xED ==> s[1] < 0xA0) then 3 else 0
    else if 0xF0 <= s[0] < 0xF5 then
      if |s| >= 4 && Continuation(s[1]) && Continuation(s[2]) && Continuation(s[3])
         && (s[0] == 0xF0 ==> 0x90 <= s[1]) && (s[0] == 0xF4 ==> s[1] < 0x90) then 4 else 0
    else 0
  }

  predicate Valid(s: seq<Byte>)
    decreases |s|
  {
    s == [] || (HeadLen(s) > 0 && Valid(s[HeadLen(s)..]))
  }

  lemma HeadLenBefore(a: seq<Byte>, c: Byte, b: seq<Byte>)
    requires a != [] && c < 0x80
    ensures HeadLen(a + [c] + b) == HeadLen(a)
  {
    var s := a + [c] + b;
    assert s[0] == a[0] && s[|a|] == c && |s| > |a|;
    assert |a| > 1 ==> s[1] == a[1];
    assert |a| > 2 ==> s[2] == a[2];
    assert |a| > 3 ==> s[3] == a[3];
  }

  /** An ASCII byte ends any UTF-8 sequence, so validity splits at it. */
  lemma {:induction false} ValidAround(a: seq<Byte>, c: Byte, b: seq<Byte>)
    requires c < 0x80
    ensures Valid(a + [c] + b) <==> Valid(a) && Valid(b)
    decreases |a|
  {
    var s := a + [c] + b;
    if a == [] {
      assert s[1..] == b;
    } else {
      HeadLenBefore(a, c, b);
      var n := HeadLen(a);
      if n > 0 {
        ValidAround(a[n..], c, b);
        assert s[n..] == a[n..] + [c] + b;
      }
    }
  }

  lemma ValidCrlf(a: seq<Byte>)
    ensures Valid(a + CRLF) <==> Valid(a)
  {
    ValidAround(a, CR, [LF]);
    ValidAround([], LF, []);
    assert a + [CR] + [LF] == a + CRLF && [] + [LF] + [] == [LF];
  }

  // ---- Text ----

  /** ASCII upper case. */
  function UpperByte(b: Byte): Byte { if 97 <= b <= 122 then b - 32 else b }

  predicate StartsWith(s: seq<Byte>, p: seq<Byte>) { |s| >= |p| && s[..|p|] == p }

  /** Length of the white-space character (Unicode White_Space, in UTF-8) at the head of `s`, or 0. */
  function LeadingSpace(s: seq<Byte>): (n: nat)
    ensures n <= |s|
  {
    if |s| >= 1 && (9 <= s[0] <= 13 || s[0] == 32) then 1
    else if |s| >= 2 && s[0] == 0xC2 && (s[1] == 0x85 || s[1] == 0xA0) then 2
    else if |s| >= 3 && WideSpace(s[0], s[1], s[2]) then 3
    else 0
  }

  function TrailingSpace(s: seq<Byte>): (n: nat)
    ensures n <= |s|
  {
    var e := |s|;
    if e >= 1 && (9 <= s[e - 1] <= 13 || s[e - 1] == 32) then 1
    else if e >= 2 && s[e - 2] == 0xC2 && (s[e - 1] == 0x85 || s[e - 1] == 0xA0) then 2
    else if e >= 3 && WideSpace(s[e - 3], s[e - 2], s[e - 1]) then 3
    else 0
  }

  /** U+1680, U+2000-200A, U+2028, U+2029, U+202F, U+205F and U+3000. */
  predicate WideSpace(a: Byte, b: Byte, c: Byte) {
    || (a == 0xE1 && b == 0x9A && c == 0x80)
    || (a == 0xE2 && b == 0x80 && (0x80 <= c <= 0x8A || c == 0xA8 || c == 0xA9 || c == 0xAF))
    || (a == 0xE2 && b == 0x81 && c == 0x9F)
    || (a == 0xE3 && b == 0x80 && c == 0x80)
  }

  function TrimStart(s: seq<Byte>): seq<Byte>
    decreases |s|
  {
    if LeadingSpace(s) > 0 then TrimStart(s[LeadingSpace(s)..]) else s
  }

  function TrimEnd(s: seq<Byte>): seq<Byte>
    decreases |s|
  {
    if TrailingSpace(s) > 0 then TrimEnd(s[..|s| - TrailingSpace(s)]) else s
  }

  /** Rust's `str::trim`. */
  function Trim(s: seq<Byte>): seq<Byte> { TrimEnd(TrimStart(s)) }

  predicate Visible(b: Byte) { 33 <= b <= 126 }

  /** Text between visible ASCII characters is untouched, and a line ending after it goes. */
  lemma TrimVisible(s: seq<Byte>)
    requires s != [] && Visible(s[0]) && Visible(s[|s| - 1])
    ensures Trim(s) == s && Trim(s + CRLF) == s
  {
    var t := s + CRLF;
    assert TrimStart(t) == t;
    assert t[..|t| - 1] == s + [CR];
    assert (s + [CR])[..|s|] == s;
    assert TrimEnd(s + [CR]) == TrimEnd(s) == s;
  }

  lemma {:induction false} TrimEndKeeps(s: seq<Byte>, k: nat)
    requires k < |s| && Visible(s[k])
    ensures k < |TrimEnd(s)| <= |s| && TrimEnd(s) == s[..|TrimEnd(s)|]
    decreases |s|
  {
    var n := TrailingSpace(s);
    if n > 0 {
      assert k < |s| - n;
      TrimEndKeeps(s[..|s| - n], k);
    }
  }

  lemma {:induction false} AsciiValid(s: seq<Byte>)
    requires forall i :: 0 <= i < |s| ==> s[i] < 0x80
    ensures Valid(s)
  {
    if s != [] {
      AsciiValid(s[1..]);
    }
  }

  /** Text cut before a byte that begins a character is text. */
  lemma {:induction false} ValidPrefix(a: seq<Byte>, b: seq<Byte>)
    requires Valid(a + b) && b != [] && !Continuation(b[0])
    ensures Valid(a)
    decreases |a|
  {
    if a != [] {
      var n := HeadLen(a + b);
      assert (a + b)[0] == a[0] && (a + b)[|a|] == b[0];
      assert |a| > 1 ==> (a + b)[1] == a[1];
      assert |a| > 2 ==> (a + b)[2] == a[2];
      assert |a| > 3 ==> (a + b)[3] == a[3];
      assert n <= |a| && HeadLen(a) == n;
      assert (a + b)[n..] == a[n..] + b;
      ValidPrefix(a[n..], b);
    }
  }

  lemma {:induction false} DropAscii(s: seq<Byte>, k: nat)
    requires Valid(s) && k <= |s| && forall i :: 0 <= i < k ==> s[i] < 0x80
    ensures Valid(s[k..])
  {
    if k == 0 {
      assert s[0..] == s;
    } else {
      DropAscii(s[1..], k - 1);
      assert s[1..][k - 1..] == s[k..];
    }
  }

  lemma {:induction false} TrimStartValid(s: seq<Byte>)
    requires Valid(s)
    ensures Valid(TrimStart(s))
    decreases |s|
  {
    hide Valid;
    var n := LeadingSpace(s);
    if n > 0 {
      assert HeadLen(s) == n;
      assert Valid(s[n..]) by { ValidTail(s); }
      TrimStartValid(s[n..]);
    }
  }

  lemma ValidTail(s: seq<Byte>)
    requires Valid(s) && s != []
    ensures Valid(s[HeadLen(s)..])
  {
  }

  lemma {:induction false} TrimEndValid(s: seq<Byte>)
    requires Valid(s)
    ensures Valid(TrimEnd(s))
    decreases |s|
  {
    hide Valid;
    var n := TrailingSpace(s);
    if n > 0 {
      var a, b := s[..|s| - n], s[|s| - n..];
      assert s == a + b && !Continuation(b[0]);
      ValidPrefix(a, b);
      TrimEndValid(a);
    }
  }

  /** An LF, if there is one, is at the end. */
  predicate OneLf(s: seq<Byte>) { forall i :: 0 <= i < |s| - 1 ==> s[i] != LF }

  lemma {:induction false} TrimStartLf(s: seq<Byte>)
    requires OneLf(s)
    ensures OneLf(TrimStart(s))
    decreases |s|
  {
    if LeadingSpace(s) > 0 {
      TrimStartLf(s[LeadingSpace(s)..]);
    }
  }

  lemma {:induction false} TrimEndLf(s: seq<Byte>)
    requires OneLf(s)
    ensures LF !in TrimEnd(s)
    decreases |s|
  {
    var n := TrailingSpace(s);
    if n > 0 {
      TrimEndLf(s[..|s| - n]);
    }
  }

  /** A trimmed line is text without a line end. */
  lemma TrimLine(s: seq<Byte>)
    requires Valid(s) && OneLf(s)
    ensures Valid(Trim(s)) && LF !in Trim(s)
  {
    hide Valid, OneLf, TrimStart, TrimEnd;
    TrimStartValid(s);
    TrimEndValid(TrimStart(s));
    TrimStartLf(s);
    TrimEndLf(TrimStart(s));
  }
}
