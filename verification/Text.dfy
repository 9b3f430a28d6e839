/** Splitting text at a separator, as Rust's `str::split` does, and putting it back together. */
module Text {

  /** Length of the text before the first separator. */
  function Cut(s: string, sep: char): (n: nat)
    ensures n <= |s|
  {
    if s == "" || s[0] == sep then 0 else 1 + Cut(s[1..], sep)
  }

  /** The pieces between separators, never none. */
  function Split(s: string, sep: char): (r: seq<string>)
    ensures r != []
    decreases |s|
  {
    var n := Cut(s, sep);
    if n == |s| then [s] else [s[..n]] + Split(s[n + 1..], sep)
  }

  lemma {:induction false} CutAt(a: string, sep: char, s: string)
    ensures Cut(a + [sep] + s, sep) == Cut(a, sep)
  {
    if a != "" {
      assert (a + [sep] + s)[1..] == a[1..] + [sep] + s;
      CutAt(a[1..], sep, s);
    }
  }

  lemma {:induction false} CutPlain(s: string, sep: char)
    ensures sep !in s[..Cut(s, sep)]
    ensures sep !in s ==> Cut(s, sep) == |s|
  {
    if s != "" && s[0] != sep {
      CutPlain(s[1..], sep);
      var n := Cut(s, sep);
      assert s[..n] == [s[0]] + s[1..][..n - 1];
    }
  }

  /** No piece has a separator in it. */
  lemma {:induction false} SplitPieces(s: string, sep: char)
    ensures forall i :: 0 <= i < |Split(s, sep)| ==> sep !in Split(s, sep)[i]
    decreases |s|
  {
    hide Cut;
    CutPlain(s, sep);
    var n := Cut(s, sep);
    if n == |s| {
      assert s[..n] == s;
    } else {
      SplitPieces(s[n + 1..], sep);
    }
  }

  lemma SplitPlain(s: string, sep: char)
    requires sep !in s
    ensures Split(s, sep) == [s]
  {
    CutPlain(s, sep);
  }

  /** Splitting distributes over a separator. */
  lemma {:induction false} SplitSeam(a: string, sep: char, s: string)
    ensures Split(a + [sep] + s, sep) == Split(a, sep) + Split(s, sep)
    decreases |a|
  {
    hide Cut;
    CutAt(a, sep, s);
    var n := Cut(a, sep);
    var t := a + [sep] + s;
    if n == |a| {
      assert t[..n] == a && t[n + 1..] == s;
      assert Split(t, sep) == [a] + Split(s, sep);
    } else {
      assert t[..n] == a[..n] && t[n + 1..] == a[n + 1..] + [sep] + s;
      SplitSeam(a[n + 1..], sep, s);
    }
  }

  lemma {:induction false} CutPrefix(p: string, a: string, sep: char)
    requires sep !in p
    ensures Cut(p + a, sep) == |p| + Cut(a, sep)
  {
    if p == "" {
      assert p + a == a;
    } else {
      assert (p + a)[1..] == p[1..] + a;
      CutPrefix(p[1..], a, sep);
    }
  }

  /** A prefix without separators goes to the first piece. */
  lemma SplitPrefix(p: string, a: string, sep: char)
    requires sep !in p
    ensures Split(p + a, sep) == [p + Split(a, sep)[0]] + Split(a, sep)[1..]
  {
    hide Cut;
    CutPrefix(p, a, sep);
    var n, m, t := Cut(a, sep), |p|, p + a;
    if n < |a| {
      assert t[..m + n] == p + a[..n] && t[m + n + 1..] == a[n + 1..];
    }
  }

  // ---- White space ----

  /** The characters of Unicode's White_Space. */
  predicate IsSpace(c: char) {
    || '\U{0009}' <= c <= '\U{000D}' || c == ' ' || c == '\U{0085}' || c == '\U{00A0}' || c == '\U{1680}'
    || '\U{2000}' <= c <= '\U{200A}' || c == '\U{2028}' || c == '\U{2029}' || c == '\U{202F}' || c == '\U{205F}'
    || c == '\U{3000}'
  }

  function TrimStart(s: string): string { if s != "" && IsSpace(s[0]) then TrimStart(s[1..]) else s }

  function TrimEnd(s: string): string {
    if s != "" && IsSpace(s[|s| - 1]) then TrimEnd(s[..|s| - 1]) else s
  }

  function Trim(s: string): string { TrimEnd(TrimStart(s)) }

  predicate Trimmed(s: string) { s == "" || (!IsSpace(s[0]) && !IsSpace(s[|s| - 1])) }

  lemma {:induction false} TrimStartIs(s: string)
    ensures var t := TrimStart(s); (t == "" || !IsSpace(t[0])) && forall c :: c in t ==> c in s
  {
    if s != "" && IsSpace(s[0]) {
      TrimStartIs(s[1..]);
    }
  }

  lemma {:induction false} TrimEndIs(s: string)
    requires s == "" || !IsSpace(s[0])
    ensures Trimmed(TrimEnd(s)) && forall c :: c in TrimEnd(s) ==> c in s
  {
    if s != "" && IsSpace(s[|s| - 1]) {
      TrimEndIs(s[..|s| - 1]);
    }
  }

  lemma {:induction false} TrimEndKeeps(p: string, s: string)
    requires p != "" && !IsSpace(p[|p| - 1])
    ensures p <= TrimEnd(p + s)
  {
    var t := p + s;
    if s != "" && IsSpace(s[|s| - 1]) {
      assert t[..|t| - 1] == p + s[..|s| - 1];
      TrimEndKeeps(p, s[..|s| - 1]);
    }
  }

  /** Trimming leaves no outer white space and adds no character; trimmed text stays as it is, also after a
      blank put before it. */
  lemma TrimIs(s: string)
    ensures Trimmed(Trim(s)) && forall c :: c in Trim(s) ==> c in s
    ensures Trimmed(s) ==> Trim(s) == s
    ensures Trim([' '] + s) == Trim(s)
  {
    TrimStartIs(s);
    TrimEndIs(TrimStart(s));
    assert ([' '] + s)[1..] == s;
  }
}
