/** The string a JA3 fingerprint is the hash of (serverwall-core/src/tls/ja3.rs, `hash_params` up to
    the MD5 call). */
module Ja3Text {
  import opened Bytes
  import opened Ja3
  import opened Options

  function DigitChar(d: nat): char
    requires d < 10
  {
    ('0' as int + d) as char
  }

  function Digits(n: nat): string {
    if n < 10 then [DigitChar(n)] else Digits(n / 10) + [DigitChar(n % 10)]
  }

  /** Decimal numbers joined by hyphens. */
  function ListText(ns: seq<nat>): string {
    if ns == [] then ""
    else if |ns| == 1 then Digits(ns[0])
    else Digits(ns[0]) + "-" + ListText(ns[1..])
  }

  function Nats(vs: seq<U16>): seq<nat> { seq(|vs|, i requires 0 <= i < |vs| => vs[i] as nat) }

  function Nats8(vs: seq<Byte>): seq<nat> { seq(|vs|, i requires 0 <= i < |vs| => vs[i] as nat) }

  function Text(p: Params): string {
    Digits(p.version as nat) + "," + (ListText(Nats(p.ciphers)) + "," + (ListText(Nats(p.extensions)) + ","
      + (ListText(Nats(p.groups)) + "," + ListText(Nats8(p.formats)))))
  }

  predicate IsDigits(s: string) { s != "" && forall i :: 0 <= i < |s| ==> '0' <= s[i] <= '9' }

  lemma {:induction false} DigitsShape(n: nat)
    ensures IsDigits(Digits(n))
  {
    if n >= 10 {
      DigitsShape(n / 10);
    }
  }

  /** Reads a decimal number back. */
  function Value(s: string): int {
    if s == "" then 0 else 10 * Value(s[..|s| - 1]) + (s[|s| - 1] as int - '0' as int)
  }

  lemma {:induction false} ValueOfDigits(n: nat)
    ensures Value(Digits(n)) == n
  {
    if n < 10 {
      assert Digits(n)[..0] == "";
    } else {
      ValueOfDigits(n / 10);
      assert Digits(n)[..|Digits(n)| - 1] == Digits(n / 10);
    }
  }

  lemma DigitsInjective(m: nat, n: nat)
    requires Digits(m) == Digits(n)
    ensures m == n
  {
    ValueOfDigits(m);
    ValueOfDigits(n);
  }

  lemma SplitUnique(a: string, x: string, b: string, y: string, c: char)
    requires c !in a && c !in b && a + [c] + x == b + [c] + y
    ensures a == b && x == y
  {
    var s := a + [c] + x;
    assert s[|a|] == c && s[|b|] == c;
    assert |a| == |b|;
    assert a == s[..|a|] && b == s[..|b|] && x == s[|a| + 1..] && y == s[|b| + 1..];
  }

  lemma {:induction false} ListShape(ns: seq<nat>)
    ensures ns != [] ==> ListText(ns) != ""
    ensures ',' !in ListText(ns)
  {
    if ns != [] {
      DigitsShape(ns[0]);
      ListShape(ns[1..]);
    }
  }

  lemma NoHyphen(n: nat)
    ensures '-' !in Digits(n) && ',' !in Digits(n)
  {
    DigitsShape(n);
  }

  lemma {:induction false} ListInjective(ms: seq<nat>, ns: seq<nat>)
    requires ListText(ms) == ListText(ns)
    ensures ms == ns
  {
    ListShape(ms);
    ListShape(ns);
    if ms != [] && ns != [] {
      NoHyphen(ms[0]);
      NoHyphen(ns[0]);
      hide Digits;
      if |ms| == 1 || |ns| == 1 {
        assert |ms| > 1 ==> '-' in ListText(ms) by { if |ms| > 1 { HasHyphen(ms); } }
        assert |ns| > 1 ==> '-' in ListText(ns) by { if |ns| > 1 { HasHyphen(ns); } }
        DigitsInjective(ms[0], ns[0]);
      } else {
        SplitUnique(Digits(ms[0]), ListText(ms[1..]), Digits(ns[0]), ListText(ns[1..]), '-');
        DigitsInjective(ms[0], ns[0]);
        ListInjective(ms[1..], ns[1..]);
        assert ms == [ms[0]] + ms[1..] && ns == [ns[0]] + ns[1..];
      }
    }
  }

  lemma HasHyphen(ns: seq<nat>)
    requires |ns| > 1
    ensures '-' in ListText(ns)
  {
    hide Digits;
    assert ListText(ns)[|Digits(ns[0])|] == '-';
  }

  lemma NatsInjective(a: seq<U16>, b: seq<U16>)
    requires Nats(a) == Nats(b)
    ensures a == b
  {
    forall i | 0 <= i < |a| ensures i < |b| && a[i] == b[i] {
      assert Nats(a)[i] == Nats(b)[i];
    }
    assert |Nats(a)| == |a| && |Nats(b)| == |b|;
  }

  lemma Nats8Injective(a: seq<Byte>, b: seq<Byte>)
    requires Nats8(a) == Nats8(b)
    ensures a == b
  {
    forall i | 0 <= i < |a| ensures i < |b| && a[i] == b[i] {
      assert Nats8(a)[i] == Nats8(b)[i];
    }
    assert |Nats8(a)| == |a| && |Nats8(b)| == |b|;
  }

  /** The string determines the parameters: no two parameter records share one. */
  lemma TextInjective(p: Params, q: Params)
    ensures Text(p) == Text(q) <==> p == q
  {
    hide ListText, Digits, Nats, Nats8;
    if Text(p) == Text(q) {
      NoHyphen(p.version as nat);
      NoHyphen(q.version as nat);
      FieldsShape(p);
      FieldsShape(q);
      var p4, q4 := ListText(Nats8(p.formats)), ListText(Nats8(q.formats));
      var p3, q3 := ListText(Nats(p.groups)), ListText(Nats(q.groups));
      var p2, q2 := ListText(Nats(p.extensions)), ListText(Nats(q.extensions));
      var p1, q1 := ListText(Nats(p.ciphers)), ListText(Nats(q.ciphers));
      SplitUnique(Digits(p.version as nat), p1 + "," + (p2 + "," + (p3 + "," + p4)),
                  Digits(q.version as nat), q1 + "," + (q2 + "," + (q3 + "," + q4)), ',');
      SplitUnique(p1, p2 + "," + (p3 + "," + p4), q1, q2 + "," + (q3 + "," + q4), ',');
      SplitUnique(p2, p3 + "," + p4, q2, q3 + "," + q4, ',');
      SplitUnique(p3, p4, q3, q4, ',');
      DigitsInjective(p.version as nat, q.version as nat);
      ListInjective(Nats(p.ciphers), Nats(q.ciphers));
      ListInjective(Nats(p.extensions), Nats(q.extensions));
      ListInjective(Nats(p.groups), Nats(q.groups));
      ListInjective(Nats8(p.formats), Nats8(q.formats));
      NatsInjective(p.ciphers, q.ciphers);
      NatsInjective(p.extensions, q.extensions);
      NatsInjective(p.groups, q.groups);
      Nats8Injective(p.formats, q.formats);
    }
  }

  lemma FieldsShape(p: Params)
    ensures ',' !in ListText(Nats(p.ciphers)) && ',' !in ListText(Nats(p.extensions))
    ensures ',' !in ListText(Nats(p.groups))
  {
    ListShape(Nats(p.ciphers));
    ListShape(Nats(p.extensions));
    ListShape(Nats(p.groups));
  }

  // ---- GREASE does not show ----

  /** The text of the fingerprint of some bytes, if they start with a ClientHello. */
  function Fingerprint(data: seq<Byte>): Option<string> {
    match Parse(data)
    case None => None
    case Some(p) => Some(Text(p))
  }

  /** `ys` is `xs` with one GREASE value put in somewhere. */
  ghost predicate Greased(xs: seq<U16>, ys: seq<U16>) {
    exists i, g :: 0 <= i <= |xs| && IsGrease(g) && ys == xs[..i] + [g] + xs[i..]
  }

  /** `fs` is `es` with a GREASE extension put in, or with a GREASE value put into one list of groups. */
  ghost predicate GreasedExts(es: seq<Ext>, fs: seq<Ext>) {
    || (exists i, g, data :: 0 <= i <= |es| && IsGrease(g) && fs == es[..i] + [Other(g, data)] + es[i..])
    || (exists i, groups :: 0 <= i < |es| && es[i].SupportedGroups? && Greased(es[i].groups, groups)
          && fs == es[i := SupportedGroups(groups)])
  }

  /** `h'` offers what `h` offers and one piece of GREASE. */
  ghost predicate GreasedHello(h: Hello, h': Hello) {
    || (Greased(h.ciphers, h'.ciphers) && h' == h.(ciphers := h'.ciphers))
    || (h.exts.Some? && h'.exts.Some? && GreasedExts(h.exts.value, h'.exts.value) && h' == h.(exts := h'.exts))
  }

  lemma {:induction false} StripConcat(xs: seq<U16>, ys: seq<U16>)
    ensures Strip(xs + ys) == Strip(xs) + Strip(ys)
  {
    hide IsGrease;
    if xs == [] {
      assert xs + ys == ys;
    } else {
      StripConcat(xs[1..], ys);
      assert (xs + ys)[1..] == xs[1..] + ys;
      Assoc(if IsGrease(xs[0]) then [] else [xs[0]], Strip(xs[1..]), Strip(ys));
    }
  }

  lemma StripGrease(g: U16)
    requires IsGrease(g)
    ensures Strip([g]) == []
  {
    hide IsGrease;
    assert [g][1..] == [];
  }

  lemma GreasedStrip(xs: seq<U16>, ys: seq<U16>)
    requires Greased(xs, ys)
    ensures Strip(ys) == Strip(xs)
  {
    hide IsGrease, Strip;
    var i, g :| 0 <= i <= |xs| && IsGrease(g) && ys == xs[..i] + [g] + xs[i..];
    StripGrease(g);
    StripConcat(xs[..i] + [g], xs[i..]);
    StripConcat(xs[..i], [g]);
    StripConcat(xs[..i], xs[i..]);
    assert xs[..i] + xs[i..] == xs && Strip(xs[..i]) + [] == Strip(xs[..i]);
  }

  lemma {:induction false} KeptConcat(xs: seq<Ext>, ys: seq<Ext>)
    ensures Kept(xs + ys) == Both(Kept(xs), Kept(ys))
  {
    hide IsGrease, Strip;
    if xs == [] {
      assert xs + ys == ys;
    } else {
      KeptConcat(xs[1..], ys);
      assert (xs + ys)[1..] == xs[1..] + ys;
      assert Kept(xs) == Both(Kept([xs[0]]), Kept(xs[1..])) by { KeptOne(xs[0]); }
      assert Kept(xs + ys) == Both(Kept([xs[0]]), Kept(xs[1..] + ys)) by { KeptOne(xs[0]); }
      hide Kept;
      BothAssoc(Kept([xs[0]]), Kept(xs[1..]), Kept(ys));
    }
  }

  lemma KeptOne(e: Ext)
    ensures Kept([e]) == if IsGrease(TypeOf(e)) then NO_EXTS
      else Exts([TypeOf(e)], if e.SupportedGroups? then Strip(e.groups) else [],
                if e.PointFormats? then e.formats else [])
  {
    hide IsGrease, Strip;
    assert [e][1..] == [];
  }

  lemma KeptMiddle(a: seq<Ext>, b: seq<Ext>, b': seq<Ext>, c: seq<Ext>)
    requires Kept(b) == Kept(b')
    ensures Kept(a + b + c) == Kept(a + b' + c)
  {
    hide Kept;
    KeptConcat(a + b, c);
    KeptConcat(a, b);
    KeptConcat(a + b', c);
    KeptConcat(a, b');
  }

  lemma KeptNothing()
    ensures Kept([]) == NO_EXTS
  {
  }

  lemma ExtInserted(es: seq<Ext>, i: nat, g: U16, data: seq<Byte>)
    requires i <= |es| && IsGrease(g)
    ensures Kept(es[..i] + [Other(g, data)] + es[i..]) == Kept(es)
  {
    hide IsGrease, Strip, Kept;
    KeptOne(Other(g, data));
    KeptNothing();
    KeptMiddle(es[..i], [], [Other(g, data)], es[i..]);
    assert es[..i] + [] + es[i..] == es;
  }

  lemma GroupsChanged(es: seq<Ext>, i: nat, groups: seq<U16>)
    requires i < |es| && es[i].SupportedGroups? && Greased(es[i].groups, groups)
    ensures Kept(es[i := SupportedGroups(groups)]) == Kept(es)
  {
    hide IsGrease, Strip, Greased, Kept;
    GreasedStrip(es[i].groups, groups);
    KeptOne(es[i]);
    KeptOne(SupportedGroups(groups));
    KeptMiddle(es[..i], [es[i]], [SupportedGroups(groups)], es[i + 1..]);
    assert es[..i] + [es[i]] + es[i + 1..] == es;
    assert es[..i] + [SupportedGroups(groups)] + es[i + 1..] == es[i := SupportedGroups(groups)];
  }

  lemma GreasedKept(es: seq<Ext>, fs: seq<Ext>)
    requires GreasedExts(es, fs)
    ensures Kept(fs) == Kept(es)
  {
    hide IsGrease, Greased, Kept;
    if i, g, data :| 0 <= i <= |es| && IsGrease(g) && fs == es[..i] + [Other(g, data)] + es[i..] {
      ExtInserted(es, i, g, data);
    } else {
      var i, groups :| 0 <= i < |es| && es[i].SupportedGroups? && Greased(es[i].groups, groups)
        && fs == es[i := SupportedGroups(groups)];
      GroupsChanged(es, i, groups);
    }
  }

  lemma GreasedKeptOf(h: Hello, h': Hello)
    requires GreasedHello(h, h')
    ensures KeptOf(h') == KeptOf(h)
  {
    hide Kept, Strip;
    if h'.ciphers != h.ciphers {
      GreasedStrip(h.ciphers, h'.ciphers);
    } else if h' != h {
      GreasedKept(h.exts.value, h'.exts.value);
    }
  }

  /** Each hello offers what the one before it offers and one more piece of GREASE. */
  ghost predicate GreasedSteps(hs: seq<Hello>) { forall i :: 0 <= i < |hs| - 1 ==> GreasedHello(hs[i], hs[i + 1]) }

  lemma {:induction false} GreasedStepsKept(hs: seq<Hello>)
    requires hs != [] && GreasedSteps(hs)
    ensures KeptOf(hs[|hs| - 1]) == KeptOf(hs[0])
  {
    hide GreasedHello, KeptOf;
    var n := |hs| - 1;
    if n > 0 {
      assert GreasedHello(hs[n - 1], hs[n]);
      GreasedKeptOf(hs[n - 1], hs[n]);
      GreasedStepsKept(hs[..n]);
    }
  }

  /** Two ClientHellos have the same fingerprint text exactly when they agree on version, ciphers, extension
      types and groups without GREASE, and point formats; record headers and what follows do not show. */
  lemma FingerprintExact(h: Hello, h': Hello, header: seq<Byte>, header': seq<Byte>, rest: seq<Byte>, rest': seq<Byte>)
    requires Fits(h) && Fits(h') && |header| == 4 && |header'| == 4
    ensures Fingerprint(EncodeRecord(h, header) + rest) == Fingerprint(EncodeRecord(h', header') + rest') <==>
      KeptOf(h) == KeptOf(h')
    ensures Fingerprint(EncodeRecord(h, header) + rest).Some?
  {
    hide Parse, EncodeRecord, KeptOf, Text, Fits;
    ParseInvertsEncode(h, header, rest);
    ParseInvertsEncode(h', header', rest');
    TextInjective(KeptOf(h), KeptOf(h'));
  }

  /** A hello and what it becomes by putting in any number of GREASE values have the same fingerprint text. */
  lemma GreaseInvisible(hs: seq<Hello>, header: seq<Byte>, header': seq<Byte>, rest: seq<Byte>, rest': seq<Byte>)
    requires hs != [] && GreasedSteps(hs) && Fits(hs[0]) && Fits(hs[|hs| - 1]) && |header| == 4 && |header'| == 4
    ensures Fingerprint(EncodeRecord(hs[0], header) + rest)
         == Fingerprint(EncodeRecord(hs[|hs| - 1], header') + rest')
  {
    hide EncodeRecord, KeptOf, Fits, GreasedSteps, Fingerprint;
    GreasedStepsKept(hs);
    FingerprintExact(hs[0], hs[|hs| - 1], header, header', rest, rest');
  }
}
