/** Cookie rewriting and lookup (serverwall-proxy/src/proxy/http_proxy.rs). Letter case is compared as ASCII:
    no other character has a lower-case form that could complete one of the compared words. */
module Cookies {
  import opened Text

  datatype SameSite = Unset | Enforce(token: string)

  datatype Policy = Policy(secure: bool, httpOnly: bool, sameSite: SameSite, maxSize: nat)

  datatype Outcome = Dropped | Rewritten(value: string)

  // ---- Text ----

  function LowerChar(c: char): char { if 'A' <= c <= 'Z' then c - 'A' + 'a' else c }

  function Lower(s: string): (r: string)
    ensures |r| == |s| && forall i :: 0 <= i < |s| ==> r[i] == LowerChar(s[i])
  {
    if s == "" then "" else [LowerChar(s[0])] + Lower(s[1..])
  }

  /** Bytes of the UTF-8 form. */
  function ByteLen(s: string): nat {
    if s == "" then 0
    else
      var n := if s[0] < '\U{0080}' then 1 else if s[0] < '\U{0800}' then 2 else if s[0] < '\U{10000}' then 3 else 4;
      n + ByteLen(s[1..])
  }

  predicate Is(attr: string, word: string) { Lower(attr) == word }

  predicate IsSameSite(attr: string) { "samesite" <= Lower(attr) }

  predicate Has(attrs: seq<string>, word: string) { exists i :: 0 <= i < |attrs| && Is(attrs[i], word) }

  function TrimAll(pieces: seq<string>): (r: seq<string>)
    ensures |r| == |pieces| && forall i :: 0 <= i < |r| ==> r[i] == Trim(pieces[i])
  {
    if pieces == [] then [] else [Trim(pieces[0])] + TrimAll(pieces[1..])
  }

  // ---- A cookie's parts ----

  function NameValue(value: string): string { Trim(Split(value, ';')[0]) }

  function Attributes(value: string): seq<string> { TrimAll(Split(value, ';')[1..]) }

  /** The attributes that do not start with SameSite. */
  function Others(attrs: seq<string>): seq<string> {
    if attrs == [] then [] else (if IsSameSite(attrs[0]) then [] else [attrs[0]]) + Others(attrs[1..])
  }

  const SECURE := "Secure"
  const HTTP_ONLY := "HttpOnly"
  const SAME_SITE := "SameSite="

  /** The flags the policy adds to `attrs`. */
  function Flags(attrs: seq<string>, p: Policy, tls: bool): seq<string> {
    (if p.secure && tls && !Has(attrs, "secure") then [SECURE] else [])
    + (if p.httpOnly && !Has(attrs, "httponly") then [HTTP_ONLY] else [])
  }

  function NewAttributes(attrs: seq<string>, p: Policy, tls: bool): seq<string> {
    var all := attrs + Flags(attrs, p, tls);
    if p.sameSite.Enforce? then Others(all) + [SAME_SITE + p.sameSite.token] else all
  }

  function Assembled(nameValue: string, attrs: seq<string>): string
    decreases |attrs|
  {
    if attrs == [] then nameValue else Assembled(nameValue, attrs[..|attrs| - 1]) + "; " + attrs[|attrs| - 1]
  }

  function Enforced(value: string, p: Policy, tls: bool): Outcome {
    var nameValue := NameValue(value);
    if p.maxSize > 0 && ByteLen(nameValue) > p.maxSize then Dropped
    else Rewritten(Assembled(nameValue, NewAttributes(Attributes(value), p, tls)))
  }

  // ---- The code ----

  lemma OthersSnoc(attrs: seq<string>, a: string)
    ensures Others(attrs + [a]) == Others(attrs) + if IsSameSite(a) then [] else [a]
  {
    OthersAppend(attrs, [a]);
  }

  lemma {:induction false} OthersAppend(a: seq<string>, b: seq<string>)
    ensures Others(a + b) == Others(a) + Others(b)
  {
    if a == [] {
      assert a + b == b;
    } else {
      assert (a + b)[1..] == a[1..] + b;
      OthersAppend(a[1..], b);
    }
  }

  method FindAttribute(attrs: seq<string>, word: string) returns (found: bool)
    ensures found <==> Has(attrs, word)
  {
    found := false;
    for i := 0 to |attrs|
      invariant found <==> exists k :: 0 <= k < i && Is(attrs[k], word)
    {
      found := found || Is(attrs[i], word);
    }
  }

  method RetainOthers(attrs: seq<string>) returns (kept: seq<string>)
    ensures kept == Others(attrs)
  {
    kept := [];
    for i := 0 to |attrs|
      invariant kept == Others(attrs[..i])
    {
      OthersSnoc(attrs[..i], attrs[i]);
      assert attrs[..i + 1] == attrs[..i] + [attrs[i]];
      if !IsSameSite(attrs[i]) {
        kept := kept + [attrs[i]];
      }
    }
    assert attrs[..|attrs|] == attrs;
  }

  method Assemble(nameValue: string, attrs: seq<string>) returns (result: string)
    ensures result == Assembled(nameValue, attrs)
  {
    result := nameValue;
    for i := 0 to |attrs|
      invariant result == Assembled(nameValue, attrs[..i])
    {
      assert attrs[..i + 1][..i] == attrs[..i];
      result := result + "; " + attrs[i];
    }
    assert attrs[..|attrs|] == attrs;
  }

  method EnforceSetCookie(value: string, p: Policy, tls: bool) returns (r: Outcome)
    ensures r == Enforced(value, p, tls)
  {
    hide Split, Trim, Others, Has, Assembled;
    var parts := Split(value, ';');
    var nameValue := Trim(parts[0]);
    if p.maxSize > 0 && ByteLen(nameValue) > p.maxSize {
      return Dropped;
    }
    var lower := TrimAll(parts[1..]);
    var attrs := lower;
    var secure := FindAttribute(lower, "secure");
    if p.secure && tls && !secure {
      attrs := attrs + [SECURE];
    }
    var httpOnly := FindAttribute(lower, "httponly");
    if p.httpOnly && !httpOnly {
      attrs := attrs + [HTTP_ONLY];
    }
    assert attrs == lower + Flags(lower, p, tls);
    if p.sameSite.Enforce? {
      attrs := RetainOthers(attrs);
      attrs := attrs + [SAME_SITE + p.sameSite.token];
    }
    var result := Assemble(nameValue, attrs);
    r := Rewritten(result);
  }

  // ---- Reading back what was put together ----

  predicate Clean(attrs: seq<string>) { forall i :: 0 <= i < |attrs| ==> Trimmed(attrs[i]) && ';' !in attrs[i] }

  /** What the attributes become when they are split and trimmed again. */
  function Reread(attrs: seq<string>): seq<string> {
    if attrs == [] then [] else Reread(attrs[..|attrs| - 1]) + TrimAll(Split(attrs[|attrs| - 1], ';'))
  }

  lemma {:induction false} TrimAllAppend(a: seq<string>, b: seq<string>)
    ensures TrimAll(a + b) == TrimAll(a) + TrimAll(b)
  {
  }

  /** A blank before the text changes nothing once its pieces are trimmed. */
  lemma BlankBefore(a: string)
    ensures TrimAll(Split([' '] + a, ';')) == TrimAll(Split(a, ';'))
  {
    hide Trim, Split;
    SplitPrefix([' '], a, ';');
    TrimIs(Split(a, ';')[0]);
  }

  lemma TrimSeam(one: seq<string>, two: seq<string>)
    requires one != []
    ensures (one + two)[0] == one[0] && TrimAll((one + two)[1..]) == TrimAll(one[1..]) + TrimAll(two)
  {
    hide Trim;
    assert (one + two)[1..] == one[1..] + two;
    TrimAllAppend(one[1..], two);
  }

  lemma {:induction false} AssembledSplit(nameValue: string, attrs: seq<string>)
    requires ';' !in nameValue
    ensures var pieces := Split(Assembled(nameValue, attrs), ';');
      pieces[0] == nameValue && TrimAll(pieces[1..]) == Reread(attrs)
    decreases |attrs|
  {
    hide Split, Trim, TrimAll;
    if attrs == [] {
      SplitPlain(nameValue, ';');
      assert Split(nameValue, ';')[1..] == [];
    } else {
      var n := |attrs| - 1;
      AssembledSplit(nameValue, attrs[..n]);
      var before, last := Assembled(nameValue, attrs[..n]), [' '] + attrs[n];
      assert Assembled(nameValue, attrs) == before + [';'] + last;
      SplitSeam(before, ';', last);
      BlankBefore(attrs[n]);
      TrimSeam(Split(before, ';'), Split(last, ';'));
    }
  }

  lemma RereadSnoc(attrs: seq<string>, last: string)
    ensures Reread([]) == [] && Reread(attrs + [last]) == Reread(attrs) + TrimAll(Split(last, ';'))
  {
    hide Split, TrimAll;
    assert (attrs + [last])[..|attrs|] == attrs;
  }

  lemma {:induction false} RereadAppend(a: seq<string>, b: seq<string>)
    ensures Reread(a + b) == Reread(a) + Reread(b)
    decreases |b|
  {
    hide Reread, Split, TrimAll;
    if b == [] {
      assert a + b == a;
      RereadSnoc([], "");
    } else {
      var h, t := b[..|b| - 1], b[|b| - 1];
      RereadAppend(a, h);
      RereadSnoc(h, t);
      RereadSnoc(a + h, t);
      assert b == h + [t] && a + b == a + h + [t];
    }
  }

  lemma {:induction false} RereadClean(attrs: seq<string>)
    requires Clean(attrs)
    ensures Reread(attrs) == attrs
  {
    hide Split, Trim;
    if attrs != [] {
      var n := |attrs| - 1;
      RereadClean(attrs[..n]);
      SplitPlain(attrs[n], ';');
      TrimIs(attrs[n]);
      assert attrs == attrs[..n] + [attrs[n]];
    }
  }

  lemma AttributesClean(value: string)
    ensures Clean(Attributes(value)) && Trimmed(NameValue(value)) && ';' !in NameValue(value)
  {
    hide Split, Trim;
    SplitPieces(value, ';');
    var pieces := Split(value, ';');
    forall i | 0 <= i < |pieces|
      ensures Trimmed(Trim(pieces[i])) && ';' !in Trim(pieces[i])
    {
      TrimIs(pieces[i]);
    }
  }

  // ---- What the flags do ----

  lemma {:induction false} OthersKeep(attrs: seq<string>)
    ensures forall a :: a in Others(attrs) <==> a in attrs && !IsSameSite(a)
  {
    if attrs != [] {
      OthersKeep(attrs[1..]);
      assert attrs == [attrs[0]] + attrs[1..];
    }
  }

  lemma {:induction false} OthersAll(attrs: seq<string>)
    ensures Others(attrs) == attrs <==> forall i :: 0 <= i < |attrs| ==> !IsSameSite(attrs[i])
    ensures Others(attrs) == [] <==> forall i :: 0 <= i < |attrs| ==> IsSameSite(attrs[i])
    ensures |Others(attrs)| <= |attrs|
  {
    hide IsSameSite;
    if attrs != [] {
      OthersAll(attrs[1..]);
    }
  }

  lemma SecureWord()
    ensures Is(SECURE, "secure") && !IsSameSite(SECURE) && Clean([SECURE])
  {
    hide Lower;
    assert Lower(SECURE)[1] == 'e';
  }

  lemma HttpOnlyWord()
    ensures Is(HTTP_ONLY, "httponly") && !IsSameSite(HTTP_ONLY) && Clean([HTTP_ONLY])
  {
    hide Lower;
    assert Lower(HTTP_ONLY)[0] == 'h';
  }

  lemma FlagsPlain(attrs: seq<string>, p: Policy, tls: bool)
    ensures var flags := Flags(attrs, p, tls); Clean(flags) && Others(flags) == flags
  {
    hide Is, IsSameSite, Has;
    SecureWord();
    HttpOnlyWord();
    OthersAll(Flags(attrs, p, tls));
  }

  lemma HasIn(attrs: seq<string>, a: string, word: string)
    requires a in attrs && Is(a, word)
    ensures Has(attrs, word)
  {
  }

  /** Once the policy has been applied no flag is missing, also not after SameSite attributes are taken out. */
  lemma FlagsOnce(attrs: seq<string>, p: Policy, tls: bool, after: seq<string>)
    requires forall a :: a in attrs + Flags(attrs, p, tls) && !IsSameSite(a) ==> a in after
    ensures Flags(after, p, tls) == []
  {
    if p.secure && tls {
      FlagPresent(attrs, p, tls, after, "secure");
    }
    if p.httpOnly {
      FlagPresent(attrs, p, tls, after, "httponly");
    }
  }

  lemma FlagPresent(attrs: seq<string>, p: Policy, tls: bool, after: seq<string>, word: string)
    requires forall a :: a in attrs + Flags(attrs, p, tls) && !IsSameSite(a) ==> a in after
    requires (p.secure && tls && word == "secure") || (p.httpOnly && word == "httponly")
    ensures Has(after, word)
  {
    hide Lower;
    var all := attrs + Flags(attrs, p, tls);
    SecureWord();
    HttpOnlyWord();
    if Has(attrs, word) {
      var i :| 0 <= i < |attrs| && Is(attrs[i], word);
      assert attrs[i] in all;
      assert word[1] != 'a';
      HasIn(after, attrs[i], word);
    } else {
      var flag := if word == "secure" then SECURE else HTTP_ONLY;
      assert flag in all;
      HasIn(after, flag, word);
    }
  }

  // ---- What rewriting keeps ----

  /** Attributes a token brings with it when it holds semicolons. */
  function Strays(token: string): seq<string> { Others(TrimAll(Split(token, ';')[1..])) }

  lemma LowerPrefix(p: string, s: string)
    requires p <= s
    ensures Lower(p) <= Lower(s)
  {
    hide Lower;
  }

  lemma LowerSameSite()
    ensures "samesite" <= Lower(SAME_SITE)
  {
    hide Lower;
  }

  lemma SameSiteWord(s: string)
    requires SAME_SITE <= s
    ensures IsSameSite(s)
  {
    hide Lower;
    LowerPrefix(SAME_SITE, s);
    LowerSameSite();
  }

  lemma SameSiteTrimmed(s: string)
    ensures IsSameSite(Trim(SAME_SITE + s))
  {
    TrimEndKeeps(SAME_SITE, s);
    SameSiteWord(Trim(SAME_SITE + s));
  }

  lemma TokenRead(token: string)
    ensures var read := TrimAll(Split(SAME_SITE + token, ';'));
      && read == [Trim(SAME_SITE + Split(token, ';')[0])] + TrimAll(Split(token, ';')[1..])
      && IsSameSite(read[0]) && Others(read) == Strays(token)
  {
    hide Split, Trim, IsSameSite;
    SplitPrefix(SAME_SITE, token, ';');
    SameSiteTrimmed(Split(token, ';')[0]);
    var rest := TrimAll(Split(token, ';')[1..]);
    assert ([Trim(SAME_SITE + Split(token, ';')[0])] + rest)[1..] == rest;
  }

  /** The attributes of a rewritten cookie, as a reader of the header sees them. */
  lemma RewrittenRead(value: string, p: Policy, tls: bool)
    ensures var s := Assembled(NameValue(value), NewAttributes(Attributes(value), p, tls));
      var all := Attributes(value) + Flags(Attributes(value), p, tls);
      && NameValue(s) == NameValue(value)
      && Attributes(s) == (if p.sameSite.Enforce?
           then Others(all) + TrimAll(Split(SAME_SITE + p.sameSite.token, ';')) else all)
  {
    hide Split, Trim, Flags, Others, Assembled;
    var attrs := Attributes(value);
    var all := attrs + Flags(attrs, p, tls);
    AttributesClean(value);
    FlagsPlain(attrs, p, tls);
    AssembledSplit(NameValue(value), NewAttributes(attrs, p, tls));
    TrimIs(NameValue(value));
    OthersKeep(all);
    if p.sameSite.Enforce? {
      OthersClean(all);
      RereadClean(Others(all));
      RereadAppend(Others(all), [SAME_SITE + p.sameSite.token]);
      RereadOne(SAME_SITE + p.sameSite.token);
    } else {
      RereadClean(all);
    }
  }

  lemma RereadOne(a: string)
    ensures Reread([a]) == TrimAll(Split(a, ';'))
  {
    hide Split, Trim;
    assert Reread([]) == [];
  }

  lemma OthersClean(attrs: seq<string>)
    requires Clean(attrs)
    ensures Clean(Others(attrs))
  {
    hide Others, IsSameSite;
    OthersKeep(attrs);
    forall i | 0 <= i < |Others(attrs)|
      ensures Trimmed(Others(attrs)[i]) && ';' !in Others(attrs)[i]
    {
      assert Others(attrs)[i] in attrs;
    }
  }

  lemma NoStrays(token: string)
    requires ';' !in token
    ensures Strays(token) == [] && TrimAll(Split(SAME_SITE + token, ';')) == [Trim(SAME_SITE + token)]
  {
    hide Split, Trim, IsSameSite;
    SplitPlain(token, ';');
    TokenRead(token);
  }

  /** What is left of `attrs` and `flags` beside a token, once read back. */
  lemma OthersRead(attrs: seq<string>, flags: seq<string>, token: string)
    requires Others(flags) == flags
    ensures var read := Others(attrs + flags) + TrimAll(Split(SAME_SITE + token, ';'));
      Others(read) == Others(attrs) + flags + Strays(token)
  {
    hide Split, Trim, Others, TrimAll, Strays;
    TokenRead(token);
    OthersAppend(attrs, flags);
    OthersTwice(attrs + flags);
    OthersAppend(Others(attrs + flags), TrimAll(Split(SAME_SITE + token, ';')));
  }

  lemma FlagsSettled(value: string, p: Policy, tls: bool)
    ensures Flags(Attributes(Assembled(NameValue(value), NewAttributes(Attributes(value), p, tls))), p, tls) == []
  {
    hide Split, Trim, Flags, Others, Assembled, IsSameSite, TrimAll, Attributes, NameValue, NewAttributes;
    var attrs := Attributes(value);
    var all := attrs + Flags(attrs, p, tls);
    RewrittenRead(value, p, tls);
    OthersKeep(all);
    FlagsOnce(attrs, p, tls, Attributes(Assembled(NameValue(value), NewAttributes(attrs, p, tls))));
  }

  /** A rewritten cookie keeps its name and value and, in their order, all attributes that do not start with
      SameSite, and has every flag the policy demands; it is dropped exactly when its name and value are
      too long. A token without semicolons leaves exactly one SameSite attribute, its own, at the end. */
  lemma RewritingKeeps(value: string, p: Policy, tls: bool)
    ensures Enforced(value, p, tls).Dropped? <==> p.maxSize > 0 && ByteLen(NameValue(value)) > p.maxSize
    ensures var out := Enforced(value, p, tls);
      out.Rewritten? ==>
        var attrs, attrs' := Attributes(value), Attributes(out.value);
        && NameValue(out.value) == NameValue(value)
        && Flags(attrs', p, tls) == []
        && (p.sameSite == Unset ==> attrs' == attrs + Flags(attrs, p, tls))
        && (p.sameSite.Enforce? ==>
              Others(attrs') == Others(attrs) + Flags(attrs, p, tls) + Strays(p.sameSite.token))
        && (p.sameSite.Enforce? && ';' !in p.sameSite.token ==>
              attrs' == Others(attrs') + [Trim(SAME_SITE + p.sameSite.token)]
              && IsSameSite(Trim(SAME_SITE + p.sameSite.token)))
  {
    hide Split, Trim, Flags, Others, Assembled, IsSameSite, ByteLen;
    hide TrimAll, Attributes, NameValue, NewAttributes, Strays;
    var attrs := Attributes(value);
    var flags := Flags(attrs, p, tls);
    RewrittenRead(value, p, tls);
    FlagsPlain(attrs, p, tls);
    FlagsSettled(value, p, tls);
    if p.sameSite.Enforce? {
      var token := p.sameSite.token;
      OthersRead(attrs, flags, token);
      OthersAppend(attrs, flags);
      SameSiteTrimmed(token);
      if ';' !in token {
        NoStrays(token);
      }
    }
  }

  lemma OthersTwice(attrs: seq<string>)
    ensures Others(Others(attrs)) == Others(attrs)
  {
    hide Others, IsSameSite;
    OthersKeep(attrs);
    OthersAll(Others(attrs));
    forall i | 0 <= i < |Others(attrs)|
      ensures !IsSameSite(Others(attrs)[i])
    {
      assert Others(attrs)[i] in Others(attrs);
    }
  }

  // ---- Rewriting twice ----

  function Weight(attrs: seq<string>): nat {
    if attrs == [] then 0 else Weight(attrs[..|attrs| - 1]) + 2 + |attrs[|attrs| - 1]|
  }

  lemma {:induction false} AssembledWeight(nameValue: string, attrs: seq<string>)
    ensures |Assembled(nameValue, attrs)| == |nameValue| + Weight(attrs)
    decreases |attrs|
  {
    if attrs != [] {
      AssembledWeight(nameValue, attrs[..|attrs| - 1]);
    }
  }

  lemma {:induction false} WeightAppend(a: seq<string>, b: seq<string>)
    ensures Weight(a + b) == Weight(a) + Weight(b)
    ensures Weight(b) >= 2 * |b|
    decreases |b|
  {
    if b == [] {
      assert a + b == a;
    } else {
      var n := |b| - 1;
      assert (a + b)[..|a + b| - 1] == a + b[..n];
      WeightAppend(a, b[..n]);
    }
  }

  /** The second rewriting changes nothing but to bring in the strays of the token once more. */
  lemma NewAttributesAgain(value: string, p: Policy, tls: bool)
    ensures var first := NewAttributes(Attributes(value), p, tls);
      var second := NewAttributes(Attributes(Assembled(NameValue(value), first)), p, tls);
      if p.sameSite == Unset then second == first
      else
        var kept := Others(Attributes(value) + Flags(Attributes(value), p, tls));
        var t := [SAME_SITE + p.sameSite.token];
        first == kept + t && second == kept + Strays(p.sameSite.token) + t
  {
    hide Split, Trim, Flags, Others, Assembled, IsSameSite, TrimAll, Attributes, NameValue, Strays;
    var attrs := Attributes(value);
    var flags := Flags(attrs, p, tls);
    var again := Attributes(Assembled(NameValue(value), NewAttributes(attrs, p, tls)));
    RewrittenRead(value, p, tls);
    FlagsSettled(value, p, tls);
    FlagsPlain(attrs, p, tls);
    assert again + [] == again;
    if p.sameSite.Enforce? {
      OthersRead(attrs, flags, p.sameSite.token);
      OthersAppend(attrs, flags);
    }
  }

  /** Rewriting is idempotent, for any value, if and only if every piece after a semicolon of the enforced token
      starts with SameSite itself. */
  lemma IdempotentExact(value: string, p: Policy, tls: bool)
    requires Enforced(value, p, tls).Rewritten?
    ensures var out := Enforced(value, p, tls);
      Enforced(out.value, p, tls) == out <==> (p.sameSite.Enforce? ==> StraysAllSameSite(p.sameSite.token))
  {
    hide Split, Trim, Flags, Others, Assembled, IsSameSite, ByteLen, Weight;
    hide TrimAll, Attributes, NameValue, NewAttributes, Strays, StraysAllSameSite;
    var nv, first := NameValue(value), NewAttributes(Attributes(value), p, tls);
    var second := NewAttributes(Attributes(Assembled(nv, first)), p, tls);
    RewrittenRead(value, p, tls);
    NewAttributesAgain(value, p, tls);
    if p.sameSite.Enforce? {
      var kept := Others(Attributes(value) + Flags(Attributes(value), p, tls));
      StraysNone(p.sameSite.token);
      AgainLonger(nv, kept, Strays(p.sameSite.token), [SAME_SITE + p.sameSite.token]);
    }
  }

  predicate StraysAllSameSite(token: string) {
    forall i :: 1 <= i < |Split(token, ';')| ==> IsSameSite(Trim(Split(token, ';')[i]))
  }

  lemma StraysNone(token: string)
    ensures Strays(token) == [] <==> StraysAllSameSite(token)
  {
    hide Split, Trim, IsSameSite;
    var pieces := Split(token, ';');
    var rest := TrimAll(pieces[1..]);
    OthersAll(rest);
    assert forall i :: 0 <= i < |rest| ==> rest[i] == Trim(pieces[i + 1]);
    assert forall i :: 1 <= i < |pieces| ==> rest[i - 1] == Trim(pieces[i]);
  }

  lemma AgainLonger(nv: string, kept: seq<string>, strays: seq<string>, t: seq<string>)
    ensures Assembled(nv, kept + strays + t) == Assembled(nv, kept + t) <==> strays == []
  {
    hide Assembled, Weight;
    if strays == [] {
      assert kept + strays + t == kept + t;
    } else {
      AssembledWeight(nv, kept + strays + t);
      AssembledWeight(nv, kept + t);
      WeightAppend(kept + strays, t);
      WeightAppend(kept, strays);
      WeightAppend(kept, t);
    }
  }

  /** For every token without semicolons rewriting is idempotent. */
  lemma Idempotent(value: string, p: Policy, tls: bool)
    requires p.sameSite.Enforce? ==> ';' !in p.sameSite.token
    ensures var out := Enforced(value, p, tls);
      out.Rewritten? ==> Enforced(out.value, p, tls) == out
  {
    hide Enforced;
    if Enforced(value, p, tls).Rewritten? {
      IdempotentExact(value, p, tls);
      if p.sameSite.Enforce? {
        SplitPlain(p.sameSite.token, ';');
      }
    }
  }

  lemma LooseToken()
    ensures !StraysAllSameSite("L;P")
  {
    hide Split, Trim;
    assert "L;P" == "L" + [';'] + "P";
    SplitSeam("L", ';', "P");
    SplitPlain("L", ';');
    SplitPlain("P", ';');
    TrimIs("P");
    assert Split("L;P", ';')[1] == "P";
    assert Lower("P")[0] == 'p';
  }

  /** With the token `L;P` it never is: the second piece is added once per rewriting. */
  lemma NotIdempotent(value: string, tls: bool)
    ensures var p := Policy(false, false, Enforce("L;P"), 0);
      var out := Enforced(value, p, tls);
      out.Rewritten? && Enforced(out.value, p, tls) != out
  {
    hide StraysAllSameSite, NameValue, NewAttributes, Attributes, Assembled, ByteLen;
    LooseToken();
    IdempotentExact(value, Policy(false, false, Enforce("L;P"), 0), tls);
  }

  // ---- Looking a cookie up ----

  datatype Found = Missing | Found(value: string)

  /** The value of the first piece whose trimmed name is `name`. */
  function Lookup(pieces: seq<string>, name: string): Found {
    if pieces == [] then Missing
    else
      var pair := Trim(pieces[0]);
      var n := Cut(pair, '=');
      if n < |pair| && Trim(pair[..n]) == name then Found(Trim(pair[n + 1..])) else Lookup(pieces[1..], name)
  }

  method ParseCookie(header: string, name: string) returns (r: Found)
    ensures r == Lookup(Split(header, ';'), name)
  {
    var pieces := Split(header, ';');
    for i := 0 to |pieces|
      invariant Lookup(pieces, name) == Lookup(pieces[i..], name)
    {
      assert pieces[i..][1..] == pieces[i + 1..];
      var pair := Trim(pieces[i]);
      var n := Cut(pair, '=');
      if n < |pair| {
        var k, v := pair[..n], pair[n + 1..];
        if Trim(k) == name {
          return Found(Trim(v));
        }
      }
    }
    r := Missing;
  }

  /** A cookie pair as section 4.2.1 of RFC 6265 has it: no white space around, no semicolon, and no equals sign
      in the name. */
  predicate Proper(pair: (string, string)) {
    Trimmed(pair.0) && Trimmed(pair.1) && ';' !in pair.0 && ';' !in pair.1 && '=' !in pair.0
  }

  function Shown(pair: (string, string)): string { pair.0 + ['='] + pair.1 }

  function AllShown(pairs: seq<(string, string)>): (r: seq<string>)
    ensures |r| == |pairs| && forall i :: 0 <= i < |r| ==> r[i] == Shown(pairs[i])
  {
    if pairs == [] then [] else [Shown(pairs[0])] + AllShown(pairs[1..])
  }

  /** The value of the first pair with that name. */
  function First(pairs: seq<(string, string)>, name: string): Found {
    if pairs == [] then Missing
    else if pairs[0].0 == name then Found(pairs[0].1)
    else First(pairs[1..], name)
  }

  lemma ShownProper(pair: (string, string))
    requires Proper(pair)
    ensures var s := Shown(pair);
      Trimmed(s) && ';' !in s && Cut(s, '=') == |pair.0| < |s| && s[..|pair.0|] == pair.0 && s[|pair.0| + 1..] == pair.1
  {
    CutAt(pair.0, '=', pair.1);
    CutPlain(pair.0, '=');
  }

  /** Trimming the pieces first does not change what is found. */
  lemma {:induction false} LookupShown(pieces: seq<string>, pairs: seq<(string, string)>, name: string)
    requires |pieces| == |pairs|
    requires forall i :: 0 <= i < |pairs| ==> Proper(pairs[i]) && Trim(pieces[i]) == Shown(pairs[i])
    ensures Lookup(pieces, name) == First(pairs, name)
  {
    hide Trim, Cut, Proper, Shown;
    if pairs != [] {
      ShownProper(pairs[0]);
      assert Proper(pairs[0]);
      ProperTrim(pairs[0]);
      LookupShown(pieces[1..], pairs[1..], name);
    }
  }

  lemma ProperTrim(pair: (string, string))
    requires Proper(pair)
    ensures Trim(pair.0) == pair.0 && Trim(pair.1) == pair.1
  {
    TrimIs(pair.0);
    TrimIs(pair.1);
  }

  lemma {:induction false} ShownClean(pairs: seq<(string, string)>)
    requires forall i :: 0 <= i < |pairs| ==> Proper(pairs[i])
    ensures Clean(AllShown(pairs))
  {
    hide Proper, Shown, Trimmed;
    forall i | 0 <= i < |pairs|
      ensures Trimmed(AllShown(pairs)[i]) && ';' !in AllShown(pairs)[i]
    {
      ShownProper(pairs[i]);
    }
  }

  lemma PiecesShown(pieces: seq<string>, pairs: seq<(string, string)>)
    requires pieces != [] && pairs != []
    requires Trim(pieces[0]) == Shown(pairs[0]) && TrimAll(pieces[1..]) == AllShown(pairs[1..])
    ensures |pieces| == |pairs| && forall i :: 0 <= i < |pairs| ==> Trim(pieces[i]) == Shown(pairs[i])
  {
    hide Trim, Shown;
    assert forall i :: 1 <= i < |pieces| ==> Trim(pieces[i]) == TrimAll(pieces[1..])[i - 1];
    assert forall i :: 1 <= i < |pairs| ==> Shown(pairs[i]) == AllShown(pairs[1..])[i - 1];
  }

  /** Looking a name up in a Cookie header put together from pairs finds the first pair of that name. */
  lemma CookieFound(pairs: seq<(string, string)>, name: string)
    requires pairs != [] && forall i :: 0 <= i < |pairs| ==> Proper(pairs[i])
    ensures var header := Assembled(Shown(pairs[0]), AllShown(pairs[1..]));
      Lookup(Split(header, ';'), name) == First(pairs, name)
  {
    hide Split, Trim, Proper, Shown, Lookup, First, Assembled, AllShown, TrimAll, Clean;
    var nv, rest := Shown(pairs[0]), AllShown(pairs[1..]);
    ShownProper(pairs[0]);
    ShownClean(pairs[1..]);
    AssembledSplit(nv, rest);
    RereadClean(rest);
    TrimIs(nv);
    var pieces := Split(Assembled(nv, rest), ';');
    PiecesShown(pieces, pairs);
    LookupShown(pieces, pairs, name);
  }
}
