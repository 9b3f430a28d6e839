/** JA3 fingerprints (serverwall-core/src/tls/ja3.rs): the ClientHello parser and the string that
    is hashed. */
module Ja3 {
  import opened Bytes
  import opened Options

  newtype U16 = x: int | 0 <= x < 0x1_0000

  datatype Params = Params(
    version: U16, ciphers: seq<U16>, extensions: seq<U16>, groups: seq<U16>, formats: seq<Byte>)

  const GREASE: seq<U16> := [
    0x0a0a, 0x1a1a, 0x2a2a, 0x3a3a, 0x4a4a, 0x5a5a, 0x6a6a, 0x7a7a,
    0x8a8a, 0x9a9a, 0xaaaa, 0xbaba, 0xcaca, 0xdada, 0xeaea, 0xfafa]

  predicate IsGrease(v: U16) { v in GREASE }

  lemma GreaseAt(k: nat)
    requires k < 16
    ensures GREASE[k] as int == 2570 + 4112 * k
  {
    assert k == 0 || k == 1 || k == 2 || k == 3 || k == 4 || k == 5 || k == 6 || k == 7
        || k == 8 || k == 9 || k == 10 || k == 11 || k == 12 || k == 13 || k == 14 || k == 15;
  }

  lemma SameDigits(h: int, l: int, h': int, l': int)
    requires 256 * h + l == 256 * h' + l' && 0 <= l < 256 && 0 <= l' < 256
    ensures h == h' && l == l'
  {
  }

  /** The table is the family of section 2 of RFC 8701: two equal bytes with low nibble A. */
  lemma GreaseFamily(hi: Byte, lo: Byte)
    ensures IsGrease(Be16(hi, lo)) <==> hi == lo && lo as int % 16 == 10
  {
    hide IsGrease;
    var v := Be16(hi, lo);
    if hi == lo && lo as int % 16 == 10 {
      FamilyIsGrease(lo as int / 16, v);
    }
    if IsGrease(v) {
      var k := GreaseIndex(v);
      SameDigits(hi as int, lo as int, 10 + 16 * k, 10 + 16 * k);
    }
  }

  lemma GreaseIndex(v: U16) returns (k: nat)
    requires IsGrease(v)
    ensures k < 16 && v as int == 2570 + 4112 * k
  {
    k :| k < 16 && GREASE[k] == v;
    GreaseAt(k);
  }

  lemma FamilyIsGrease(k: nat, v: U16)
    requires k < 16 && v as int == 2570 + 4112 * k
    ensures IsGrease(v)
  {
    GreaseAt(k);
    assert v == GREASE[k];
  }

  function Strip(vs: seq<U16>): seq<U16> {
    if vs == [] then [] else (if IsGrease(vs[0]) then [] else [vs[0]]) + Strip(vs[1..])
  }

  // ---- The parser, by what it consumes ----

  function Be16(a: Byte, b: Byte): U16 { (a as int * 256 + b as int) as U16 }

  /** Big-endian values while `n` bytes of the list are left and two bytes can be read, without GREASE.
      An odd `n` reads one byte past the list. */
  function Values(s: seq<Byte>, n: int): seq<U16>
    decreases |s|
  {
    if n <= 0 || |s| < 2 then []
    else (if IsGrease(Be16(s[0], s[1])) then [] else [Be16(s[0], s[1])]) + Values(s[2..], n - 2)
  }

  datatype Exts = Exts(types: seq<U16>, groups: seq<U16>, formats: seq<Byte>)

  const GROUPS: U16 := 0x000a
  const FORMATS: U16 := 0x000b

  function Min(a: int, b: int): int { if a < b then a else b }

  function GroupsOf(typ: U16, data: seq<Byte>): seq<U16> {
    if typ == GROUPS && |data| >= 2 then Values(data[2..], Be16(data[0], data[1]) as int) else []
  }

  function FormatsOf(typ: U16, data: seq<Byte>): seq<Byte> {
    if typ == FORMATS && |data| >= 1 then data[1..1 + Min(data[0] as int, |data| - 1)] else []
  }

  function Both(a: Exts, b: Exts): Exts {
    Exts(a.types + b.types, a.groups + b.groups, a.formats + b.formats)
  }

  const NO_EXTS: Exts := Exts([], [], [])

  /** What one extension contributes; a GREASE extension contributes nothing. */
  function OneExt(typ: U16, data: seq<Byte>): Exts {
    if IsGrease(typ) then NO_EXTS else Exts([typ], GroupsOf(typ, data), FormatsOf(typ, data))
  }

  /** The extensions of a block, up to the first that does not fit. */
  function ExtList(b: seq<Byte>): Exts
    decreases |b|
  {
    if |b| < 4 then NO_EXTS
    else
      var len := Be16(b[2], b[3]) as int;
      if |b| - 4 < len then NO_EXTS
      else Both(OneExt(Be16(b[0], b[1]), b[4..4 + len]), ExtList(b[4 + len..]))
  }

  function WithExts(version: U16, ciphers: seq<U16>, e: Exts): Params {
    Params(version, ciphers, e.types, e.groups, e.formats)
  }

  /** From the compression methods on: the extensions are optional. */
  function ParseTail(version: U16, ciphers: seq<U16>, s: seq<Byte>): Option<Params> {
    if |s| < 1 then None
    else
      var comp := s[0] as int;
      if |s| < 1 + comp + 2 then Some(WithExts(version, ciphers, NO_EXTS))
      else
        var total := Be16(s[1 + comp], s[2 + comp]) as int;
        var block := s[3 + comp..];
        if |block| < total then None else Some(WithExts(version, ciphers, ExtList(block[..total])))
  }

  /** From the session id on. */
  function ParseSession(version: U16, s: seq<Byte>): Option<Params> {
    if |s| < 1 || |s| < 1 + s[0] as int + 2 then None
    else
      var r := s[1 + s[0] as int..];
      var n := Be16(r[0], r[1]) as int;
      if |r| - 2 < n then None else ParseTail(version, Values(r[2..], n), r[2 + n..])
  }

  function ParseHello(h: seq<Byte>): Option<Params> {
    if |h| < 34 then None else ParseSession(Be16(h[0], h[1]), h[34..])
  }

  function Be24(a: Byte, b: Byte, c: Byte): int { a as int * 65536 + b as int * 256 + c as int }

  function Parse(data: seq<Byte>): Option<Params> {
    if |data| < 9 || data[0] != 0x16 || data[5] != 0x01 then None
    else
      var len := Be24(data[6], data[7], data[8]);
      if |data| - 9 < len then None else ParseHello(data[9..9 + len])
  }

  // ---- The parser, by position ----

  lemma ValuesIs(s: seq<Byte>, n: int)
    ensures Values(s, n) ==
      if n <= 0 || |s| < 2 then []
      else (if IsGrease(Be16(s[0], s[1])) then [] else [Be16(s[0], s[1])]) + Values(s[2..], n - 2)
  {
    hide IsGrease, Be16;
  }

  method ReadValues(buf: seq<Byte>, pos: nat, n: nat) returns (values: seq<U16>)
    requires pos <= |buf|
    ensures values == Values(buf[pos..], n)
  {
    hide IsGrease, Be16, Values;
    values := [];
    var i := 0;
    while i < n
      invariant pos + i <= |buf|
      invariant values + Values(buf[pos + i..], n - i) == Values(buf[pos..], n)
    {
      ValuesIs(buf[pos + i..], n - i);
      if pos + i + 2 > |buf| {
        break;
      }
      var c := Be16(buf[pos + i], buf[pos + i + 1]);
      assert buf[pos + i..][2..] == buf[pos + i + 2..];
      Assoc(values, if IsGrease(c) then [] else [c], Values(buf[pos + i + 2..], n - i - 2));
      if !IsGrease(c) {
        values := values + [c];
      }
      i := i + 2;
    }
    if i >= n {
      ValuesIs(buf[pos + i..], n - i);
    }
  }

  method ReadFormats(data: seq<Byte>) returns (formats: seq<Byte>)
    requires |data| >= 1
    ensures formats == FormatsOf(FORMATS, data)
  {
    formats := [];
    var n := data[0] as int;
    for i := 1 to n + 1
      invariant formats == data[1..1 + Min(i - 1, |data| - 1)]
    {
      if i < |data| {
        formats := formats + [data[i]];
      }
    }
  }

  method ReadExtension(typ: U16, data: seq<Byte>) returns (one: Exts)
    ensures one == OneExt(typ, data)
  {
    one := NO_EXTS;
    if !IsGrease(typ) {
      one := Exts([typ], [], []);
      if typ == GROUPS && |data| >= 2 {
        var groups := ReadValues(data, 2, Be16(data[0], data[1]) as int);
        one := one.(groups := groups);
      }
      if typ == FORMATS && |data| >= 1 {
        var formats := ReadFormats(data);
        one := one.(formats := formats);
      }
    }
  }

  lemma ExtListIs(b: seq<Byte>)
    ensures ExtList(b) ==
      if |b| < 4 then NO_EXTS
      else
        var len := Be16(b[2], b[3]) as int;
        if |b| - 4 < len then NO_EXTS
        else Both(OneExt(Be16(b[0], b[1]), b[4..4 + len]), ExtList(b[4 + len..]))
  {
    hide OneExt, Be16, Both;
  }

  lemma NothingMore(e: Exts)
    ensures Both(e, NO_EXTS) == e && Both(NO_EXTS, e) == e
  {
    assert e.types + [] == e.types && e.groups + [] == e.groups && e.formats + [] == e.formats;
    assert [] + e.types == e.types && [] + e.groups == e.groups && [] + e.formats == e.formats;
  }

  method ReadExtensions(block: seq<Byte>) returns (e: Exts)
    ensures e == ExtList(block)
  {
    hide OneExt, Be16, ExtList, Both;
    e := NO_EXTS;
    NothingMore(ExtList(block));
    var epos := 0;
    assert block[0..] == block;
    while epos + 4 <= |block|
      invariant epos <= |block|
      invariant Both(e, ExtList(block[epos..])) == ExtList(block)
      decreases |block| - epos
    {
      ghost var b := block[epos..];
      ExtListIs(b);
      var typ := Be16(block[epos], block[epos + 1]);
      var len := Be16(block[epos + 2], block[epos + 3]) as int;
      if |block| < epos + 4 + len {
        NothingMore(e);
        return;
      }
      epos := epos + 4;
      var data := block[epos..epos + len];
      assert b[4..4 + len] == data && b[4 + len..] == block[epos + len..];
      var one := ReadExtension(typ, data);
      BothAssoc(e, one, ExtList(block[epos + len..]));
      e := Appended(e, one);
      epos := epos + len;
    }
    ExtListIs(block[epos..]);
    NothingMore(e);
  }

  /** The three lists each grow by what one extension brought. */
  function Appended(e: Exts, one: Exts): (r: Exts)
    ensures r == Both(e, one)
  {
    Exts(e.types + one.types, e.groups + one.groups, e.formats + one.formats)
  }

  lemma BothAssoc(a: Exts, b: Exts, c: Exts)
    ensures Both(Both(a, b), c) == Both(a, Both(b, c))
  {
  }

  /** The whole parser with its running position; every read is in bounds for every input. */
  method ParseClientHello(data: seq<Byte>) returns (r: Option<Params>)
    ensures r == Parse(data)
  {
    if |data| < 5 || data[0] != 0x16 {
      return None;
    }
    var hs := data[5..];
    if |hs| < 4 || hs[0] != 0x01 {
      return None;
    }
    var len := Be24(hs[1], hs[2], hs[3]);
    if |hs| < 4 + len {
      return None;
    }
    var hello := hs[4..4 + len];
    assert hello == data[9..9 + len];
    r := ParseBody(hello);
  }

  method ParseBody(hello: seq<Byte>) returns (r: Option<Params>)
    ensures r == ParseHello(hello)
  {
    hide Values, ParseTail, Be16;
    var pos := 0;
    if |hello| < pos + 2 {
      return None;
    }
    var version := Be16(hello[pos], hello[pos + 1]);
    pos := pos + 2;
    pos := pos + 32;
    if pos > |hello| {
      return None;
    }
    if |hello| < pos + 1 {
      return None;
    }
    var sid := hello[pos] as int;
    pos := pos + 1 + sid;
    if |hello| < pos + 2 {
      return None;
    }
    ghost var r0 := hello[34..][1 + sid..];
    assert r0 == hello[pos..];
    var n := Be16(hello[pos], hello[pos + 1]) as int;
    pos := pos + 2;
    if |hello| < pos + n {
      return None;
    }
    assert r0[2..] == hello[pos..] && r0[2 + n..] == hello[pos + n..];
    var ciphers := ReadValues(hello, pos, n);
    pos := pos + n;
    r := ParseExtensions(hello, pos, version, ciphers);
  }

  /** Compression methods and extensions, from position `start`. */
  method ParseExtensions(hello: seq<Byte>, start: nat, version: U16, ciphers: seq<U16>) returns (r: Option<Params>)
    requires start <= |hello|
    ensures r == ParseTail(version, ciphers, hello[start..])
  {
    hide ExtList, Be16;
    var pos := start;
    if |hello| < pos + 1 {
      return None;
    }
    var comp := hello[pos] as int;
    pos := pos + 1 + comp;
    if |hello| < pos + 2 {
      return Some(Params(version, ciphers, [], [], []));
    }
    var total := Be16(hello[pos], hello[pos + 1]) as int;
    pos := pos + 2;
    assert hello[start..][3 + comp..] == hello[pos..];
    if |hello| < pos + total {
      return None;
    }
    assert hello[pos..][..total] == hello[pos..pos + total];
    var e := ReadExtensions(hello[pos..pos + total]);
    r := Some(Params(version, ciphers, e.types, e.groups, e.formats));
  }

  // ---- ClientHello as section 4.1.2 of RFC 8446 lays it out ----

  /** supported_groups, ec_point_formats, or any extension that is neither. */
  datatype Ext =
    | SupportedGroups(groups: seq<U16>)
    | PointFormats(formats: seq<Byte>)
    | Other(typ: U16, data: seq<Byte>)

  datatype Hello = Hello(
    version: U16,
    random: seq<Byte>,
    session: seq<Byte>,
    ciphers: seq<U16>,
    compression: seq<Byte>,
    exts: Option<seq<Ext>>)

  function Bytes2(n: int): seq<Byte>
    requires 0 <= n < 0x1_0000
  {
    [(n / 256) as Byte, (n % 256) as Byte]
  }

  function EncodeValues(vs: seq<U16>): (s: seq<Byte>)
    ensures |s| == 2 * |vs|
  {
    if vs == [] then [] else Bytes2(vs[0] as int) + EncodeValues(vs[1..])
  }

  function TypeOf(e: Ext): U16 {
    match e
    case SupportedGroups(_) => GROUPS
    case PointFormats(_) => FORMATS
    case Other(typ, _) => typ
  }

  predicate FitsExt(e: Ext) {
    match e
    case SupportedGroups(groups) => 2 + 2 * |groups| < 0x1_0000
    case PointFormats(formats) => |formats| < 256
    case Other(typ, data) => typ != GROUPS && typ != FORMATS && |data| < 0x1_0000
  }

  function DataOf(e: Ext): (s: seq<Byte>)
    requires FitsExt(e)
    ensures |s| < 0x1_0000
  {
    match e
    case SupportedGroups(groups) => Bytes2(2 * |groups|) + EncodeValues(groups)
    case PointFormats(formats) => [|formats| as Byte] + formats
    case Other(_, data) => data
  }

  predicate FitsExts(es: seq<Ext>) { forall i :: 0 <= i < |es| ==> FitsExt(es[i]) }

  function EncodeExts(es: seq<Ext>): seq<Byte>
    requires FitsExts(es)
  {
    if es == [] then []
    else Bytes2(TypeOf(es[0]) as int) + (Bytes2(|DataOf(es[0])|) + (DataOf(es[0]) + EncodeExts(es[1..])))
  }

  predicate Fits(h: Hello) {
    && |h.random| == 32 && |h.session| < 256 && 2 * |h.ciphers| < 0x1_0000 && |h.compression| < 256
    && (h.exts.Some? ==> FitsExts(h.exts.value) && |EncodeExts(h.exts.value)| < 0x1_0000)
  }

  function EncodeExtBlock(h: Hello): (s: seq<Byte>)
    requires Fits(h)
    ensures |s| < 0x1_0002
  {
    match h.exts
    case None => []
    case Some(es) => Bytes2(|EncodeExts(es)|) + EncodeExts(es)
  }

  function EncodeTail(h: Hello): (s: seq<Byte>)
    requires Fits(h)
    ensures |s| < 0x1_0200
  {
    [|h.compression| as Byte] + (h.compression + EncodeExtBlock(h))
  }

  function EncodeSession(h: Hello): (s: seq<Byte>)
    requires Fits(h)
    ensures |s| < 0x3_0000
  {
    [|h.session| as Byte] + (h.session + (Bytes2(2 * |h.ciphers|) + (EncodeValues(h.ciphers) + EncodeTail(h))))
  }

  function EncodeHello(h: Hello): (s: seq<Byte>)
    requires Fits(h)
    ensures |s| < 0x100_0000
  {
    Bytes2(h.version as int) + (h.random + EncodeSession(h))
  }

  /** A handshake record; the parser ignores the record's own version and length. */
  function EncodeRecord(h: Hello, header: seq<Byte>): seq<Byte>
    requires Fits(h) && |header| == 4
  {
    var body := EncodeHello(h);
    [0x16] + header + [0x01, (|body| / 65536) as Byte, (|body| / 256 % 256) as Byte, (|body| % 256) as Byte] + body
  }

  // ---- Parsing inverts encoding ----

  lemma Be16Bytes2(n: int)
    requires 0 <= n < 0x1_0000
    ensures Be16(Bytes2(n)[0], Bytes2(n)[1]) as int == n
  {
  }

  lemma {:induction false} ValuesEncoded(vs: seq<U16>, rest: seq<Byte>)
    ensures Values(EncodeValues(vs) + rest, 2 * |vs|) == Strip(vs)
  {
    hide Be16, IsGrease, Bytes2;
    if vs != [] {
      var s := EncodeValues(vs) + rest;
      var n := vs[0] as int;
      Be16Bytes2(n);
      assert s == Bytes2(n) + (EncodeValues(vs[1..]) + rest);
      assert |Bytes2(n)| == 2 by { TwoBytes(n); }
      TakeDrop(Bytes2(n), EncodeValues(vs[1..]) + rest);
      assert s[0] == Bytes2(n)[0] && s[1] == Bytes2(n)[1];
      ValuesEncoded(vs[1..], rest);
    }
  }

  lemma TwoBytes(n: int)
    requires 0 <= n < 0x1_0000
    ensures |Bytes2(n)| == 2
  {
  }

  /** What the fingerprint keeps of a list of extensions. */
  function Kept(es: seq<Ext>): Exts {
    if es == [] then NO_EXTS
    else
      var e := es[0];
      Both(if IsGrease(TypeOf(e)) then NO_EXTS
           else Exts([TypeOf(e)], if e.SupportedGroups? then Strip(e.groups) else [],
                     if e.PointFormats? then e.formats else []),
           Kept(es[1..]))
  }

  lemma OneExtEncoded(e: Ext)
    requires FitsExt(e)
    ensures OneExt(TypeOf(e), DataOf(e))
         == if IsGrease(TypeOf(e)) then NO_EXTS
            else Exts([TypeOf(e)], if e.SupportedGroups? then Strip(e.groups) else [],
                      if e.PointFormats? then e.formats else [])
  {
    hide IsGrease, Be16;
    match e
    case SupportedGroups(groups) =>
      var n := 2 * |groups|;
      Be16Bytes2(n);
      TakeDrop(Bytes2(n), EncodeValues(groups));
      ValuesEncoded(groups, []);
      assert EncodeValues(groups) + [] == EncodeValues(groups);
    case PointFormats(formats) =>
      TakeDrop([|formats| as Byte], formats);
    case Other(_, _) =>
  }

  lemma ExtHead(typ: U16, data: seq<Byte>, rest: seq<Byte>)
    requires |data| < 0x1_0000
    ensures ExtList(Bytes2(typ as int) + (Bytes2(|data|) + (data + rest))) == Both(OneExt(typ, data), ExtList(rest))
  {
    hide OneExt, Be16;
    var b := Bytes2(typ as int) + (Bytes2(|data|) + (data + rest));
    Be16Bytes2(typ as int);
    Be16Bytes2(|data|);
    assert b[0] == Bytes2(typ as int)[0] && b[1] == Bytes2(typ as int)[1];
    assert b[2] == Bytes2(|data|)[0] && b[3] == Bytes2(|data|)[1];
    assert b[4..4 + |data|] == data && b[4 + |data|..] == rest;
  }

  lemma {:induction false} ExtsEncoded(es: seq<Ext>)
    requires FitsExts(es)
    ensures ExtList(EncodeExts(es)) == Kept(es)
  {
    if es != [] {
      hide ExtList, OneExt, IsGrease, Bytes2, DataOf;
      ExtHead(TypeOf(es[0]), DataOf(es[0]), EncodeExts(es[1..]));
      OneExtEncoded(es[0]);
      ExtsEncoded(es[1..]);
    }
  }

  function KeptOf(h: Hello): Params {
    WithExts(h.version, Strip(h.ciphers), if h.exts.Some? then Kept(h.exts.value) else NO_EXTS)
  }

  lemma TailEncoded(h: Hello, ciphers: seq<U16>)
    requires Fits(h)
    ensures ParseTail(h.version, ciphers, EncodeTail(h))
         == Some(WithExts(h.version, ciphers, if h.exts.Some? then Kept(h.exts.value) else NO_EXTS))
  {
    hide ExtList, Be16, EncodeExts, Kept;
    var s, c := EncodeTail(h), |h.compression|;
    assert s[0] as int == c;
    if h.exts.Some? {
      var block := EncodeExts(h.exts.value);
      Be16Bytes2(|block|);
      ExtsEncoded(h.exts.value);
      assert s[1 + c] == Bytes2(|block|)[0] && s[2 + c] == Bytes2(|block|)[1];
      assert s[3 + c..] == block && block[..|block|] == block;
    }
  }

  lemma SessionEncoded(h: Hello)
    requires Fits(h)
    ensures ParseSession(h.version, EncodeSession(h)) == Some(KeptOf(h))
  {
    hide Values, ParseTail, Be16, EncodeValues, EncodeTail, Kept, Strip;
    var s, k, n := EncodeSession(h), |h.session|, 2 * |h.ciphers|;
    var t := EncodeValues(h.ciphers) + EncodeTail(h);
    assert s[0] as int == k;
    var r := s[1 + k..];
    assert r == Bytes2(n) + t;
    Be16Bytes2(n);
    TakeDrop(Bytes2(n), t);
    TakeDrop(EncodeValues(h.ciphers), EncodeTail(h));
    assert r[2 + n..] == EncodeTail(h);
    ValuesEncoded(h.ciphers, EncodeTail(h));
    TailEncoded(h, Strip(h.ciphers));
  }

  lemma HelloEncoded(h: Hello)
    requires Fits(h)
    ensures ParseHello(EncodeHello(h)) == Some(KeptOf(h))
  {
    hide ParseSession, Be16, EncodeSession, KeptOf;
    var s, v := EncodeHello(h), h.version as int;
    Be16Bytes2(v);
    assert s[0] == Bytes2(v)[0] && s[1] == Bytes2(v)[1];
    assert s[34..] == EncodeSession(h);
    SessionEncoded(h);
  }

  /** The parser inverts the encoding, whatever follows the record: version, ciphers, extensions and
      groups without GREASE, and the point formats. */
  lemma ParseInvertsEncode(h: Hello, header: seq<Byte>, rest: seq<Byte>)
    requires Fits(h) && |header| == 4
    ensures Parse(EncodeRecord(h, header) + rest) == Some(KeptOf(h))
  {
    hide ParseHello, EncodeHello, KeptOf;
    var body := EncodeHello(h);
    var data := EncodeRecord(h, header) + rest;
    assert Be24(data[6], data[7], data[8]) == |body|;
    assert data[9..9 + |body|] == body;
    HelloEncoded(h);
  }

  /** A parse that succeeded is not changed by bytes that arrive later. */
  lemma ParseStable(data: seq<Byte>, rest: seq<Byte>)
    ensures Parse(data).Some? ==> Parse(data + rest) == Parse(data)
  {
    hide ParseHello;
    if Parse(data).Some? {
      var len := Be24(data[6], data[7], data[8]);
      assert (data + rest)[9..9 + len] == data[9..9 + len];
    }
  }
}
