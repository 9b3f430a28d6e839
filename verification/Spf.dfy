/** Printing and reading SPF records (serverwall-cli/src/commands/spf.rs). */
module Spf {
  import opened Text

  datatype Value = NoValue | Value(text: string)

  datatype Mechanism = Mechanism(qualifier: string, name: string, value: Value)

  predicate IsQualifier(c: char) { c == '+' || c == '-' || c == '~' || c == '?' }

  // ---- Printing ----

  function Body(m: Mechanism): string {
    if m.value.Value? && m.value.text != "" then m.name + [':'] + m.value.text else m.name
  }

  function Term(m: Mechanism): string { (if m.qualifier == "+" then "" else m.qualifier) + Body(m) }

  function Terms(ms: seq<Mechanism>): (r: seq<string>)
    ensures |r| == |ms| && forall i :: 0 <= i < |ms| ==> r[i] == Term(ms[i])
  {
    seq(|ms|, i requires 0 <= i < |ms| => Term(ms[i]))
  }

  function Join(parts: seq<string>): string
    requires parts != []
  {
    if |parts| == 1 then parts[0] else parts[0] + [' '] + Join(parts[1..])
  }

  const VERSION := "v=spf1"

  function Parts(ms: seq<Mechanism>, all: string): seq<string> { [VERSION] + Terms(ms) + [all] }

  function Record(ms: seq<Mechanism>, all: string): string { Join(Parts(ms, all)) }

  // ---- Reading ----

  function Read(item: string): Mechanism
    requires item != ""
  {
    var q := if IsQualifier(item[0]) then item[..1] else "+";
    var rest := if IsQualifier(item[0]) then item[1..] else item;
    var n := Cut(rest, ':');
    if n < |rest| then Mechanism(q, rest[..n], Value(rest[n + 1..])) else Mechanism(q, rest, NoValue)
  }

  function ReadAll(items: seq<string>): seq<Mechanism> {
    if items == [] then []
    else
      var rest := ReadAll(items[1..]);
      if items[0] == "" then rest else [Read(items[0])] + rest
  }

  lemma {:induction false} ReadAllAppend(a: seq<string>, b: seq<string>)
    ensures ReadAll(a + b) == ReadAll(a) + ReadAll(b)
  {
    if a == [] {
      assert a + b == b;
    } else {
      assert (a + b)[1..] == a[1..] + b;
      ReadAllAppend(a[1..], b);
    }
  }

  method ParseMechanisms(items: seq<string>) returns (result: seq<Mechanism>)
    ensures result == ReadAll(items)
  {
    result := [];
    for i := 0 to |items|
      invariant result == ReadAll(items[..i])
    {
      var item := items[i];
      ReadAllAppend(items[..i], [item]);
      assert items[..i + 1] == items[..i] + [item];
      if item == "" {
        continue;
      }
      var qualifier, rest := "+", item;
      if IsQualifier(item[0]) {
        qualifier, rest := item[..1], item[1..];
      }
      var n := Cut(rest, ':');
      if n < |rest| {
        result := result + [Mechanism(qualifier, rest[..n], Value(rest[n + 1..]))];
      } else {
        result := result + [Mechanism(qualifier, rest, NoValue)];
      }
    }
    assert items[..|items|] == items;
  }

  lemma TermsTake(ms: seq<Mechanism>, i: nat)
    requires i < |ms|
    ensures Terms(ms[..i + 1]) == Terms(ms[..i]) + [Term(ms[i])]
  {
    hide Term;
  }

  method PrintRecord(ms: seq<Mechanism>, all: string) returns (parts: seq<string>)
    ensures parts == Parts(ms, all)
  {
    hide Terms;
    parts := [VERSION];
    for i := 0 to |ms|
      invariant parts == [VERSION] + Terms(ms[..i])
    {
      TermsTake(ms, i);
      var m := ms[i];
      var q := if m.qualifier == "+" then "" else m.qualifier;
      if m.value.Value? && m.value.text != "" {
        parts := parts + [q + (m.name + [':'] + m.value.text)];
      } else {
        parts := parts + [q + m.name];
      }
    }
    assert ms[..|ms|] == ms;
    parts := parts + [all];
  }

  // ---- Round trip ----

  predicate Blankless(m: Mechanism) {
    ' ' !in m.qualifier && ' ' !in m.name && (m.value.Value? ==> ' ' !in m.value.text)
  }

  /** What a mechanism must be to survive printing and reading. */
  predicate Readable(m: Mechanism) {
    && |m.qualifier| == 1 && IsQualifier(m.qualifier[0])
    && ':' !in m.name
    && m.value != Value("")
    && (m.qualifier == "+" ==> if m.name == "" then m.value.Value? else !IsQualifier(m.name[0]))
  }

  lemma BodyCut(m: Mechanism)
    ensures ':' !in m.name && m.value != Value("") ==>
      var n := Cut(Body(m), ':');
      && n == |m.name| && Body(m)[..n] == m.name
      && (m.value.Value? <==> n < |Body(m)|)
      && (m.value.Value? ==> Body(m)[n + 1..] == m.value.text)
  {
    CutAt(m.name, ':', if m.value.Value? then m.value.text else "");
    CutPlain(m.name, ':');
  }

  lemma ReadShape(item: string)
    requires item != ""
    ensures var m := Read(item);
      && |m.qualifier| == 1 && IsQualifier(m.qualifier[0]) && ':' !in m.name
      && (m.value.Value? ==> ':' in item)
      && (IsQualifier(item[0]) ==> |m.name| + 1 == Cut(item, ':'))
  {
    var rest := if IsQualifier(item[0]) then item[1..] else item;
    CutPlain(rest, ':');
    assert rest[..|rest|] == rest;
  }

  lemma ReadableReturns(m: Mechanism)
    requires Readable(m)
    ensures Term(m) != "" && Read(Term(m)) == m
  {
    hide Cut;
    BodyCut(m);
    var t := Term(m);
    if m.qualifier == "+" {
      assert t == Body(m);
    } else {
      assert t[0] == m.qualifier[0] && t[..1] == m.qualifier && t[1..] == Body(m);
    }
  }

  lemma ReturnedReadable(m: Mechanism)
    requires Term(m) != "" && Read(Term(m)) == m
    ensures Readable(m)
  {
    hide Cut, Read, Body;
    ReadShape(Term(m));
    BodyCut(m);
    if m.qualifier == "+" {
      assert Term(m) == Body(m);
    } else {
      assert Term(m) == [m.qualifier[0]] + Body(m);
    }
    BodyChars(m);
  }

  lemma BodyChars(m: Mechanism)
    ensures m.value == Value("") || m.value == NoValue ==> Body(m) == m.name
    ensures m.name != "" ==> Body(m) != "" && Body(m)[0] == m.name[0]
    ensures m.name == "" && m.value == NoValue ==> Body(m) == ""
  {
  }

  /** A printed term is skipped or read back as another mechanism unless the mechanism is readable, and then
      it is read back as itself. */
  lemma TermExact(m: Mechanism)
    ensures (Term(m) != "" && Read(Term(m)) == m) <==> Readable(m)
  {
    hide Term, Read, Readable;
    if Readable(m) {
      ReadableReturns(m);
    }
    if Term(m) != "" && Read(Term(m)) == m {
      ReturnedReadable(m);
    }
  }

  lemma {:induction false} ReadEach(items: seq<string>)
    ensures |ReadAll(items)| <= |items|
    ensures |ReadAll(items)| == |items| ==>
      forall i :: 0 <= i < |items| ==> items[i] != "" && ReadAll(items)[i] == Read(items[i])
    ensures (forall i :: 0 <= i < |items| ==> items[i] != "") ==> |ReadAll(items)| == |items|
  {
    if items != [] {
      ReadEach(items[1..]);
    }
  }

  /** Reading the printed terms gives the mechanisms back exactly when each is readable. */
  lemma TermsExact(ms: seq<Mechanism>)
    ensures ReadAll(Terms(ms)) == ms <==> forall i :: 0 <= i < |ms| ==> Readable(ms[i])
  {
    hide Term, Read, Readable, ReadAll;
    ReadEach(Terms(ms));
    forall i | 0 <= i < |ms|
      ensures (Terms(ms)[i] != "" && Read(Terms(ms)[i]) == ms[i]) <==> Readable(ms[i])
    {
      TermExact(ms[i]);
    }
  }

  /** Pieces between blanks give only blankless mechanisms. */
  lemma {:induction false} ReadBlankless(items: seq<string>)
    requires forall i :: 0 <= i < |items| ==> ' ' !in items[i]
    ensures forall i :: 0 <= i < |ReadAll(items)| ==> Blankless(ReadAll(items)[i])
  {
    if items != [] {
      ReadBlankless(items[1..]);
    }
  }

  predicate Plain(parts: seq<string>) { forall i :: 0 <= i < |parts| ==> ' ' !in parts[i] }

  lemma {:induction false} SplitJoin(parts: seq<string>, last: string)
    requires Plain(parts)
    ensures Split(Join(parts + [last]), ' ') == parts + Split(last, ' ')
    decreases |parts|
  {
    hide Split;
    if parts == [] {
      assert parts + [last] == [last];
    } else {
      SplitJoin(parts[1..], last);
      assert (parts + [last])[1..] == parts[1..] + [last];
      SplitPlain(parts[0], ' ');
      SplitSeam(parts[0], ' ', Join(parts[1..] + [last]));
    }
  }

  /** The terms between the version and the last one. */
  function Middle(record: string): seq<string> {
    var pieces := Split(record, ' ');
    if |pieces| <= 2 then [] else pieces[1..|pieces| - 1]
  }

  /** What a last term with blanks in it adds to the middle. */
  function Early(all: string): seq<string> { Split(all, ' ')[..|Split(all, ' ')| - 1] }

  lemma TermBlankless(m: Mechanism)
    requires Blankless(m)
    ensures ' ' !in Term(m)
  {
  }

  lemma PartsPlain(ms: seq<Mechanism>)
    requires forall i :: 0 <= i < |ms| ==> Blankless(ms[i])
    ensures Plain([VERSION] + Terms(ms))
  {
    hide Terms, Term;
    forall i | 0 <= i < |ms|
      ensures ' ' !in Terms(ms)[i]
    {
      TermBlankless(ms[i]);
    }
    assert ' ' !in VERSION;
  }

  lemma MiddleOf(parts: seq<string>, last: string)
    requires Plain(parts) && parts != []
    ensures Middle(Join(parts + [last])) == parts[1..] + Early(last)
  {
    hide Split, Join, Plain;
    SplitJoin(parts, last);
    var tail := Split(last, ' ');
    assert (parts + tail)[1..|parts + tail| - 1] == parts[1..] + tail[..|tail| - 1];
  }

  lemma MiddleIs(ms: seq<Mechanism>, all: string)
    requires forall i :: 0 <= i < |ms| ==> Blankless(ms[i])
    ensures Middle(Record(ms, all)) == Terms(ms) + Early(all)
  {
    hide Middle, Join, Terms, Term, Blankless, Plain, Early;
    PartsPlain(ms);
    MiddleOf([VERSION] + Terms(ms), all);
    assert ([VERSION] + Terms(ms))[1..] == Terms(ms);
  }

  predicate AllEmpty(items: seq<string>) { forall i :: 0 <= i < |items| ==> items[i] == "" }

  predicate NoneEmpty(items: seq<string>) { forall i :: 0 <= i < |items| ==> items[i] != "" }

  lemma {:induction false} ReadNone(items: seq<string>)
    ensures ReadAll(items) == [] <==> AllEmpty(items)
  {
    if items != [] {
      ReadNone(items[1..]);
    }
  }

  predicate Survives(m: Mechanism) { Readable(m) && Blankless(m) }

  lemma BlanklessReturns(ms: seq<Mechanism>, all: string)
    requires forall i :: 0 <= i < |ms| ==> Blankless(ms[i])
    ensures (forall i :: 0 <= i < |ms| ==> Readable(ms[i])) && AllEmpty(Early(all)) ==>
      ReadAll(Middle(Record(ms, all))) == ms
    ensures ReadAll(Middle(Record(ms, all))) == ms && (NoneEmpty(Terms(ms)) || ' ' !in all) ==>
      (forall i :: 0 <= i < |ms| ==> Readable(ms[i])) && AllEmpty(Early(all))
  {
    hide Record, Terms, ReadAll, Readable, Blankless, Split, Middle;
    MiddleIs(ms, all);
    ReadAllAppend(Terms(ms), Early(all));
    TermsExact(ms);
    ReadNone(Early(all));
    ReadEach(Terms(ms));
    if ' ' !in all {
      SplitPlain(all, ' ');
    }
  }

  /** A record whose mechanisms are readable and blankless returns them on splitting it at blanks and reading the middle
      terms, if nothing but blanks stands before the last term's last word; and it returns them only then,
      unless the last term has blanks and some mechanism prints as nothing. */
  lemma RecordExact(ms: seq<Mechanism>, all: string)
    ensures (forall i :: 0 <= i < |ms| ==> Survives(ms[i])) && AllEmpty(Early(all)) ==>
      ReadAll(Middle(Record(ms, all))) == ms
    ensures ReadAll(Middle(Record(ms, all))) == ms && (NoneEmpty(Terms(ms)) || ' ' !in all) ==>
      (forall i :: 0 <= i < |ms| ==> Survives(ms[i])) && AllEmpty(Early(all))
  {
    hide Record, Terms, ReadAll, Readable, Blankless, Split, AllEmpty, NoneEmpty, Early;
    SplitPieces(Record(ms, all), ' ');
    ReadBlankless(Middle(Record(ms, all)));
    if forall i :: 0 <= i < |ms| ==> Blankless(ms[i]) {
      BlanklessReturns(ms, all);
    }
  }

  /** For a last term without blanks: exactly the readable, blankless mechanisms come back. */
  lemma PlainRecordExact(ms: seq<Mechanism>, all: string)
    requires ' ' !in all
    ensures ReadAll(Middle(Record(ms, all))) == ms <==> forall i :: 0 <= i < |ms| ==> Survives(ms[i])
  {
    hide Record, Terms, ReadAll, Survives, Middle;
    RecordExact(ms, all);
    SplitPlain(all, ' ');
  }

  /** The exception: a mechanism that prints as nothing is made up for by a word of the last term. */
  lemma MadeUpFor()
    ensures var nothing := Mechanism("+", "", NoValue);
      Term(nothing) == "" && ReadAll(Middle(Record([nothing], "+ x"))) == [nothing]
  {
    hide Split, Middle, Record;
    var nothing := Mechanism("+", "", NoValue);
    MiddleIs([nothing], "+ x");
    assert "+ x" == "+" + [' '] + "x";
    SplitSeam("+", ' ', "x");
    SplitPlain("+", ' ');
    SplitPlain("x", ' ');
    assert Early("+ x") == ["+"];
    assert Terms([nothing]) == [""];
    assert Read("+") == nothing;
    assert Middle(Record([nothing], "+ x")) == ["", "+"];
    assert ["", "+"][1..] == ["+"] && ["+"][1..] == [];
    assert ReadAll(["+"]) == [Read("+")];
  }

  /** A mechanism named `+a` is read back as one named `a`. */
  lemma NotEveryMechanismReturns()
    ensures ReadAll(Middle(Record([Mechanism("+", "+a", NoValue)], "-all"))) != [Mechanism("+", "+a", NoValue)]
  {
    hide Record, ReadAll, Middle, Term, Split;
    var m := Mechanism("+", "+a", NoValue);
    PlainRecordExact([m], "-all");
    assert !Survives([m][0]);
  }
}
