/**
 Which headers come back when each is written as a line and the lines are read again.
 */
module HeaderRoundTrip {
  import opened HeaderLines

  predicate Blank(s: string) {
    forall i :: 0 <= i < |s| ==> IsBlank(s[i])
  }

  predicate Trimmed(s: string) {
    s == "" || (!IsBlank(s[0]) && !IsBlank(s[|s| - 1]))
  }

  /** A field name and value as the grammar of section 3.2 of RFC 7230 would have them. */
  predicate Clean(h: Header) {
    h.name != "" && Trimmed(h.name) && ':' !in h.name && Trimmed(h.value)
  }

  function Line(h: Header): string {
    h.name + ":" + h.value
  }

  /** A field with any blanks about its colon and at its end splits into its name and value. */
  lemma FieldIsSplit(name: string, b1: string, b2: string, value: string, b3: string)
    requires Clean(Header(name, value)) && Blank(b1) && Blank(b2) && Blank(b3)
    ensures Split(name + b1 + ":" + b2 + value + b3) == Header(name, value)
  {
    hide SkipBlanks;
    hide TrimEnd;
    hide Colon;
    var line := name + b1 + ":" + b2 + value + b3;
    var n := |name + b1|;
    assert line[0] == name[0];
    SkipIs(line, 0);
    assert line[..n] == name + b1 && line[n] == ':';
    assert forall i :: 0 <= i < n ==> line[i] == (name + b1)[i];
    NoColon(name, b1);
    ColonIs(line, n);
    SplitIs(line, 0, n);
    TrimIs(name + b1, |name|);
    assert line[n + 1..] == b2 + value + b3;
    ValueIsLeft(b2, value, b3);
  }

  lemma NoColon(name: string, b: string)
    requires ':' !in name && Blank(b)
    ensures forall i :: 0 <= i < |name + b| ==> (name + b)[i] != ':'
  {
  }

  lemma ValueIsLeft(b2: string, value: string, b3: string)
    requires Trimmed(value) && Blank(b2) && Blank(b3)
    ensures TrimEnd(SkipBlanks(b2 + value + b3)) == value
  {
    hide SkipBlanks;
    hide TrimEnd;
    var s := b2 + value + b3;
    if value == "" {
      SkipIs(s, |s|);
      TrimIs(s[|s|..], 0);
    } else {
      SkipIs(s, |b2|);
      assert s[|b2|..] == value + b3;
      TrimIs(value + b3, |value|);
    }
  }

  lemma {:induction false} SkipBegins(s: string)
    ensures SkipBlanks(s) == s[Leading(s)..] && (SkipBlanks(s) == "" || !IsBlank(SkipBlanks(s)[0]))
  {
    if s != "" && IsBlank(s[0]) {
      SkipBegins(s[1..]);
    }
  }

  lemma {:induction false} TrimEnds(s: string)
    ensures TrimEnd(s) <= s && (TrimEnd(s) == "" || !IsBlank(TrimEnd(s)[|TrimEnd(s)| - 1]))
  {
    if s != "" && IsBlank(s[|s| - 1]) {
      TrimEnds(s[..|s| - 1]);
    }
  }

  lemma {:induction false} ColonIsFirst(s: string)
    ensures ':' !in s[..Colon(s)] && (Colon(s) < |s| ==> s[Colon(s)] == ':')
  {
    if s != "" && s[0] != ':' {
      ColonIsFirst(s[1..]);
      assert s[..Colon(s)] == [s[0]] + s[1..][..Colon(s[1..])];
    }
  }

  /** The name of any line begins with no blank and has no colon in it. */
  lemma NameIsClean(line: string)
    ensures var n := Split(line).name; Trimmed(n) && ':' !in n && n <= SkipBlanks(line)
  {
    hide SkipBlanks;
    hide TrimEnd;
    hide Colon;
    var body := SkipBlanks(line);
    SkipBegins(line);
    ColonIsFirst(body);
    TrimEnds(body);
    TrimEnds(body[..Colon(body)]);
    assert body[..|body|] == body;
  }

  lemma SplitIsClean(line: string)
    requires Leading(line) == 0
    ensures Split(line).name == "" || Clean(Split(line))
  {
    hide SkipBlanks;
    hide TrimEnd;
    hide Colon;
    NameIsClean(line);
    var body := SkipBlanks(line);
    if Colon(body) < |body| {
      var rest := body[Colon(body) + 1..];
      SkipBegins(rest);
      TrimEnds(SkipBlanks(rest));
    }
  }

  /** A header written as a line is split into itself exactly if it is clean. */
  lemma SplitsBackExactly(h: Header)
    requires h.name != ""
    ensures Split(Line(h)) == h <==> Clean(h)
  {
    hide SkipBlanks;
    if Clean(h) {
      FieldIsSplit(h.name, "", "", h.value, "");
      assert h.name + "" + ":" + "" + h.value + "" == Line(h);
    }
    if Split(Line(h)) == h {
      NameIsClean(Line(h));
      assert Line(h)[0] == h.name[0];
      SkipIs(Line(h), 0);
      SplitIsClean(Line(h));
    }
  }

  // ----- all the headers -----

  /** The headers there are once the lines have all been processed. */
  function Received(lines: seq<string>): seq<Header> {
    if lines == [] then [] else Processed(Received(lines[..|lines| - 1]), lines[|lines| - 1])
  }

  function Lines(headers: seq<Header>): (lines: seq<string>)
    ensures |lines| == |headers| && forall i :: 0 <= i < |lines| ==> lines[i] == Line(headers[i])
  {
    seq(|headers|, i requires 0 <= i < |headers| => Line(headers[i]))
  }

  /** Every header is clean, and none but the first is the start of a response. */
  predicate Restorable(headers: seq<Header>) {
    forall i :: 0 <= i < |headers| ==> Clean(headers[i]) && (i > 0 ==> !StartsResponse(Line(headers[i])))
  }

  lemma {:induction false} NoMoreThanLines(lines: seq<string>)
    ensures |Received(lines)| <= |lines|
  {
    if lines != [] {
      NoMoreThanLines(lines[..|lines| - 1]);
    }
  }

  lemma {:induction false} RestorableAreRestored(headers: seq<Header>)
    requires Restorable(headers)
    ensures Received(Lines(headers)) == headers
  {
    hide Split;
    hide Trimmed;
    hide StartsResponse;
    if headers != [] {
      var n, lines := |headers| - 1, Lines(headers);
      assert lines[..n] == Lines(headers[..n]);
      assert headers == headers[..n] + [headers[n]];
      RestorableAreRestored(headers[..n]);
      SplitsBackExactly(headers[n]);
      assert n == 0 ==> headers[..n] == [];
    }
  }

  lemma {:induction false} RestoredAreRestorable(headers: seq<Header>)
    requires Received(Lines(headers)) == headers
    ensures Restorable(headers)
  {
    hide Split;
    hide Clean;
    hide StartsResponse;
    if headers != [] {
      var n, lines := |headers| - 1, Lines(headers);
      assert lines[..n] == Lines(headers[..n]);
      NoMoreThanLines(lines[..n]);
      LastOne(Received(lines[..n]), lines[n], headers);
      RestoredAreRestorable(headers[..n]);
      SplitsBackExactly(headers[n]);
    }
  }

  /** Headers written as lines and read again are the same headers exactly if they are restorable. */
  lemma RestoredExactly(headers: seq<Header>)
    ensures Received(Lines(headers)) == headers <==> Restorable(headers)
  {
    hide Restorable;
    if Restorable(headers) {
      RestorableAreRestored(headers);
    }
    if Received(Lines(headers)) == headers {
      RestoredAreRestorable(headers);
    }
  }

  lemma LastOne(before: seq<Header>, line: string, headers: seq<Header>)
    requires Processed(before, line) == headers && |before| < |headers|
    ensures headers == (if StartsResponse(line) then [] else before) + [Split(line)] && Split(line).name != ""
    ensures |before| + 1 == |headers| ==> before == headers[..|before|] && (StartsResponse(line) ==> before == [])
  {
    if StartsResponse(line) {
      assert |headers| <= 1;
    }
  }

  /** The headers received are restorable, if no line began with a blank. */
  lemma {:induction false} ReceivedAreRestorable(lines: seq<string>)
    requires forall i :: 0 <= i < |lines| ==> Leading(lines[i]) == 0
    ensures Restorable(Received(lines))
  {
    hide Split;
    if lines != [] {
      var n := |lines| - 1;
      ReceivedAreRestorable(lines[..n]);
      SplitIsClean(lines[n]);
      NameIsClean(lines[n]);
      if StartsResponse(Line(Split(lines[n]))) && Split(lines[n]).name != "" {
        OnlyANameStartsIt(Split(lines[n]));
        SkipBegins(lines[n]);
        assert Split(lines[n]).name <= lines[n];
      }
    }
  }

  lemma OnlyANameStartsIt(h: Header)
    requires StartsResponse(Line(h))
    ensures "HTTP/" <= h.name
  {
    assert Line(h)[|h.name|] == ':';
    assert forall i :: 0 <= i < 5 ==> Line(h)[i] == "HTTP/"[i] && "HTTP/"[i] != ':';
  }

  lemma BlankIsKept()
    ensures Split(" X: v ") == Header("X", "v ") && !StartsResponse(" X: v ")
  {
    hide SkipBlanks;
    hide TrimEnd;
    hide Colon;
    var line := " X: v ";
    SkipIs(line, 1);
    assert line[1..][1..] == ": v " && line[1..][2..] == " v ";
    ColonIs(line[1..], 1);
    SplitIs(line, 1, 2);
    TrimIs(line[1..2], 1);
    SkipIs(" v ", 1);
  }

  lemma NotClean()
    ensures !Restorable([Header("X", "v ")])
  {
    assert !Clean([Header("X", "v ")][0]);
  }

  /** With a blank before the name, blanks after the value stay, and are lost on the way back. */
  lemma BlankBeforeTheName()
    ensures Received([" X: v "]) == [Header("X", "v ")]
    ensures !Restorable(Received([" X: v "])) && Received(Lines(Received([" X: v "]))) != Received([" X: v "])
  {
    hide Split;
    hide Lines;
    hide Restorable;
    BlankIsKept();
    var none: seq<string> := [" X: v "][..0];
    assert Received(none) == [];
    NotClean();
    RestoredExactly([Header("X", "v ")]);
  }

  /** Any of the four blanks is dropped about name and value. */
  lemma BlanksOfOneLine()
    ensures Split("A :\tb\r\n") == Header("A", "b")
  {
    assert Colon("A :\tb\r\n") == 2;
    assert TrimEnd("A ") == "A";
    assert SkipBlanks("\tb\r\n") == "b\r\n";
    assert TrimEnd("b\r\n") == TrimEnd("b\r") == TrimEnd("b") == "b";
  }
}
