/**
 What the cache writes about an object beside its source, so that the object can be had again from the backing store.
 */
module Metadata {
  import opened Common
  import opened Decimals
  import opened HeaderLines
  import opened HeaderRoundTrip

  datatype Meta = Meta(url: string, length: Size, requested: Time, responded: Time, finished: Time, headers: seq<Header>)

  /** What strings of C can hold. */
  predicate AllText(m: Meta) {
    IsText(m.url) && forall i :: 0 <= i < |m.headers| ==> IsText(Line(m.headers[i]))
  }

  // ----- writing -----

  function Ended(line: string): string {
    line + "\0"
  }

  function HeaderText(headers: seq<Header>): string {
    if headers == [] then "" else Ended(Line(headers[0])) + HeaderText(headers[1..])
  }

  /** The room set aside for the headers. */
  function HeaderSpace(headers: seq<Header>): nat {
    if headers == [] then 0
    else HeaderSpace(headers[..|headers| - 1]) + |headers[|headers| - 1].name| + 1 + |headers[|headers| - 1].value| + 1
  }

  function FrontText(m: Meta): string {
    Ended(m.url) + Ended(Decimal(m.length)) + Ended(Decimal(m.requested)) + Ended(Decimal(m.responded))
    + Ended(Decimal(m.finished)) + Ended(Decimal(|m.headers|))
  }

  function Text(m: Meta): string {
    FrontText(m) + HeaderText(m.headers) + Ended(Decimal(0))
  }

  function Space(m: Meta): nat {
    6 * (10 + 1) + HeaderSpace(m.headers) + |m.url| + 1
  }

  lemma TailOfTake<T>(s: seq<T>, n: nat)
    requires 0 < n <= |s|
    ensures s[..n][1..] == s[1..][..n - 1]
  {
  }

  lemma {:induction false} HeaderTextGrows(headers: seq<Header>, n: nat)
    requires n < |headers|
    ensures HeaderText(headers[..n + 1]) == HeaderText(headers[..n]) + Ended(Line(headers[n]))
  {
    hide Ended;
    if n > 0 {
      HeaderTextGrows(headers[1..], n - 1);
      TailOfTake(headers, n + 1);
      TailOfTake(headers, n);
    }
  }

  lemma {:induction false} HeadersHaveRoom(headers: seq<Header>)
    ensures |HeaderText(headers)| == HeaderSpace(headers)
  {
    if headers != [] {
      var n := |headers| - 1;
      HeadersHaveRoom(headers[..n]);
      HeaderTextGrows(headers, n);
      assert headers[..n + 1] == headers;
    }
  }

  /** A buffer being filled: what is in it, and how much room is left or, once negative, was missing. */
  method Write(buffer: string, space: int, line: string) returns (written: string, left: int)
    ensures left == space - |line| - 1 && written == if left >= 0 then buffer + Ended(line) else buffer
  {
    left := space - |line| - 1;
    written := if left >= 0 then buffer + (line + "\0") else buffer;
  }

  method Measure(m: Meta) returns (space: nat)
    ensures space == Space(m)
  {
    space := 5 * (10 + 1);
    for i := 0 to |m.headers|
      invariant space == 5 * (10 + 1) + HeaderSpace(m.headers[..i])
    {
      space := space + |m.headers[i].name| + 1;
      space := space + |m.headers[i].value| + 1;
      assert m.headers[..i + 1][..i] == m.headers[..i];
    }
    assert m.headers[..|m.headers|] == m.headers;
    space := space + |m.url| + 1;
    space := space + 10 + 1;
  }

  /** All that comes before the headers, if there is room for it. */
  method WriteFront(m: Meta, space: nat) returns (buffer: string, left: int)
    ensures left >= 0 ==> buffer == FrontText(m) && left == space - |FrontText(m)|
    ensures left < 0 ==> space < |FrontText(m)|
  {
    hide Decimal;
    buffer, left := Write("", space, m.url);
    if left < 0 { return; }
    assert buffer == Ended(m.url);
    buffer, left := Write(buffer, left, Decimal(m.length));
    if left < 0 { return; }
    buffer, left := Write(buffer, left, Decimal(m.requested));
    if left < 0 { return; }
    buffer, left := Write(buffer, left, Decimal(m.responded));
    if left < 0 { return; }
    buffer, left := Write(buffer, left, Decimal(m.finished));
    if left < 0 { return; }
    buffer, left := Write(buffer, left, Decimal(|m.headers|));
  }

  method Serialise(m: Meta) returns (r: Option<string>)
    ensures r == if |Text(m)| <= Space(m) then Some(Text(m)) else None
  {
    hide Decimal;
    hide HeaderText;
    hide FrontText;
    hide Space;
    var space := Measure(m);
    var buffer, left := WriteFront(m, space);
    if left < 0 {
      return None;
    }
    NoHeadersNoText(m);
    for i := 0 to |m.headers|
      invariant buffer == FrontText(m) + HeaderText(m.headers[..i]) && left == Space(m) - |buffer| >= 0
    {
      HeaderTextGrows(m.headers, i);
      buffer, left := Write(buffer, left, m.headers[i].name + ":" + m.headers[i].value);
      if left < 0 {
        TextIsLonger(m, i + 1);
        return None;
      }
    }
    assert m.headers[..|m.headers|] == m.headers;
    buffer, left := Write(buffer, left, Decimal(0));
    if left < 0 {
      return None;
    }
    r := Some(buffer);
  }

  lemma NoHeadersNoText(m: Meta)
    ensures HeaderText(m.headers[..0]) == ""
  {
  }

  lemma {:induction false} TextIsLonger(m: Meta, n: nat)
    requires n <= |m.headers|
    ensures |HeaderText(m.headers[..n])| <= |HeaderText(m.headers)|
    decreases |m.headers| - n
  {
    if n < |m.headers| {
      HeaderTextGrows(m.headers, n);
      TextIsLonger(m, n + 1);
    } else {
      assert m.headers[..n] == m.headers;
    }
  }

  /** How many characters the numbers among the metadata are written with. */
  function NumberLength(m: Meta): nat {
    |Decimal(m.length)| + |Decimal(m.requested)| + |Decimal(m.responded)| + |Decimal(m.finished)| + |Decimal(|m.headers|)|
    + |Decimal(0)|
  }

  /** Ten characters are set aside for each number, and only their sum matters. */
  lemma FitsExactly(m: Meta)
    ensures |Text(m)| <= Space(m) <==> NumberLength(m) <= 60
  {
    HeadersHaveRoom(m.headers);
  }

  // ----- reading -----

  /**
   What comes of reading metadata. It is past its end that the source reads, with no check, where lines are missing,
   or that it looks for the end of a value whose line begins with several blanks.
   */
  datatype Outcome =
    | Restored(length: Size, requested: Time, responded: Time, finished: Time)
    | Invalid
    | WrongUrl
    | WithCertificates
    | PastTheEnd

  const MAX_CERT_DEPTH := 10

  /** Where the string that begins at the start of `data` is terminated. */
  function End(data: string): (n: nat)
    ensures n <= |data|
  {
    if data == "" || data[0] == '\0' then 0 else 1 + End(data[1..])
  }

  function NextLine(data: string): Option<string> {
    if End(data) < |data| then Some(data[..End(data)]) else None
  }

  function AfterLine(data: string): (rest: string)
    ensures End(data) < |data| ==> |rest| < |data|
  {
    if End(data) < |data| then data[End(data) + 1..] else ""
  }

  datatype Taken<+T> = Took(value: T, rest: string) | Stopped(why: Outcome)

  function TakeSize(data: string): Taken<Size> {
    match NextLine(data)
    case None => Stopped(PastTheEnd)
    case Some(line) => match ReadSize(line)
      case None => Stopped(Invalid)
      case Some(n) => Took(n, AfterLine(data))
  }

  function TakeTime(data: string): Taken<Time> {
    match NextLine(data)
    case None => Stopped(PastTheEnd)
    case Some(line) => match ReadTime(line)
      case None => Stopped(Invalid)
      case Some(n) => Took(n, AfterLine(data))
  }

  function TakeUrl(data: string, url: string): Taken<()> {
    match NextLine(data)
    case None => Stopped(PastTheEnd)
    case Some(line) =>
      if |line| < 7 then Stopped(Invalid) else if line != url then Stopped(WrongUrl) else Took((), AfterLine(data))
  }

  datatype Front = Front(length: Size, requested: Time, responded: Time, finished: Time, count: Size)

  function TakeFront(data: string, url: string): Taken<Front> {
    match TakeUrl(data, url) case Stopped(why) => Stopped(why) case Took(_, d1) =>
    match TakeSize(d1) case Stopped(why) => Stopped(why) case Took(length, d2) =>
    match TakeTime(d2) case Stopped(why) => Stopped(why) case Took(requested, d3) =>
    match TakeTime(d3) case Stopped(why) => Stopped(why) case Took(responded, d4) =>
    match TakeTime(d4) case Stopped(why) => Stopped(why) case Took(finished, d5) =>
    match TakeSize(d5) case Stopped(why) => Stopped(why) case Took(count, d6) =>
    Took(Front(length, requested, responded, finished, count), d6)
  }

  /** The headers once so many lines have been processed, and what is left of the data if they were all there. */
  function TakeHeaders(data: string, n: nat, headers: seq<Header>): (Option<string>, seq<Header>)
    decreases n
  {
    if n == 0 then (Some(data), headers)
    else match NextLine(data)
      case None => (None, headers)
      case Some(line) =>
        if InBounds(line) then TakeHeaders(AfterLine(data), n - 1, Processed(headers, line)) else (None, headers)
  }

  /** The end of the metadata, which may have the number of certificates and, were there any, those. */
  function TakeEnd(data: string, f: Front): Outcome {
    var done := Restored(f.length, f.requested, f.responded, f.finished);
    if data == "" then done
    else match TakeSize(data)
      case Stopped(why) => why
      case Took(n, _) => if n == 0 then done else if n > MAX_CERT_DEPTH then Invalid else WithCertificates
  }

  /** What reading does, and the headers the object has afterwards. */
  function Parsed(data: string, url: string, headers: seq<Header>): (Outcome, seq<Header>) {
    match TakeFront(data, url)
    case Stopped(why) => (why, headers)
    case Took(f, rest) =>
      match TakeHeaders(rest, f.count, headers)
      case (None, hs) => (PastTheEnd, hs)
      case (Some(end), hs) => (TakeEnd(end, f), hs)
  }

  lemma {:induction false} EndFrom(data: string, n: nat)
    requires n <= |data| && (forall i :: 0 <= i < n ==> data[i] != '\0') && (n == |data| || data[n] == '\0')
    ensures End(data) == n
  {
    if n > 0 {
      EndFrom(data[1..], n - 1);
    }
  }

  /** The string that begins at a place in the data, and where the next begins, if it is terminated. */
  method ReadLine(data: string, pos: nat) returns (line: Option<string>, next: nat)
    requires pos <= |data|
    ensures line == NextLine(data[pos..]) && next <= |data|
    ensures line.Some? ==> IsText(line.value)
    ensures line.Some? ==> data[next..] == AfterLine(data[pos..])
  {
    hide End;
    var end := pos;
    while end < |data| && data[end] != '\0'
      invariant pos <= end <= |data| && forall i :: pos <= i < end ==> data[i] != '\0'
    {
      end := end + 1;
    }
    EndFrom(data[pos..], end - pos);
    if end == |data| {
      return None, end;
    }
    assert data[pos..][..end - pos] == data[pos..end] && data[pos..][end - pos + 1..] == data[end + 1..];
    line, next := Some(data[pos..end]), end + 1;
  }

  method ReadFront(data: string, url: string) returns (f: Taken<Front>, next: nat)
    ensures f == TakeFront(data, url) && next <= |data| && (f.Took? ==> f.rest == data[next..])
  {
    hide NextLine;
    hide AfterLine;
    hide ReadSize;
    hide ReadTime;
    assert data[0..] == data;
    var line;
    line, next := ReadLine(data, 0);
    if line == None { return Stopped(PastTheEnd), next; }
    if |line.value| < 7 { return Stopped(Invalid), next; }
    if line.value != url { return Stopped(WrongUrl), next; }
    line, next := ReadLine(data, next);
    if line == None { return Stopped(PastTheEnd), next; }
    var length := ReadSize(line.value);
    if length == None { return Stopped(Invalid), next; }
    line, next := ReadLine(data, next);
    if line == None { return Stopped(PastTheEnd), next; }
    var requested := ReadTime(line.value);
    if requested == None { return Stopped(Invalid), next; }
    line, next := ReadLine(data, next);
    if line == None { return Stopped(PastTheEnd), next; }
    var responded := ReadTime(line.value);
    if responded == None { return Stopped(Invalid), next; }
    line, next := ReadLine(data, next);
    if line == None { return Stopped(PastTheEnd), next; }
    var finished := ReadTime(line.value);
    if finished == None { return Stopped(Invalid), next; }
    line, next := ReadLine(data, next);
    if line == None { return Stopped(PastTheEnd), next; }
    var count := ReadSize(line.value);
    if count == None { return Stopped(Invalid), next; }
    f := Took(Front(length.value, requested.value, responded.value, finished.value, count.value), data[next..]);
  }

  /** The object's URL and headers are those given; its headers are processed as they are read. */
  method ProcessMetadata(data: string, url: string, headers: seq<Header>) returns (out: Outcome, hs: seq<Header>)
    ensures (out, hs) == Parsed(data, url, headers)
  {
    hide NextLine;
    hide AfterLine;
    hide ReadSize;
    hide TakeFront;
    hide Processed;
    hide InBounds;
    hs := headers;
    var front, pos := ReadFront(data, url);
    if front.Stopped? {
      return front.why, hs;
    }
    var f := front.value;
    var line;
    var i := 0;
    while i < f.count
      invariant 0 <= i <= f.count && 0 <= pos <= |data|
      invariant TakeHeaders(data[pos..], f.count - i, hs) == TakeHeaders(front.rest, f.count, headers)
    {
      line, pos := ReadLine(data, pos);
      if line == None {
        return PastTheEnd, hs;
      }
      var ok;
      ok, hs := ProcessHeader(hs, line.value);
      if !ok {
        return PastTheEnd, hs;
      }
      i := i + 1;
    }
    if pos < |data| {
      line, pos := ReadLine(data, pos);
      if line == None {
        return PastTheEnd, hs;
      }
      var certificates := ReadSize(line.value);
      if certificates == None || certificates.value > MAX_CERT_DEPTH {
        return Invalid, hs;
      }
      if certificates.value > 0 {
        return WithCertificates, hs;
      }
    }
    out := Restored(f.length, f.requested, f.responded, f.finished);
  }

  // ----- what is written comes back -----

  lemma {:induction false} EndIs(line: string, rest: string)
    requires IsText(line)
    ensures End(Ended(line) + rest) == |line|
  {
    var data := Ended(line) + rest;
    if line != "" {
      assert data[1..] == Ended(line[1..]) + rest;
      EndIs(line[1..], rest);
    }
  }

  lemma NextIs(line: string, rest: string)
    requires IsText(line)
    ensures NextLine(Ended(line) + rest) == Some(line) && AfterLine(Ended(line) + rest) == rest
  {
    EndIs(line, rest);
    var data := Ended(line) + rest;
    assert data[..|line|] == line && data[|line| + 1..] == rest;
  }

  lemma SizeIsTaken(n: Size, rest: string)
    ensures TakeSize(Ended(Decimal(n)) + rest) == Took(n, rest)
  {
    NextIs(Decimal(n), rest);
    DecimalReadsBack(n);
  }

  lemma TimeIsTaken(n: Time, rest: string)
    ensures TakeTime(Ended(Decimal(n)) + rest) == Took(n, rest)
  {
    NextIs(Decimal(n), rest);
    DecimalReadsBack(n);
  }

  lemma FrontIsTaken(m: Meta, rest: string)
    requires IsText(m.url) && |m.headers| < SIZE_LIMIT
    ensures TakeFront(FrontText(m) + rest, m.url) ==
            if |m.url| < 7 then Stopped(Invalid)
            else Took(Front(m.length, m.requested, m.responded, m.finished, |m.headers|), rest)
  {
    hide Decimal;
    hide TakeSize;
    hide TakeTime;
    hide Ended;
    var d5 := Ended(Decimal(|m.headers|)) + rest;
    var d4 := Ended(Decimal(m.finished)) + d5;
    var d3 := Ended(Decimal(m.responded)) + d4;
    var d2 := Ended(Decimal(m.requested)) + d3;
    var d1 := Ended(Decimal(m.length)) + d2;
    assert FrontText(m) + rest == Ended(m.url) + d1;
    NextIs(m.url, d1);
    SizeIsTaken(m.length, d2);
    TimeIsTaken(m.requested, d3);
    TimeIsTaken(m.responded, d4);
    TimeIsTaken(m.finished, d5);
    SizeIsTaken(|m.headers|, rest);
  }

  predicate AllInBounds(headers: seq<Header>) {
    forall i :: 0 <= i < |headers| ==> InBounds(Line(headers[i]))
  }

  lemma NoneTaken(headers: seq<Header>, rest: string, sofar: seq<Header>)
    requires headers == []
    ensures TakeHeaders(HeaderText(headers) + rest, 0, sofar) == (Some(rest), sofar)
  {
    assert HeaderText(headers) + rest == rest;
  }

  lemma OneTaken(headers: seq<Header>, rest: string, sofar: seq<Header>)
    requires headers != [] && InBounds(Line(headers[0]))
    ensures TakeHeaders(HeaderText(headers) + rest, |headers|, sofar)
         == TakeHeaders(HeaderText(headers[1..]) + rest, |headers| - 1, Processed(sofar, Line(headers[0])))
  {
    hide InBounds;
    hide Processed;
    var after := HeaderText(headers[1..]) + rest;
    assert HeaderText(headers) + rest == Ended(Line(headers[0])) + after;
    BoundedIsText(Line(headers[0]));
    NextIs(Line(headers[0]), after);
  }

  lemma BoundedIsText(line: string)
    requires InBounds(line)
    ensures IsText(line)
  {
  }

  lemma OneReceived(lines: seq<string>, k: nat)
    requires k < |lines|
    ensures Received(lines[..k + 1]) == Processed(Received(lines[..k]), lines[k])
  {
    hide Processed;
    assert lines[..k + 1][..k] == lines[..k] && lines[..k + 1][k] == lines[k];
  }

  /** Reading the headers written processes each of their lines in turn. */
  lemma {:induction false} HeadersAreTaken(headers: seq<Header>, k: nat, rest: string)
    requires k <= |headers| && AllInBounds(headers)
    ensures TakeHeaders(HeaderText(headers[k..]) + rest, |headers| - k, Received(Lines(headers)[..k]))
         == (Some(rest), Received(Lines(headers)))
    decreases |headers| - k
  {
    hide TakeHeaders;
    hide HeaderText;
    hide Received;
    hide InBounds;
    var lines := Lines(headers);
    if k == |headers| {
      assert lines[..k] == lines;
      NoneTaken(headers[k..], rest, Received(lines));
    } else {
      assert lines[k] == Line(headers[k]) && headers[k..][1..] == headers[k + 1..];
      OneTaken(headers[k..], rest, Received(lines[..k]));
      OneReceived(lines, k);
      HeadersAreTaken(headers, k + 1, rest);
    }
  }

  /** With several blanks before a name, reading goes astray. */
  lemma {:induction false} HeadersGoAstray(headers: seq<Header>, rest: string, sofar: seq<Header>)
    requires (forall i :: 0 <= i < |headers| ==> IsText(Line(headers[i]))) && !AllInBounds(headers)
    ensures TakeHeaders(HeaderText(headers) + rest, |headers|, sofar).0 == None
  {
    var after := HeaderText(headers[1..]) + rest;
    assert HeaderText(headers) + rest == Ended(Line(headers[0])) + after;
    NextIs(Line(headers[0]), after);
    if InBounds(Line(headers[0])) {
      var i :| 0 <= i < |headers| && !InBounds(Line(headers[i]));
      assert headers[1..][i - 1] == headers[i];
      HeadersGoAstray(headers[1..], rest, Processed(sofar, Line(headers[0])));
    }
  }

  lemma CleanIsInBounds(h: Header)
    requires Clean(h) && IsText(Line(h))
    ensures InBounds(Line(h))
  {
    assert Line(h)[0] == h.name[0];
    SkipIs(Line(h), 0);
  }

  /** What an object is once its metadata have been read: as it was when they were written. */
  predicate ComesBack(m: Meta) {
    Parsed(Text(m), m.url, []) == (Restored(m.length, m.requested, m.responded, m.finished), m.headers)
  }

  function FrontOf(m: Meta): Front
    requires |m.headers| < SIZE_LIMIT
  {
    Front(m.length, m.requested, m.responded, m.finished, |m.headers|)
  }

  /** Reading the front and the headers that have been written, with whatever after them. */
  lemma WrittenIsParsed(m: Meta, end: string)
    requires AllText(m) && |m.headers| < SIZE_LIMIT && |m.url| >= 7
    ensures var (out, headers) := Parsed(FrontText(m) + (HeaderText(m.headers) + end), m.url, []);
      if AllInBounds(m.headers) then out == TakeEnd(end, FrontOf(m)) && headers == Received(Lines(m.headers))
      else out == PastTheEnd
  {
    hide TakeFront;
    hide FrontText;
    hide Received;
    hide Lines;
    hide HeaderText;
    hide TakeHeaders;
    hide TakeEnd;
    hide InBounds;
    FrontIsTaken(m, HeaderText(m.headers) + end);
    if AllInBounds(m.headers) {
      HeadersAreTaken(m.headers, 0, end);
      assert m.headers[0..] == m.headers;
      NothingReceived(m.headers);
    } else {
      HeadersGoAstray(m.headers, end, []);
    }
  }

  lemma RestorableAreInBounds(m: Meta)
    requires AllText(m) && Restorable(m.headers)
    ensures AllInBounds(m.headers)
  {
    forall i | 0 <= i < |m.headers| ensures InBounds(Line(m.headers[i])) {
      CleanIsInBounds(m.headers[i]);
    }
  }

  /**
   The metadata written of an object are what is had from them, headers and all, exactly if its URL
   is not too short and its headers are restorable.
   */
  lemma ComesBackExactly(m: Meta)
    requires AllText(m) && |m.headers| < SIZE_LIMIT
    ensures ComesBack(m) <==> |m.url| >= 7 && Restorable(m.headers)
  {
    hide Decimal;
    hide TakeFront;
    hide FrontText;
    hide HeaderText;
    hide TakeHeaders;
    hide Received;
    hide Lines;
    hide AllInBounds;
    hide Restorable;
    hide TakeEnd;
    var end := Ended(Decimal(0));
    assert Text(m) == FrontText(m) + (HeaderText(m.headers) + end);
    if |m.url| < 7 {
      FrontIsTaken(m, HeaderText(m.headers) + end);
    } else {
      WrittenIsParsed(m, end);
      EndIsTaken(FrontOf(m));
      RestoredExactly(m.headers);
      if Restorable(m.headers) {
        RestorableAreInBounds(m);
      }
    }
  }

  lemma NothingReceived(headers: seq<Header>)
    ensures Received(Lines(headers)[..0]) == []
  {
  }

  lemma EndIsTaken(f: Front)
    ensures TakeEnd(Ended(Decimal(0)), f) == Restored(f.length, f.requested, f.responded, f.finished)
  {
    SizeIsTaken(0, "");
    assert Ended(Decimal(0)) + "" == Ended(Decimal(0));
  }

  /** So what a fetch has received comes back, if no line of it began with a blank. */
  lemma FetchedComesBack(m: Meta, lines: seq<string>)
    requires AllText(m) && |m.headers| < SIZE_LIMIT && |m.url| >= 7
    requires m.headers == Received(lines) && forall i :: 0 <= i < |lines| ==> Leading(lines[i]) == 0
    ensures ComesBack(m)
  {
    ReceivedAreRestorable(lines);
    ComesBackExactly(m);
  }

  /** Though reading is to leave the object alone unless it succeeds, headers read before a fault stay. */
  lemma HeadersStayAfterAFault(url: string)
    requires |url| >= 7 && IsText(url)
    ensures exists data :: Parsed(data, url, []) == (Invalid, [Header("A", "1")])
  {
    hide Parsed;
    hide FrontText;
    hide HeaderText;
    hide Received;
    hide Lines;
    var m := Meta(url, 0, 0, 0, 0, [Header("A", "1")]);
    var bad := Ended("x");
    CleanIsInBounds(m.headers[0]);
    WrittenIsParsed(m, bad);
    RestoredExactly(m.headers);
    XIsNoSize(FrontOf(m));
    assert Parsed(FrontText(m) + (HeaderText(m.headers) + bad), url, []) == (Invalid, [Header("A", "1")]);
  }

  /** The lines that are taken for headers, as far as they are there. */
  function HeaderLinesOf(data: string, n: nat): seq<string>
    decreases n
  {
    if n == 0 then []
    else match NextLine(data)
      case None => []
      case Some(line) => if InBounds(line) then [line] + HeaderLinesOf(AfterLine(data), n - 1) else []
  }

  /** A new object is left without headers exactly if reading gives up before them or none of them has a name. */
  lemma LeftAloneExactly(data: string, url: string)
    ensures Parsed(data, url, []).1 == [] <==>
            match TakeFront(data, url)
            case Stopped(_) => true
            case Took(f, rest) => forall line :: line in HeaderLinesOf(rest, f.count) ==> Split(line).name == ""
  {
    hide TakeFront;
    hide TakeHeaders;
    hide TakeEnd;
    hide HeaderLinesOf;
    hide Split;
    match TakeFront(data, url)
    case Stopped(_) =>
    case Took(f, rest) => NamedLinesStay(rest, f.count, []);
  }

  lemma {:induction false} NamedLinesStay(data: string, n: nat, headers: seq<Header>)
    ensures TakeHeaders(data, n, headers).1 == [] <==>
            headers == [] && forall line :: line in HeaderLinesOf(data, n) ==> Split(line).name == ""
    decreases n
  {
    hide Split;
    hide NextLine;
    hide AfterLine;
    hide InBounds;
    if n > 0 && NextLine(data).Some? && InBounds(NextLine(data).value) {
      var line := NextLine(data).value;
      NamedLinesStay(AfterLine(data), n - 1, Processed(headers, line));
      ResponseIsNamed(line);
    }
  }

  lemma ResponseIsNamed(line: string)
    ensures StartsResponse(line) ==> Split(line).name != ""
  {
    if StartsResponse(line) {
      assert line[0] == "HTTP/"[0] && SkipBlanks(line) == line;
      var name := line[..Colon(line)];
      assert Colon(line) == |line| ==> name == line;
      TrimKeepsFirst(name);
    }
  }

  lemma {:induction false} TrimKeepsFirst(s: string)
    requires s != "" && !IsBlank(s[0])
    ensures TrimEnd(s) != ""
  {
    if |s| > 1 {
      TrimKeepsFirst(s[..|s| - 1]);
    }
  }

  lemma XIsNoSize(f: Front)
    ensures TakeEnd(Ended("x"), f) == Invalid
  {
    assert Ended("x") + "" == Ended("x");
    NextIs("x", "");
  }

  /**
   The lines come in this order, each with its terminator: URL, length, three times,
   and the headers with their number first; then none for certificates.
   */
  lemma OrderOfLines(m: Meta, a: Header, b: Header)
    requires m.headers == [a, b]
    ensures FrontText(m) == (m.url + "\0") + (Decimal(m.length) + "\0") + (Decimal(m.requested) + "\0") + (Decimal(m.responded) + "\0")
                            + (Decimal(m.finished) + "\0") + "2\0"
    ensures Text(m) == FrontText(m) + ((a.name + ":" + a.value + "\0") + (b.name + ":" + b.value + "\0")) + "0\0"
  {
    Twos();
    TwoHeaders(a, b);
    hide Decimal;
    hide HeaderText;
  }

  lemma Twos()
    ensures Decimal(2) == "2" && Decimal(0) == "0"
  {
  }

  lemma TwoHeaders(a: Header, b: Header)
    ensures HeaderText([a, b]) == (a.name + ":" + a.value + "\0") + (b.name + ":" + b.value + "\0")
  {
    var s := [a, b];
    assert s[1..] == [b] && s[1..][1..] == [];
    assert HeaderText([b]) == Ended(Line(b)) + "";
  }
}
