/**
 A header line as a fetcher delivers it or the cache reads it back, split into its name and value.
 */
module HeaderLines {
  import opened Common

  datatype Header = Header(name: string, value: string)

  predicate IsBlank(c: char) {
    c == ' ' || c == '\t' || c == '\r' || c == '\n'
  }

  predicate IsText(s: string) {
    forall i :: 0 <= i < |s| ==> s[i] != '\0'
  }

  function SkipBlanks(s: string): (r: string)
    ensures |r| <= |s|
  {
    if s != "" && IsBlank(s[0]) then SkipBlanks(s[1..]) else s
  }

  function TrimEnd(s: string): (r: string)
    ensures |r| <= |s|
  {
    if s != "" && IsBlank(s[|s| - 1]) then TrimEnd(s[..|s| - 1]) else s
  }

  function Colon(s: string): (n: nat)
    ensures n <= |s|
  {
    if s == "" || s[0] == ':' then 0 else 1 + Colon(s[1..])
  }

  /** How many blanks a line begins with. */
  function Leading(line: string): nat {
    |line| - |SkipBlanks(line)|
  }

  /**
   A terminated string that has a colon and not more than one blank before its name, or has none: the source looks for the
   end of a value at the length of the line from where the name begins, and so past the end of any other.
   */
  predicate InBounds(line: string) {
    IsText(line) && (Leading(line) <= 1 || ':' !in line)
  }

  /**
   The name is what comes before the first colon, the value what comes after; with no colon all is name.
   Blanks around either are dropped, but those after the value only if there was none before the name.
   */
  function Split(line: string): Header {
    var body := SkipBlanks(line);
    var colon := Colon(body);
    if colon == |body| then Header(TrimEnd(body), "")
    else
      var value := SkipBlanks(body[colon + 1..]);
      Header(TrimEnd(body[..colon]), if |body| == |line| then TrimEnd(value) else value)
  }

  function StartsResponse(line: string): bool {
    "HTTP/" <= line
  }

  /** What a further line makes of the headers there are. */
  function Processed(headers: seq<Header>, line: string): seq<Header> {
    var kept := if StartsResponse(line) then [] else headers;
    if Split(line).name == "" then kept else kept + [Split(line)]
  }

  // ----- splitting, as the source does it -----

  /** What is at the place `i` of a line; its terminator is at the end. */
  function At(line: string, i: nat): char
    requires i <= |line|
  {
    if i < |line| then line[i] else '\0'
  }

  lemma {:induction false} SkipIs(s: string, k: nat)
    requires k <= |s| && (forall i :: 0 <= i < k ==> IsBlank(s[i])) && (k == |s| || !IsBlank(s[k]))
    ensures SkipBlanks(s) == s[k..]
  {
    if k > 0 {
      SkipIs(s[1..], k - 1);
    }
  }

  lemma {:induction false} TrimIs(s: string, k: nat)
    requires k <= |s| && (forall i :: k <= i < |s| ==> IsBlank(s[i])) && (k == 0 || !IsBlank(s[k - 1]))
    ensures TrimEnd(s) == s[..k]
  {
    if k < |s| {
      TrimIs(s[..|s| - 1], k);
      assert s[..|s| - 1][..k] == s[..k];
    } else {
      assert s[..k] == s;
    }
  }

  lemma {:induction false} ColonIs(s: string, k: nat)
    requires k <= |s| && (k == |s| || s[k] == ':') && forall i :: 0 <= i < k ==> s[i] != ':'
    ensures Colon(s) == k
  {
    if k > 0 {
      ColonIs(s[1..], k - 1);
    }
  }

  /** Where the first so many characters of a line end if blanks at their end are dropped, but none before `from`. */
  method StripBack(line: string, from: nat, end: nat) returns (k: nat)
    requires from <= end <= |line|
    ensures from <= k <= end && line[from..k] == TrimEnd(line[from..end])
  {
    k := end;
    while k > from && IsBlank(line[k - 1])
      invariant from <= k <= end && forall i :: k <= i < end ==> IsBlank(line[i])
    {
      k := k - 1;
    }
    TrimIs(line[from..end], k - from);
    assert line[from..end][..k - from] == line[from..k];
  }

  /** The value of a line whose colon is at `colon` and whose name begins at `start`. */
  method ValueAfter(line: string, start: nat, colon: nat) returns (v: string)
    requires start <= 1 && start <= colon < |line|
    ensures v == var rest := SkipBlanks(line[colon + 1..]); if start == 0 then TrimEnd(rest) else rest
  {
    hide SkipBlanks;
    hide TrimEnd;
    var value := colon + 1;
    while value < |line| && IsBlank(line[value])
      invariant colon < value <= |line| && forall i :: colon < i < value ==> IsBlank(line[i])
    {
      value := value + 1;
    }
    SkipIs(line[colon + 1..], value - colon - 1);
    assert line[colon + 1..][value - colon - 1..] == line[value..];
    // the length is that of the line, though the name may begin one further on
    var len := |line|;
    while len > 0 && IsBlank(At(line, start + len - 1))
      invariant 0 <= len <= |line| && (start == 0 || len == |line|)
      invariant start == 0 ==> forall i :: len <= i < |line| ==> IsBlank(line[i])
    {
      len := len - 1;
    }
    var stop := if start + len < value || start + len > |line| then |line| else start + len;
    if start == 0 {
      ValueEnds(line, value, len, stop);
    } else {
      assert line[value..] == line[value..stop];
    }
    v := line[value..stop];
  }

  /** The name and the value of a line, or nothing if the source would read past its end. */
  method SplitHeader(line: string) returns (h: Option<Header>)
    requires IsText(line)
    ensures h == if InBounds(line) then Some(Split(line)) else None
  {
    hide SkipBlanks;
    hide TrimEnd;
    hide Colon;
    var start := 0;
    while start < |line| && IsBlank(line[start])
      invariant start <= |line| && forall i :: 0 <= i < start ==> IsBlank(line[i])
    {
      start := start + 1;
    }
    SkipIs(line, start);
    var colon := start;
    while colon < |line| && line[colon] != ':'
      invariant start <= colon <= |line| && forall i :: start <= i < colon ==> line[i] != ':'
    {
      colon := colon + 1;
    }
    ColonIs(line[start..], colon - start);
    assert Leading(line) == start && (colon < |line| <==> ':' in line);
    var nameEnd := StripBack(line, start, colon);
    var value := "";
    if colon < |line| {
      if start > 1 {
        return None;
      }
      value := ValueAfter(line, start, colon);
    }
    SplitIs(line, start, colon);
    h := Some(Header(line[start..nameEnd], value));
  }

  lemma SplitIs(line: string, start: nat, colon: nat)
    requires start <= colon <= |line| && SkipBlanks(line) == line[start..] && Colon(line[start..]) == colon - start
    ensures Split(line).name == TrimEnd(line[start..colon])
    ensures Split(line).value ==
            if colon == |line| then ""
            else var rest := SkipBlanks(line[colon + 1..]); if start == 0 then TrimEnd(rest) else rest
  {
    hide SkipBlanks;
    hide TrimEnd;
    hide Colon;
    assert line[start..][..colon - start] == line[start..colon];
    assert line[start..] == line[start..|line|];
    assert colon < |line| ==> line[start..][colon - start + 1..] == line[colon + 1..];
  }

  lemma ValueEnds(line: string, value: nat, len: nat, stop: nat)
    requires 0 < value <= |line| && len <= |line| && (forall i :: len <= i < |line| ==> IsBlank(line[i]))
    requires len == 0 || !IsBlank(line[len - 1])
    requires value < |line| ==> !IsBlank(line[value])
    requires stop == if len < value then |line| else len
    ensures line[value..stop] == TrimEnd(line[value..])
  {
    var rest := line[value..];
    if value == |line| {
      assert rest == "" && line[value..stop] == "";
    } else {
      TrimIs(rest, len - value);
      assert rest[..len - value] == line[value..len];
    }
  }

  /** What the line makes of the headers there are, and whether it can be read at all. */
  method ProcessHeader(headers: seq<Header>, line: string) returns (ok: bool, r: seq<Header>)
    requires IsText(line)
    ensures ok <==> InBounds(line)
    ensures ok ==> r == Processed(headers, line)
    ensures !ok ==> r == headers
  {
    r := headers;
    if StartsResponse(line) {
      r := [];
    }
    var h := SplitHeader(line);
    if h == None {
      BlanksStartNoResponse(line);
      return false, r;
    }
    ok := true;
    if h.value.name != "" {
      r := r + [h.value];
    }
  }

  lemma BlanksStartNoResponse(line: string)
    requires Leading(line) > 0
    ensures !StartsResponse(line)
  {
  }
}
