/** Host names as strings: their labels, and which of the 28 search trees they belong to. */
module HostNames {
  import opened Common
  import opened HostOrder

  /** The C library's address parsers, which are not part of this model. */
  datatype Inet = Inet(aton: string -> bool, pton6: string -> bool)

  /** Position of the first dot, or the length. */
  function FirstDot(s: string): (n: nat)
    ensures n <= |s|
    ensures n < |s| ==> s[n] == '.'
    ensures forall i :: 0 <= i < n ==> s[i] != '.'
  {
    if s == [] || s[0] == '.' then 0 else 1 + FirstDot(s[1..])
  }

  /** Position of the last dot, or -1. */
  function LastDot(s: string): (n: int)
    ensures -1 <= n < |s|
    ensures n >= 0 ==> s[n] == '.'
    ensures forall i :: n < i < |s| ==> s[i] != '.'
  {
    if s == [] then -1
    else if s[|s| - 1] == '.' then |s| - 1
    else LastDot(s[..|s| - 1])
  }

  function SplitDots(s: string): (ls: Labels)
    ensures ls != []
    decreases |s|
  {
    var d := FirstDot(s);
    if d == |s| then [s] else [s[..d]] + SplitDots(s[d + 1..])
  }

  lemma NoDotNoSplit(s: string)
    requires forall i :: 0 <= i < |s| ==> s[i] != '.'
    ensures SplitDots(s) == [s]
  {
    assert FirstDot(s) == |s|;
  }

  lemma SplitAtFirstDot(s: string, f: nat)
    requires f < |s| && s[f] == '.' && forall i :: 0 <= i < f ==> s[i] != '.'
    ensures SplitDots(s) == [s[..f]] + SplitDots(s[f + 1..])
  {
    FirstDotUnique(s, f);
  }

  /** Cutting at the last dot instead takes off the last label. */
  lemma {:induction false} SplitAtLastDot(s: string)
    ensures LastDot(s) < 0 ==> SplitDots(s) == [s]
    ensures var d := LastDot(s); d >= 0 ==> SplitDots(s) == SplitDots(s[..d]) + [s[d + 1..]]
    decreases |s|
  {
    hide FirstDot;
    hide LastDot;
    hide SplitDots;
    var f, d := FirstDot(s), LastDot(s);
    if d < 0 {
      NoDotNoSplit(s);
    } else {
      assert f <= d;
      var rest := s[f + 1..];
      SplitAtFirstDot(s, f);
      if d == f {
        NoDotNoSplit(s[..d]);
        NoDotNoSplit(rest);
      } else {
        var e := d - f - 1;
        assert forall i :: e < i < |rest| ==> rest[i] == s[i + f + 1];
        LastDotUnique(rest, e);
        SplitAtLastDot(rest);
        SplitFront(s, f, d);
        assert rest[e + 1..] == s[d + 1..];
      }
    }
  }

  lemma SplitFront(s: string, f: nat, d: nat)
    requires f < d < |s| && s[f] == '.' && forall i :: 0 <= i < f ==> s[i] != '.'
    ensures SplitDots(s[..d]) == [s[..f]] + SplitDots(s[f + 1..][..d - f - 1])
  {
    SplitAtFirstDot(s[..d], f);
    assert s[..d][f + 1..] == s[f + 1..][..d - f - 1] && s[..d][..f] == s[..f];
  }

  lemma {:induction false} LastDotUnique(s: string, n: int)
    requires -1 <= n < |s| && (n >= 0 ==> s[n] == '.') && forall i :: n < i < |s| ==> s[i] != '.'
    ensures LastDot(s) == n
  {
    var d := LastDot(s);
    assert !(d < n) && !(n < d);
  }

  lemma FirstDotUnique(s: string, n: nat)
    requires n < |s| && s[n] == '.' && forall i :: 0 <= i < n ==> s[i] != '.'
    ensures FirstDot(s) == n
  {
    var d := FirstDot(s);
    assert !(d < n) && !(n < d);
  }

  /** A change of case moves no dot. */
  lemma {:induction false} SplitAlike(a: string, b: string)
    requires SameLetters(a, b)
    ensures SameNames(SplitDots(a), SplitDots(b))
    decreases |a|
  {
    hide SameLetter;
    hide FirstDot;
    var d := FirstDot(a);
    FirstDotAlike(a, b);
    SameLettersIn(a, b, 0, d);
    if d < |a| {
      SameLettersIn(a, b, d + 1, |a|);
      SplitAlike(a[d + 1..], b[d + 1..]);
    }
  }

  lemma SameLettersIn(a: string, b: string, i: nat, j: nat)
    requires SameLetters(a, b) && i <= j <= |a|
    ensures SameLetters(a[i..j], b[i..j]) && (i == 0 ==> SameLetters(a[..j], b[..j])) && (j == |a| ==> SameLetters(a[i..], b[i..]))
  {
    hide SameLetter;
  }

  lemma {:induction false} FirstDotAlike(a: string, b: string)
    requires SameLetters(a, b)
    ensures FirstDot(a) == FirstDot(b)
  {
    if a != [] {
      assert SameLetter(a[0], b[0]);
      FirstDotAlike(a[1..], b[1..]);
    }
  }

  // ----- addresses -----

  function CountDots(s: string): nat {
    if s == [] then 0 else (if s[0] == '.' then 1 else 0) + CountDots(s[1..])
  }

  predicate AddressChars(s: string) {
    forall i :: 0 <= i < |s| ==> s[i] in "0123456789abcdefABCDEF[].:"
  }

  /** `urldb__host_is_ip_address`: dotted quads and bracketed IPv6 addresses; a path after '/' is cut off. */
  predicate IsIpAddress(inet: Inet, name: string) {
    var host := name[..FirstSlash(name)];
    AddressChars(host) &&
    if inet.aton(host) then CountDots(host) == 3
    else 6 <= |host| && host[0] == '[' && host[|host| - 1] == ']' &&
         inet.pton6(Truncate(host[1..|host| - 1], 63))
  }

  /** The labels under which a host is kept: an address is a single label. */
  function HostLabels(inet: Inet, host: string): (ls: Labels)
    ensures ls != []
  {
    if IsIpAddress(inet, host) then [host] else SplitDots(host)
  }

  // ----- search trees -----

  const NUM_SEARCH_TREES: nat := 28
  const ST_IP: nat := 0
  const ST_EE: nat := 1
  const ST_DN: nat := 2

  function TreeOf(inet: Inet, host: string): (k: nat)
    ensures k < NUM_SEARCH_TREES
  {
    if IsIpAddress(inet, host) then ST_IP
    else if host != [] && 'a' <= Lower(host[0]) <= 'z' then ST_DN + (Lower(host[0]) - 'a') as nat
    else ST_EE
  }

  /** The parsers do not look at the case of a hexadecimal digit. */
  ghost predicate Caseless(inet: Inet) {
    forall a, b :: Fold(a) == Fold(b) && IsIpAddress(inet, a) ==> IsIpAddress(inet, b)
  }

  lemma FirstLabelIs(s: string)
    ensures SplitDots(s)[0] == s[..FirstDot(s)]
  {
    assert s[..|s|] == s;
  }

  lemma {:induction false} NoDots(s: string)
    requires '.' !in s
    ensures CountDots(s) == 0
  {
    if s != [] {
      NoDots(s[1..]);
    }
  }

  lemma {:induction false} DotsAreCounted(s: string)
    ensures |SplitDots(s)| == CountDots(s) + 1
  {
    if s != "" {
      DotsAreCounted(s[1..]);
      if s[0] != '.' {
        var t := s[1..];
        assert FirstDot(s) == 1 + FirstDot(t);
        assert FirstDot(t) < |t| ==> s[FirstDot(s) + 1..] == t[FirstDot(t) + 1..];
      }
    }
  }

  /** Of what the IPv4 parser takes, which is more than dotted quads, those are addresses. */
  lemma DottedQuad(inet: Inet, host: string)
    requires '/' !in host && AddressChars(host) && inet.aton(host)
    ensures IsIpAddress(inet, host) <==> |SplitDots(host)| == 4
  {
    hide FirstSlash;
    hide SplitDots;
    assert host[..FirstSlash(host)] == host;
    DotsAreCounted(host);
  }

  lemma {:induction false} LabelsComeFrom(s: string, l: string)
    requires l in SplitDots(s)
    ensures '.' !in l && forall c :: c in l ==> c in s
    decreases |s|
  {
    var d := FirstDot(s);
    if d < |s| && l != s[..d] {
      LabelsComeFrom(s[d + 1..], l);
    }
  }

  lemma DotlessIsBracketed(inet: Inet, host: string)
    requires IsIpAddress(inet, host) && '.' !in host
    ensures '[' in host
  {
    var cut := host[..FirstSlash(host)];
    assert forall c :: c in cut ==> c in host;
    NoDots(cut);
  }

  /** Without a bracket no label is taken for an address. */
  lemma UnbracketedLabel(inet: Inet, host: string, l: string)
    requires '[' !in host && l in SplitDots(host)
    ensures !IsIpAddress(inet, l)
  {
    LabelsComeFrom(host, l);
    if IsIpAddress(inet, l) {
      DotlessIsBracketed(inet, l);
    }
  }

  // ----- how long a name is -----

  /** The length of a name with these labels. */
  function NameLength(ls: Labels): int {
    if ls == [] then -1 else |ls[0]| + 1 + NameLength(ls[1..])
  }

  lemma {:induction false} LengthOfSplit(s: string)
    ensures NameLength(SplitDots(s)) == |s|
    decreases |s|
  {
    var d := FirstDot(s);
    if d < |s| {
      LengthOfSplit(s[d + 1..]);
      assert SplitDots(s)[1..] == SplitDots(s[d + 1..]);
    }
  }

  lemma {:induction false} LengthIsFolded(a: Labels, b: Labels)
    requires FoldAll(a) == FoldAll(b)
    ensures NameLength(a) == NameLength(b)
  {
    assert |FoldAll(a)| == |a| && |FoldAll(b)| == |b|;
    if a != [] {
      assert FoldAll(a)[0] == Fold(a[0]) && FoldAll(b)[0] == Fold(b[0]);
      assert |Fold(a[0])| == |a[0]| && |Fold(b[0])| == |b[0]|;
      assert FoldAll(a[1..]) == FoldAll(a)[1..] && FoldAll(b[1..]) == FoldAll(b)[1..];
      LengthIsFolded(a[1..], b[1..]);
    }
  }
}
