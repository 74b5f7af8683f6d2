/**
 The order in which the URL database keeps hosts.
 */
module HostOrder {
  import opened Common

  // A host is the sequence of its labels from the leaf of the host tree to the
  // root ("www", "example", "org"); labels are compared without regard to case,
  // and a host comes before any host it is a proper prefix of.

  type Labels = seq<string>

  function Lower(c: char): char {
    if 'A' <= c <= 'Z' then c - 'A' + 'a' else c
  }

  function Fold(s: string): string {
    seq(|s|, i requires 0 <= i < |s| => Lower(s[i]))
  }

  function FoldAll(ls: Labels): Labels {
    seq(|ls|, i requires 0 <= i < |ls| => Fold(ls[i]))
  }

  /** The sign of `strcasecmp(a, b)`. */
  function CaseCompare(a: string, b: string): (r: int)
    ensures -1 <= r <= 1
  {
    if a == [] then (if b == [] then 0 else -1)
    else if b == [] then 1
    else if Lower(a[0]) < Lower(b[0]) then -1
    else if Lower(a[0]) > Lower(b[0]) then 1
    else CaseCompare(a[1..], b[1..])
  }

  function Truncate(s: string, n: nat): (r: string) {
    if |s| <= n then s else s[..n]
  }

  /** The sign of `strncasecmp(a, b, |b|)`. */
  function CaseComparePrefix(a: string, b: string): (r: int)
    ensures -1 <= r <= 1
  {
    CaseCompare(Truncate(a, |b|), b)
  }

  function CompareLabels(a: Labels, b: Labels): (r: int)
    ensures -1 <= r <= 1
  {
    if a == [] then (if b == [] then 0 else -1)
    else if b == [] then 1
    else
      var c := CaseCompare(a[0], b[0]);
      if c != 0 then c else CompareLabels(a[1..], b[1..])
  }

  // ----- it is a total order on case-folded hosts -----

  lemma {:induction false} CaseCompareZero(a: string, b: string)
    ensures CaseCompare(a, b) == 0 <==> Fold(a) == Fold(b)
  {
    if a != [] && b != [] {
      CaseCompareZero(a[1..], b[1..]);
      assert Fold(a) == [Lower(a[0])] + Fold(a[1..]) && Fold(a)[1..] == Fold(a[1..]);
      assert Fold(b) == [Lower(b[0])] + Fold(b[1..]) && Fold(b)[1..] == Fold(b[1..]);
    } else {
      assert |Fold(a)| == |a| && |Fold(b)| == |b|;
    }
  }

  // What it orders by, with no use of `Lower`: the code of a character, an upper case letter standing for the lower case one.

  function Code(c: char): int {
    if 'A' <= c <= 'Z' then c as int + 32 else c as int
  }

  predicate SameLetters(a: string, b: string) {
    |a| == |b| && forall i :: 0 <= i < |a| ==> SameLetter(a[i], b[i])
  }

  predicate SameNames(a: Labels, b: Labels) {
    |a| == |b| && forall i :: 0 <= i < |a| ==> SameLetters(a[i], b[i])
  }

  /** Strings compare equal exactly if they have the same letters but for case. */
  lemma {:induction false} CaseCompareEqual(a: string, b: string)
    ensures CaseCompare(a, b) == 0 <==> SameLetters(a, b)
  {
    if a != [] && b != [] {
      CaseCompareEqual(a[1..], b[1..]);
      assert SameLetter(a[0], b[0]) <==> Lower(a[0]) == Lower(b[0]);
      if SameLetters(a, b) {
        assert forall i :: 0 <= i < |a| - 1 ==> a[1..][i] == a[i + 1] && b[1..][i] == b[i + 1];
      }
      if SameLetter(a[0], b[0]) && SameLetters(a[1..], b[1..]) {
        forall i | 0 <= i < |a| ensures SameLetter(a[i], b[i]) {
          assert i > 0 ==> a[i] == a[1..][i - 1] && b[i] == b[1..][i - 1];
        }
      }
    }
  }

  /** Where two strings part: at the end of the one, or at characters of which its is the lesser. */
  ghost predicate PartsBelow(a: string, b: string, k: nat) {
    && k <= |a| && k <= |b| && (forall i :: 0 <= i < k ==> SameLetter(a[i], b[i]))
    && if k == |a| then k < |b| else k < |b| && Code(a[k]) < Code(b[k])
  }

  /** One string comes before another exactly if it is below it where they part. */
  lemma {:induction false} CaseCompareLess(a: string, b: string)
    ensures CaseCompare(a, b) < 0 <==> exists k: nat :: PartsBelow(a, b, k)
  {
    if a == [] || b == [] || Lower(a[0]) != Lower(b[0]) {
      if b != [] && (a == [] || Lower(a[0]) < Lower(b[0])) {
        assert PartsBelow(a, b, 0);
      }
      if k: nat :| PartsBelow(a, b, k) {
        assert k > 0 ==> SameLetter(a[0], b[0]);
      }
    } else {
      CaseCompareLess(a[1..], b[1..]);
      if k: nat :| PartsBelow(a, b, k) {
        TailParts(a, b, k);
      }
      if j: nat :| PartsBelow(a[1..], b[1..], j) {
        HeadParts(a, b, j);
      }
    }
  }

  lemma TailParts(a: string, b: string, k: nat)
    requires a != [] && b != [] && Lower(a[0]) == Lower(b[0]) && PartsBelow(a, b, k)
    ensures k > 0 && PartsBelow(a[1..], b[1..], k - 1)
  {
    var x, y := a[1..], b[1..];
    forall i | 0 <= i < k - 1 ensures SameLetter(x[i], y[i]) {
      assert SameLetter(a[i + 1], b[i + 1]);
    }
  }

  lemma HeadParts(a: string, b: string, j: nat)
    requires a != [] && b != [] && Lower(a[0]) == Lower(b[0]) && PartsBelow(a[1..], b[1..], j)
    ensures PartsBelow(a, b, j + 1)
  {
    var x, y := a[1..], b[1..];
    forall i | 0 <= i < j + 1 ensures SameLetter(a[i], b[i]) {
      assert i > 0 ==> SameLetter(x[i - 1], y[i - 1]);
    }
  }

  /** Hosts compare equal exactly if they have as many labels, each with the same letters but for case. */
  lemma {:induction false} CompareEqual(a: Labels, b: Labels)
    ensures CompareLabels(a, b) == 0 <==> SameNames(a, b)
  {
    hide SameLetters;
    hide CaseCompare;
    if a != [] && b != [] {
      CaseCompareEqual(a[0], b[0]);
      CompareEqual(a[1..], b[1..]);
      if SameLetters(a[0], b[0]) && SameNames(a[1..], b[1..]) {
        forall i | 0 <= i < |a| ensures SameLetters(a[i], b[i]) {
          assert i > 0 ==> a[i] == a[1..][i - 1] && b[i] == b[1..][i - 1];
        }
      }
      if SameNames(a, b) {
        forall i | 0 <= i < |a| - 1 ensures SameLetters(a[1..][i], b[1..][i]) {
          assert SameLetters(a[i + 1], b[i + 1]);
        }
      }
    }
  }

  /** Strings fold to the same exactly if they have the same letters but for case. */
  lemma FoldEqual(a: string, b: string)
    ensures Fold(a) == Fold(b) <==> SameLetters(a, b)
  {
    CaseCompareZero(a, b);
    CaseCompareEqual(a, b);
  }

  lemma {:induction false} CaseCompareAntisymmetric(a: string, b: string)
    ensures CaseCompare(a, b) == -CaseCompare(b, a)
  {
    if a != [] && b != [] {
      CaseCompareAntisymmetric(a[1..], b[1..]);
    }
  }

  lemma {:induction false} CaseCompareTransitive(a: string, b: string, c: string)
    requires CaseCompare(a, b) <= 0 && CaseCompare(b, c) <= 0
    ensures CaseCompare(a, c) <= 0
    ensures CaseCompare(a, b) < 0 || CaseCompare(b, c) < 0 ==> CaseCompare(a, c) < 0
  {
    if a != [] && b != [] && c != [] && Lower(a[0]) == Lower(b[0]) == Lower(c[0]) {
      CaseCompareTransitive(a[1..], b[1..], c[1..]);
    }
  }

  lemma {:induction false} CompareZero(a: Labels, b: Labels)
    ensures CompareLabels(a, b) == 0 <==> FoldAll(a) == FoldAll(b)
  {
    if a != [] && b != [] {
      CaseCompareZero(a[0], b[0]);
      CompareZero(a[1..], b[1..]);
      assert FoldAll(a) == [Fold(a[0])] + FoldAll(a[1..]) && FoldAll(a)[1..] == FoldAll(a[1..]);
      assert FoldAll(b) == [Fold(b[0])] + FoldAll(b[1..]) && FoldAll(b)[1..] == FoldAll(b[1..]);
    } else {
      assert |FoldAll(a)| == |a| && |FoldAll(b)| == |b|;
    }
  }

  lemma {:induction false} CompareAntisymmetric(a: Labels, b: Labels)
    ensures CompareLabels(a, b) == -CompareLabels(b, a)
  {
    if a != [] && b != [] {
      CaseCompareAntisymmetric(a[0], b[0]);
      CompareAntisymmetric(a[1..], b[1..]);
    }
  }

  lemma {:induction false} CompareTransitive(a: Labels, b: Labels, c: Labels)
    requires CompareLabels(a, b) <= 0 && CompareLabels(b, c) <= 0
    ensures CompareLabels(a, c) <= 0
    ensures CompareLabels(a, b) < 0 || CompareLabels(b, c) < 0 ==> CompareLabels(a, c) < 0
  {
    if a != [] && b != [] && c != [] {
      CaseCompareTransitive(a[0], b[0], c[0]);
      if CaseCompare(a[0], b[0]) == 0 && CaseCompare(b[0], c[0]) == 0 {
        CompareTransitive(a[1..], b[1..], c[1..]);
      }
    }
  }

  /** What is equal compares alike with everything. */
  lemma CompareAlike(x: Labels, a: Labels, b: Labels)
    requires CompareLabels(a, b) == 0
    ensures CompareLabels(x, a) == CompareLabels(x, b)
  {
    hide CompareLabels;
    CompareAntisymmetric(a, b);
    CompareAntisymmetric(x, a);
    CompareAntisymmetric(x, b);
    if CompareLabels(x, a) <= 0 {
      CompareTransitive(x, a, b);
    } else {
      CompareTransitive(b, a, x);
    }
    if CompareLabels(x, b) <= 0 {
      CompareTransitive(x, b, a);
    } else {
      CompareTransitive(a, b, x);
    }
  }

  lemma CaseCompareAlike(x: string, a: string, b: string)
    requires CaseCompare(a, b) == 0
    ensures CaseCompare(x, a) == CaseCompare(x, b)
  {
    hide CaseCompare;
    CaseCompareAntisymmetric(a, b);
    CaseCompareAntisymmetric(x, a);
    CaseCompareAntisymmetric(x, b);
    if CaseCompare(x, a) <= 0 {
      CaseCompareTransitive(x, a, b);
    } else {
      CaseCompareTransitive(b, a, x);
    }
    if CaseCompare(x, b) <= 0 {
      CaseCompareTransitive(x, b, a);
    } else {
      CaseCompareTransitive(a, b, x);
    }
  }

  // ----- prefixes -----

  /**
   The sign of `urldb_search_match_prefix` for a prefix split at its dots: all
   labels but the last must be equal, the last need only be started.
   */
  function PrefixCompare(a: Labels, pre: Labels): (r: int)
    requires pre != []
    ensures -1 <= r <= 1
  {
    if a == [] then -1
    else if |pre| == 1 then CaseComparePrefix(a[0], pre[0])
    else
      var c := CaseCompare(a[0], pre[0]);
      if c != 0 then c else PrefixCompare(a[1..], pre[1..])
  }

  /** `a` begins with the labels of `pre`, the last of them possibly cut short. */
  ghost predicate StartsWith(a: Labels, pre: Labels)
    requires pre != []
  {
    var n := |pre| - 1;
    n < |a| && FoldAll(a[..n]) == FoldAll(pre[..n]) && Fold(pre[n]) <= Fold(a[n])
  }

  lemma {:induction false} CaseComparePrefixZero(a: string, b: string)
    ensures CaseComparePrefix(a, b) == 0 <==> Fold(b) <= Fold(a)
  {
    var t := Truncate(a, |b|);
    CaseCompareZero(t, b);
    assert Fold(t) == if |a| <= |b| then Fold(a) else Fold(a)[..|b|];
  }

  lemma {:induction false} PrefixCompareZero(a: Labels, pre: Labels)
    requires pre != []
    ensures PrefixCompare(a, pre) == 0 <==> StartsWith(a, pre)
  {
    if a != [] {
      if |pre| == 1 {
        CaseComparePrefixZero(a[0], pre[0]);
      } else {
        CaseCompareZero(a[0], pre[0]);
        PrefixCompareZero(a[1..], pre[1..]);
        var n := |pre| - 1;
        if n < |a| {
          assert a[..n] == [a[0]] + a[1..][..n - 1] && pre[..n] == [pre[0]] + pre[1..][..n - 1];
          FoldHead(a[0], a[1..][..n - 1]);
          FoldHead(pre[0], pre[1..][..n - 1]);
          assert FoldAll(a[..n])[0] == Fold(a[0]) && FoldAll(a[..n])[1..] == FoldAll(a[1..][..n - 1]);
          assert FoldAll(pre[..n])[0] == Fold(pre[0]) && FoldAll(pre[..n])[1..] == FoldAll(pre[1..][..n - 1]);
        }
      }
    }
  }

  lemma FoldHead(s: string, rest: Labels)
    ensures FoldAll([s] + rest) == [Fold(s)] + FoldAll(rest)
  {
  }

  lemma {:induction false} TruncateMonotone(a: string, b: string, n: nat)
    requires CaseCompare(a, b) <= 0
    ensures CaseCompare(Truncate(a, n), Truncate(b, n)) <= 0
    decreases n
  {
    if n > 0 && a != [] && b != [] && Lower(a[0]) == Lower(b[0]) {
      TruncateMonotone(a[1..], b[1..], n - 1);
      assert Truncate(a, n)[1..] == Truncate(a[1..], n - 1);
      assert Truncate(b, n)[1..] == Truncate(b[1..], n - 1);
    }
  }

  lemma CaseCompareMonotone(a: string, b: string, c: string)
    requires CaseCompare(a, b) <= 0
    ensures CaseCompare(a, c) <= CaseCompare(b, c)
  {
    CaseCompareAntisymmetric(b, c);
    CaseCompareAntisymmetric(a, c);
    if CaseCompare(b, c) <= 0 {
      CaseCompareTransitive(a, b, c);
      if CaseCompare(a, c) == 0 && CaseCompare(b, c) < 0 {
        CaseCompareTransitive(a, b, c);
      }
    }
  }

  /** Hosts are met in the order of their comparison with any fixed prefix. */
  lemma {:induction false} PrefixCompareMonotone(a: Labels, b: Labels, pre: Labels)
    requires pre != [] && CompareLabels(a, b) <= 0
    ensures PrefixCompare(a, pre) <= PrefixCompare(b, pre)
  {
    if a != [] && b != [] {
      if |pre| == 1 {
        TruncateMonotone(a[0], b[0], |pre[0]|);
        CaseCompareMonotone(Truncate(a[0], |pre[0]|), Truncate(b[0], |pre[0]|), pre[0]);
      } else {
        CaseCompareMonotone(a[0], b[0], pre[0]);
        if CaseCompare(a[0], b[0]) == 0 {
          PrefixCompareMonotone(a[1..], b[1..], pre[1..]);
        } else if CaseCompare(a[0], pre[0]) == 0 && CaseCompare(b[0], pre[0]) == 0 {
          CaseCompareZero(a[0], pre[0]);
          CaseCompareZero(b[0], pre[0]);
          CaseCompareZero(a[0], b[0]);
        }
      }
    }
  }
}
