/**
 Nodes of the host tree and the three comparators that walk from a node up to
 the root. Each loop is proved to compute one and the same order of labels.
 */
module HostTree {
  import opened HostOrder
  import opened HostNames

  /** A label of a host, linked to its parent; the list of children, newest first. */
  class HostPart {
    const part: string
    const parent: HostPart?
    ghost const labels: Labels
    var children: seq<HostPart>

    constructor Root()
      ensures parent == null && labels == [] && children == []
    {
      part, parent, labels, children := "", null, [], [];
    }

    constructor (part: string, parent: HostPart)
      ensures this.part == part && this.parent == parent && labels == [part] + parent.labels && children == []
    {
      this.part, this.parent, labels, children := part, parent, [part] + parent.labels, [];
    }
  }

  /** Following parents from `h` reaches `root` and spells out the labels of `h`. */
  ghost predicate Chained(root: HostPart, h: HostPart)
    decreases |h.labels|
  {
    if h == root then h.labels == []
    else h.parent != null && h.labels == [h.part] + h.parent.labels && Chained(root, h.parent)
  }

  /** `urldb_search_match_host` */
  method MatchHost(root: HostPart, a: HostPart, b: HostPart) returns (c: int)
    requires Chained(root, a) && Chained(root, b)
    ensures c == CompareLabels(a.labels, b.labels)
  {
    var x: HostPart?, y: HostPart? := a, b;
    while x != null && x != root && y != null && y != root
      invariant x != null && y != null && Chained(root, x) && Chained(root, y)
      invariant CompareLabels(a.labels, b.labels) == CompareLabels(x.labels, y.labels)
      decreases |x.labels|
    {
      c := CaseCompare(x.part, y.part);
      assert x.labels[1..] == x.parent.labels && y.labels[1..] == y.parent.labels;
      if c != 0 {
        return c;
      }
      x, y := x.parent, y.parent;
    }
    if x != null && x != root && (y == null || y == root) {
      return 1;
    } else if (x == null || x == root) && y != null && y != root {
      return -1;
    }
    return 0;
  }

  /** Comparing up to a dot and then comparing lengths is comparing the label. */
  lemma {:induction false} PrefixThenLength(part: string, whole: string)
    ensures var c := CaseComparePrefix(part, whole);
            CaseCompare(part, whole) ==
            if c != 0 then c else if |part| > |whole| then 1 else if |part| < |whole| then -1 else 0
  {
    if part != [] && whole != [] {
      PrefixThenLength(part[1..], whole[1..]);
      assert Truncate(part, |whole|)[1..] == Truncate(part[1..], |whole[1..]|);
    }
  }

  /** The loop of `urldb_search_match_string` and `urldb_search_match_prefix`, at string position `b`. */
  ghost predicate AtLabel(s: string, b: nat, rest: Labels) {
    b <= |s| + 1 && rest == if b <= |s| then SplitDots(s[b..]) else []
  }

  /** One label of the string: what it is and where the next one starts. */
  lemma LabelAt(s: string, b: nat, rest: Labels, dot: nat)
    requires AtLabel(s, b, rest) && b <= |s| && dot == b + FirstDot(s[b..])
    ensures dot <= |s| && rest != [] && rest[0] == s[b..dot] && AtLabel(s, dot + 1, rest[1..])
    ensures dot < |s| <==> |rest| > 1
  {
    hide FirstDot;
    var t := s[b..];
    var d := FirstDot(t);
    assert t[..d] == s[b..dot];
    if d < |t| {
      assert t[d + 1..] == s[dot + 1..];
    } else {
      assert t[..d] == t;
    }
  }

  /** An address is compared with the first label alone. */
  function CompareName(inet: Inet, a: Labels, host: string): (r: int)
    requires a != []
    ensures -1 <= r <= 1
  {
    if IsIpAddress(inet, host) then CaseCompare(a[0], host) else CompareLabels(a, SplitDots(host))
  }

  /** `urldb_search_match_string` */
  method MatchString(inet: Inet, root: HostPart, a: HostPart, host: string) returns (c: int)
    requires Chained(root, a) && a != root
    ensures c == CompareName(inet, a.labels, host)
  {
    hide CaseCompare;
    if IsIpAddress(inet, host) {
      assert a.labels[0] == a.part;
      return CaseCompare(a.part, host);
    }
    var end := |host| + 1;
    var b, x: HostPart? := 0, a;
    ghost var rest := SplitDots(host);
    assert host[0..] == host;
    while b < end && x != null && x != root
      invariant x != null && Chained(root, x) && AtLabel(host, b, rest)
      invariant CompareLabels(a.labels, SplitDots(host)) == CompareLabels(x.labels, rest)
      decreases |x.labels|
    {
      var dot := b + FirstDot(host[b..]);
      LabelAt(host, b, rest, dot);
      PrefixThenLength(x.part, host[b..dot]);
      assert x.labels[0] == x.part && x.labels[1..] == x.parent.labels;
      c := CaseComparePrefix(x.part, host[b..dot]);
      if c != 0 {
        return c;
      }
      if |x.part| > dot - b {
        return 1;
      } else if |x.part| < dot - b {
        return -1;
      }
      b, x, rest := dot + 1, x.parent, rest[1..];
    }
    if x != null && x != root && b >= end {
      return 1;
    } else if (x == null || x == root) && b < end {
      return -1;
    }
    return 0;
  }

  /** `urldb_search_match_prefix` */
  method MatchPrefix(inet: Inet, root: HostPart, a: HostPart, prefix: string) returns (c: int)
    requires Chained(root, a) && a != root
    ensures c == PrefixCompare(a.labels, HostLabels(inet, prefix))
  {
    hide CaseCompare;
    if IsIpAddress(inet, prefix) {
      assert a.labels[0] == a.part;
      return CaseComparePrefix(a.part, prefix);
    }
    var end := |prefix| + 1;
    var b, x: HostPart? := 0, a;
    ghost var rest := SplitDots(prefix);
    assert prefix[0..] == prefix;
    while b < end && x != null && x != root
      invariant x != null && Chained(root, x) && AtLabel(prefix, b, rest)
      invariant PrefixCompare(a.labels, SplitDots(prefix)) == if b < end then PrefixCompare(x.labels, rest) else 0
      decreases |x.labels|
    {
      var dot := b + FirstDot(prefix[b..]);
      LabelAt(prefix, b, rest, dot);
      PrefixThenLength(x.part, prefix[b..dot]);
      assert x.labels[0] == x.part && x.labels[1..] == x.parent.labels;
      c := CaseComparePrefix(x.part, prefix[b..dot]);
      if c != 0 {
        return c;
      }
      if dot < end - 1 {
        if |x.part| > dot - b {
          return 1;
        } else if |x.part| < dot - b {
          return -1;
        }
      }
      b, x, rest := dot + 1, x.parent, rest[1..];
    }
    if x != null && x != root && b >= end {
      return 0;
    } else if (x == null || x == root) && b < end {
      return -1;
    }
    return 0;
  }
}
