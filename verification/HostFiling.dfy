/** What is filed in the index by a history of hosts added, and which hosts it loses. */
module HostFiling {
  import opened Common
  import opened HostOrder
  import opened HostNames

  /** Of a name no more than fits the buffer is used; an address is taken whole. */
  const MAX_HOST: nat := 255

  /** The labels under which a host is entered in the host tree. */
  function NodeLabels(inet: Inet, host: string): (ls: Labels)
    ensures ls != []
  {
    if IsIpAddress(inet, host) then [host] else SplitDots(Truncate(host, MAX_HOST))
  }

  /** The search tree a host is filed in: it is chosen by the first label, which is what is left of the name by then. */
  function FiledIn(inet: Inet, host: string): (k: nat)
    ensures k < NUM_SEARCH_TREES
  {
    TreeOf(inet, NodeLabels(inet, host)[0])
  }

  function Entry(inet: Inet, host: string): (nat, Labels) {
    (FiledIn(inet, host), FoldAll(NodeLabels(inet, host)))
  }

  /** The label that a host has next to the root of the host tree. */
  function LastLabel(inet: Inet, host: string): string {
    var ls := NodeLabels(inet, host);
    ls[|ls| - 1]
  }

  predicate EndsIn(inet: Inet, host: string, last: string) {
    Fold(LastLabel(inet, host)) == Fold(last)
  }

  predicate Taken(inet: Inet, names: seq<string>, last: string) {
    exists i :: 0 <= i < |names| && EndsIn(inet, names[i], last)
  }

  /** The labels next to the root. */
  function Ends(inet: Inet, names: seq<string>): set<string> {
    set i | 0 <= i < |names| :: Fold(LastLabel(inet, names[i]))
  }

  lemma TakenIsEnd(inet: Inet, names: seq<string>, last: string)
    ensures Taken(inet, names, last) <==> Fold(last) in Ends(inet, names)
  {
  }

  lemma OneMoreEnd(inet: Inet, names: seq<string>, host: string)
    ensures Ends(inet, names + [host]) == Ends(inet, names) + {Fold(LastLabel(inet, host))}
  {
    hide LastLabel;
    var names' := names + [host];
    assert names'[|names|] == host;
    forall e | e in Ends(inet, names) ensures e in Ends(inet, names') {
      var i :| 0 <= i < |names| && e == Fold(LastLabel(inet, names[i]));
      assert names'[i] == names[i];
    }
  }

  lemma OneMoreFiled(inet: Inet, names: seq<string>, host: string)
    ensures Filed(inet, names + [host]) == Filed(inet, names) + if Files(inet, names, host) then {Entry(inet, host)} else {}
  {
    hide Files;
    hide Entry;
    assert (names + [host])[..|names|] == names;
  }

  /** Whether adding a host files it: not an address whose label is in the host tree, next to the root, already. */
  predicate Files(inet: Inet, earlier: seq<string>, host: string) {
    IsIpAddress(inet, host) ==> !Taken(inet, earlier, host)
  }

  /** Everything filed once these hosts have been added, in this order. */
  function Filed(inet: Inet, names: seq<string>): set<(nat, Labels)> {
    if names == [] then {}
    else
      var earlier, host := names[..|names| - 1], names[|names| - 1];
      Filed(inet, earlier) + if Files(inet, earlier, host) then {Entry(inet, host)} else {}
  }

  // ----- which hosts are lost -----

  /**
   An address is kept if every earlier name that ends in it comes after the
   address itself; a name, if it is not too long and its first label is not taken
   for an address.
   */
  predicate Fits(inet: Inet, earlier: seq<string>, host: string) {
    if IsIpAddress(inet, host) then
      forall j :: 0 <= j < |earlier| && EndsIn(inet, earlier[j], host) ==>
        exists i :: 0 <= i <= j && Fold(earlier[i]) == Fold(host)
    else FitsName(inet, host)
  }

  predicate FitsName(inet: Inet, host: string) {
    |host| <= MAX_HOST && !IsIpAddress(inet, SplitDots(host)[0])
  }

  predicate AllFit(inet: Inet, names: seq<string>) {
    forall k :: 0 <= k < |names| ==> Fits(inet, names[..k], names[k])
  }

  lemma OneMoreFits(inet: Inet, names: seq<string>, host: string)
    ensures AllFit(inet, names + [host]) <==> AllFit(inet, names) && Fits(inet, names, host)
  {
    hide Fits;
    var names' := names + [host];
    assert forall k :: 0 <= k < |names| ==> names'[..k] == names[..k] && names'[k] == names[k];
    assert names'[..|names|] == names;
    if AllFit(inet, names') {
      assert Fits(inet, names'[..|names|], names'[|names|]);
      forall k | 0 <= k < |names| ensures Fits(inet, names[..k], names[k]) {
        assert Fits(inet, names'[..k], names'[k]);
      }
    }
  }

  /** Only a bracket can make a host unfit, or its length. */
  lemma UnbracketedFits(inet: Inet, earlier: seq<string>, host: string)
    requires Caseless(inet) && '[' !in host && |host| <= MAX_HOST
    ensures Fits(inet, earlier, host)
  {
    if IsIpAddress(inet, host) {
      forall j | 0 <= j < |earlier| && EndsIn(inet, earlier[j], host)
        ensures Fold(earlier[j]) == Fold(host)
      {
        if !IsIpAddress(inet, earlier[j]) {
          LabelsComeFrom(Truncate(earlier[j], MAX_HOST), LastLabel(inet, earlier[j]));
          NoDotFolded(LastLabel(inet, earlier[j]), host);
          DotlessIsBracketed(inet, host);
        }
      }
    } else {
      UnbracketedLabel(inet, host, SplitDots(host)[0]);
    }
  }

  lemma NoDotFolded(a: string, b: string)
    requires '.' !in a && Fold(a) == Fold(b)
    ensures '.' !in b
  {
    assert |Fold(a)| == |a| && |Fold(b)| == |b|;
    forall i | 0 <= i < |b| ensures b[i] != '.' {
      assert Fold(a)[i] == Lower(a[i]) && Fold(b)[i] == Lower(b[i]);
    }
  }

  // ----- what is in the index -----

  lemma {:induction false} FiledFromNames(inet: Inet, names: seq<string>, e: (nat, Labels)) returns (i: nat)
    requires e in Filed(inet, names)
    ensures i < |names| && Entry(inet, names[i]) == e && Files(inet, names[..i], names[i])
  {
    hide Entry;
    hide Files;
    i := |names| - 1;
    var earlier := names[..i];
    if e in Filed(inet, earlier) {
      i := FiledFromNames(inet, earlier, e);
      assert earlier[..i] == names[..i];
    }
  }

  lemma {:induction false} FiledStays(inet: Inet, names: seq<string>, i: nat)
    requires i < |names| && Files(inet, names[..i], names[i])
    ensures Entry(inet, names[i]) in Filed(inet, names)
  {
    hide Entry;
    hide Files;
    if i < |names| - 1 {
      var earlier := names[..|names| - 1];
      assert earlier[..i] == names[..i];
      FiledStays(inet, earlier, i);
    }
  }

  lemma SameAddress(inet: Inet, a: string, b: string)
    requires Caseless(inet) && IsIpAddress(inet, a) && Fold(a) == Fold(b)
    ensures IsIpAddress(inet, b) && Entry(inet, a) == Entry(inet, b)
  {
    assert FoldAll([a]) == FoldAll([b]);
  }

  lemma SameLabels(a: Labels, b: Labels, i: nat)
    requires FoldAll(a) == FoldAll(b) && i < |a|
    ensures |a| == |b| && Fold(a[i]) == Fold(b[i])
  {
    assert |FoldAll(a)| == |a| && |FoldAll(b)| == |b|;
    assert FoldAll(a)[i] == Fold(a[i]) && FoldAll(b)[i] == Fold(b[i]);
  }

  lemma WholeName(inet: Inet, host: string)
    requires !IsIpAddress(inet, host) && |host| <= MAX_HOST
    ensures NodeLabels(inet, host) == SplitDots(host)
  {
  }

  /** The entry a name is looked for under is filed exactly if the name fits. */
  lemma NameFiledExactly(inet: Inet, names: seq<string>, host: string)
    requires Caseless(inet) && host in names && !IsIpAddress(inet, host)
    ensures (TreeOf(inet, host), FoldAll(SplitDots(host))) in Filed(inet, names) <==> FitsName(inet, host)
  {
    hide IsIpAddress;
    hide Filed;
    hide FoldAll;
    hide SplitDots;
    hide Caseless;
    if FitsName(inet, host) {
      var i :| 0 <= i < |names| && names[i] == host;
      FiledStays(inet, names, i);
      WholeName(inet, host);
      TreeOfName(inet, host);
    } else if (TreeOf(inet, host), FoldAll(SplitDots(host))) in Filed(inet, names) {
      var i := FiledFromNames(inet, names, (TreeOf(inet, host), FoldAll(SplitDots(host))));
      NotFiledWhereSought(inet, host, names[i]);
    }
  }

  /** A name that is not taken for an address is filed in the tree it is looked for in. */
  lemma TreeOfName(inet: Inet, host: string)
    requires !IsIpAddress(inet, host) && !IsIpAddress(inet, SplitDots(host)[0])
    ensures TreeOf(inet, SplitDots(host)[0]) == TreeOf(inet, host) != ST_IP
  {
    FirstLabelIs(host);
  }

  lemma NotFiledWhereSought(inet: Inet, host: string, other: string)
    requires Caseless(inet) && !IsIpAddress(inet, host) && !FitsName(inet, host)
    ensures Entry(inet, other) != (TreeOf(inet, host), FoldAll(SplitDots(host)))
  {
    hide FoldAll;
    hide SplitDots;
    var ls := NodeLabels(inet, other);
    if FoldAll(ls) == FoldAll(SplitDots(host)) && !IsIpAddress(inet, other) {
      if |host| > MAX_HOST {
        LengthIsFolded(ls, SplitDots(host));
        LengthOfSplit(host);
        LengthOfSplit(Truncate(other, MAX_HOST));
      } else {
        SameLabels(SplitDots(host), ls, 0);
        assert IsIpAddress(inet, ls[0]);
      }
    }
  }

  /** Where all fits, every address added is in the index. */
  lemma {:induction false} AddressIsFiled(inet: Inet, names: seq<string>, i: nat)
    requires Caseless(inet) && AllFit(inet, names) && i < |names| && IsIpAddress(inet, names[i])
    ensures Entry(inet, names[i]) in Filed(inet, names)
  {
    hide IsIpAddress;
    hide EndsIn;
    hide Filed;
    hide Caseless;
    assert Fits(inet, names[..i], names[i]);
    if Files(inet, names[..i], names[i]) {
      FiledStays(inet, names, i);
    } else {
      var j :| 0 <= j < i && EndsIn(inet, names[..i][j], names[i]);
      var k :| 0 <= k <= j && Fold(names[..i][k]) == Fold(names[i]);
      SameAddress(inet, names[i], names[k]);
      AddressIsFiled(inet, names, k);
    }
  }

  predicate NamesFit(inet: Inet, names: seq<string>) {
    forall n :: n in names ==> IsIpAddress(inet, n) || FitsName(inet, n)
  }

  /** Where the names fit, whatever is filed among the addresses is the single label of one. */
  lemma FiledAddress(inet: Inet, names: seq<string>, key: Labels) returns (i: nat)
    requires Caseless(inet) && NamesFit(inet, names) && (ST_IP, key) in Filed(inet, names)
    ensures i < |names| && IsIpAddress(inet, names[i]) && Entry(inet, names[i]) == (ST_IP, key) && key == [Fold(names[i])]
    ensures !Taken(inet, names[..i], names[i])
  {
    hide IsIpAddress;
    hide Filed;
    hide Caseless;
    hide SplitDots;
    i := FiledFromNames(inet, names, (ST_IP, key));
    OnlyAddressesAmongThem(inet, names[i], key);
  }

  lemma OnlyAddressesAmongThem(inet: Inet, host: string, key: Labels)
    requires IsIpAddress(inet, host) || FitsName(inet, host)
    requires Entry(inet, host) == (ST_IP, key)
    ensures IsIpAddress(inet, host) && key == [Fold(host)]
  {
    hide IsIpAddress;
    hide SplitDots;
    assert FoldAll([host]) == [Fold(host)];
    if !IsIpAddress(inet, host) {
      TreeOfName(inet, host);
    }
  }

  /** An address that came too late is not in the index. */
  lemma UnfitAddressIsNotFiled(inet: Inet, names: seq<string>, i: nat)
    requires Caseless(inet) && NamesFit(inet, names) && i < |names| && IsIpAddress(inet, names[i])
    requires !Fits(inet, names[..i], names[i])
    ensures Entry(inet, names[i]) !in Filed(inet, names)
  {
    hide IsIpAddress;
    hide Filed;
    hide Caseless;
    hide NamesFit;
    var a := names[i];
    assert FoldAll([a]) == [Fold(a)];
    AddressEntry(inet, a);
    if Entry(inet, a) in Filed(inet, names) {
      var m := FiledAddress(inet, names, [Fold(a)]);
      TakenBefore(inet, names, i, m);
    }
  }

  lemma TakenBefore(inet: Inet, names: seq<string>, i: nat, m: nat)
    requires i < |names| && m < |names| && IsIpAddress(inet, names[i]) && Fold(names[m]) == Fold(names[i])
    requires !Fits(inet, names[..i], names[i])
    ensures Taken(inet, names[..m], names[m])
  {
    hide IsIpAddress;
    var a := names[i];
    var j :| 0 <= j < i && EndsIn(inet, names[..i][j], a) && !(exists k :: 0 <= k <= j && Fold(names[..i][k]) == Fold(a));
    assert m < i ==> Fold(names[..i][m]) == Fold(a);
    assert EndsIn(inet, names[..m][j], names[m]);
  }

  lemma AddressEntry(inet: Inet, a: string)
    requires IsIpAddress(inet, a)
    ensures Entry(inet, a) == (ST_IP, [Fold(a)])
  {
    assert FoldAll([a]) == [Fold(a)];
  }

  /** A name that begins with an address, with which it is filed, and may be taken for it. */
  predicate Rival(inet: Inet, name: string, host: string) {
    var ls := NodeLabels(inet, name);
    !IsIpAddress(inet, name) && |ls| > 1 && Fold(ls[0]) == Fold(host)
  }

  predicate Unrivalled(inet: Inet, names: seq<string>, host: string) {
    forall n :: n in names ==> !Rival(inet, n, host)
  }

  lemma FiledSingle(inet: Inet, names: seq<string>, host: string, key: Labels)
    requires Unrivalled(inet, names, host) && (ST_IP, key) in Filed(inet, names) && key != [] && key[0] == Fold(host)
    ensures key == [Fold(host)]
  {
    hide IsIpAddress;
    hide Filed;
    hide SplitDots;
    var i := FiledFromNames(inet, names, (ST_IP, key));
    var ls := NodeLabels(inet, names[i]);
    assert |FoldAll(ls)| == |ls| && FoldAll(ls)[0] == Fold(ls[0]);
    assert !Rival(inet, names[i], host);
  }

  lemma FitAreNoRivals(inet: Inet, names: seq<string>, host: string)
    requires Caseless(inet) && NamesFit(inet, names) && IsIpAddress(inet, host)
    ensures Unrivalled(inet, names, host)
  {
    hide IsIpAddress;
    hide SplitDots;
    forall n | n in names ensures !Rival(inet, n, host) {
      if Rival(inet, n, host) {
        WholeName(inet, n);
      }
    }
  }

  lemma AddressIsNoRival(inet: Inet, names: seq<string>, host: string)
    requires IsIpAddress(inet, host) && Unrivalled(inet, names, host)
    ensures Unrivalled(inet, names + [host], host)
  {
    hide IsIpAddress;
    hide Rival;
    AddressHasNoRivalInItself(inet, host);
    forall n | n in names + [host] ensures !Rival(inet, n, host) {
      assert n in names || n == host;
    }
  }

  lemma AddressHasNoRivalInItself(inet: Inet, host: string)
    requires IsIpAddress(inet, host)
    ensures !Rival(inet, host, host)
  {
  }

  lemma SameTree(inet: Inet, a: string, b: string)
    requires Caseless(inet) && Fold(a) == Fold(b)
    ensures TreeOf(inet, a) == TreeOf(inet, b)
  {
    hide IsIpAddress;
    assert |Fold(a)| == |a| && |Fold(b)| == |b|;
    if a != [] {
      assert Fold(a)[0] == Lower(a[0]) && Fold(b)[0] == Lower(b[0]);
    }
  }

  lemma FiledAsSought(inet: Inet, n: string, host: string)
    requires Caseless(inet) && FoldAll(HostLabels(inet, n)) == FoldAll(HostLabels(inet, host))
    requires IsIpAddress(inet, n) || FitsName(inet, n)
    ensures Entry(inet, n) == (TreeOf(inet, host), FoldAll(HostLabels(inet, host)))
  {
    hide IsIpAddress;
    hide Caseless;
    hide TreeOf;
    hide SplitDots;
    hide FoldAll;
    var ls, ms := HostLabels(inet, n), HostLabels(inet, host);
    SameLabels(ls, ms, 0);
    SameTree(inet, ls[0], ms[0]);
    if !IsIpAddress(inet, host) {
      NotAnAddress(inet, n, host);
      TreeOfName(inet, host);
    }
  }

  lemma NotAnAddress(inet: Inet, n: string, host: string)
    requires Caseless(inet) && FoldAll(HostLabels(inet, n)) == FoldAll(HostLabels(inet, host))
    requires !IsIpAddress(inet, host) && (IsIpAddress(inet, n) || FitsName(inet, n))
    ensures !IsIpAddress(inet, n) && !IsIpAddress(inet, SplitDots(host)[0])
  {
    hide IsIpAddress;
    SameLabels(HostLabels(inet, n), SplitDots(host), 0);
    if IsIpAddress(inet, n) {
      LabelsOfOne(host);
    }
  }

  lemma LabelsOfOne(host: string)
    ensures |SplitDots(host)| == 1 ==> SplitDots(host)[0] == host
  {
    assert host[..|host|] == host;
  }

  /** Where all fits, what is looked for is filed exactly if it has been added. */
  lemma KeyFiledExactly(inet: Inet, names: seq<string>, host: string)
    requires Caseless(inet) && AllFit(inet, names)
    ensures (TreeOf(inet, host), FoldAll(HostLabels(inet, host))) in Filed(inet, names) <==>
            exists i :: 0 <= i < |names| && FoldAll(HostLabels(inet, names[i])) == FoldAll(HostLabels(inet, host))
  {
    hide IsIpAddress;
    hide Caseless;
    hide TreeOf;
    hide SplitDots;
    hide FoldAll;
    hide Filed;
    hide FitsName;
    AllNamesFit(inet, names);
    if (TreeOf(inet, host), FoldAll(HostLabels(inet, host))) in Filed(inet, names) {
      var i := FiledFromNames(inet, names, (TreeOf(inet, host), FoldAll(HostLabels(inet, host))));
      WholeHost(inet, names[i]);
    }
    if i :| 0 <= i < |names| && FoldAll(HostLabels(inet, names[i])) == FoldAll(HostLabels(inet, host)) {
      FiledAsSought(inet, names[i], host);
      if IsIpAddress(inet, names[i]) {
        AddressIsFiled(inet, names, i);
      } else {
        FiledStays(inet, names, i);
      }
    }
  }

  lemma WholeHost(inet: Inet, host: string)
    requires IsIpAddress(inet, host) || FitsName(inet, host)
    ensures NodeLabels(inet, host) == HostLabels(inet, host)
  {
  }

  lemma AllNamesFit(inet: Inet, names: seq<string>)
    requires AllFit(inet, names)
    ensures NamesFit(inet, names)
  {
    hide IsIpAddress;
    hide FitsName;
    forall n | n in names ensures IsIpAddress(inet, n) || FitsName(inet, n) {
      var k :| 0 <= k < |names| && names[k] == n;
      assert Fits(inet, names[..k], names[k]);
    }
  }

  // ----- two histories that lose a host -----

  /** What the C library makes of `[::12]`: no IPv4 address, but one of IPv6 within the brackets. */
  predicate ReadsBrackets(inet: Inet) {
    !inet.aton("[::12]") && inet.pton6("::12")
  }

  lemma BracketsAreAddress(inet: Inet)
    requires ReadsBrackets(inet)
    ensures IsIpAddress(inet, "[::12]")
  {
    hide FirstSlash;
    var s := "[::12]";
    NoSlash(s);
    assert Truncate(s[1..|s| - 1], 63) == "::12";
  }

  lemma NoSlash(s: string)
    requires '/' !in s
    ensures s[..FirstSlash(s)] == s
  {
    hide FirstSlash;
  }

  lemma LabelsOfTwo(s: string, d: nat)
    requires d < |s| && s[d] == '.' && (forall i :: 0 <= i < |s| && i != d ==> s[i] != '.')
    ensures SplitDots(s) == [s[..d], s[d + 1..]]
  {
    hide FirstDot;
    hide SplitDots;
    SplitAtFirstDot(s, d);
    NoDotNoSplit(s[d + 1..]);
  }

  /** A name of two labels, the first of which is taken for an address. */
  lemma AddressFirst(inet: Inet, host: string, first: string, last: string)
    requires !IsIpAddress(inet, host) && |host| <= MAX_HOST && SplitDots(host) == [first, last] && IsIpAddress(inet, first)
    ensures FiledIn(inet, host) == ST_IP && NodeLabels(inet, host) == [first, last]
    ensures Filed(inet, [host]) == {(ST_IP, FoldAll([first, last]))} && !Fits(inet, [], host)
  {
    hide IsIpAddress;
    hide SplitDots;
    hide FoldAll;
    assert Filed(inet, []) == {};
    OneMoreFiled(inet, [], host);
    assert [] + [host] == [host];
  }

  /** A name of two labels, the last of which is an address, and that address. */
  lemma AddressLast(inet: Inet, name: string, first: string, host: string)
    requires !IsIpAddress(inet, name) && |name| <= MAX_HOST && SplitDots(name) == [first, host]
    requires !IsIpAddress(inet, first) && IsIpAddress(inet, host) && |name| != |host|
    ensures NodeLabels(inet, name) == [first, host] && Fits(inet, [], name) && !Fits(inet, [name], host)
    ensures Filed(inet, [name, host]) == {(TreeOf(inet, first), FoldAll([first, host]))}
    ensures Fits(inet, [], host) && Fits(inet, [host], name)
  {
    hide IsIpAddress;
    hide SplitDots;
    hide FoldAll;
    assert Filed(inet, []) == {};
    OneMoreFiled(inet, [], name);
    OneMoreFiled(inet, [name], host);
    assert [] + [name] == [name] && [name] + [host] == [name, host];
    assert EndsIn(inet, [name][0], host);
    assert |Fold(name)| == |name| && |Fold(host)| == |host|;
  }

  /** `[::12].example` is filed among the addresses, and looked for among the names. */
  lemma BracketedFirst(inet: Inet)
    requires ReadsBrackets(inet)
    ensures var host := "[::12].example";
            && !IsIpAddress(inet, host) && FiledIn(inet, host) == ST_IP && TreeOf(inet, host) == ST_EE
            && SplitDots(host) == ["[::12]", "example"]
            && Filed(inet, [host]) == {(ST_IP, FoldAll(["[::12]", "example"]))} && !Fits(inet, [], host)
  {
    hide IsIpAddress;
    hide SplitDots;
    hide FoldAll;
    hide Filed;
    hide Fits;
    hide FiledIn;
    var host := "[::12].example";
    BracketsAreAddress(inet);
    NotAllDigits(inet, host, 10);
    LabelsOfTwo(host, 6);
    assert host[..6] == "[::12]" && host[7..] == "example";
    AddressFirst(inet, host, "[::12]", "example");
  }

  lemma NotAllDigits(inet: Inet, host: string, i: nat)
    requires i < |host| && host[i] == 'm' && '/' !in host
    ensures !IsIpAddress(inet, host)
  {
    hide FirstSlash;
    NoSlash(host);
  }

  /** `a.[::12]` fits, but then `[::12]` is not filed; the other way round both fit. */
  lemma BracketedLast(inet: Inet)
    requires ReadsBrackets(inet)
    ensures var name, host := "a.[::12]", "[::12]";
            && !IsIpAddress(inet, name) && IsIpAddress(inet, host) && SplitDots(name) == ["a", host]
            && Fits(inet, [], name) && !Fits(inet, [name], host)
            && Filed(inet, [name, host]) == {(TreeOf(inet, "a"), FoldAll(["a", host]))} && TreeOf(inet, "a") == ST_DN
            && Fits(inet, [], host) && Fits(inet, [host], name)
  {
    hide IsIpAddress;
    hide SplitDots;
    hide FoldAll;
    hide Filed;
    hide Fits;
    hide CountDots;
    var name, host := "a.[::12]", "[::12]";
    BracketsAreAddress(inet);
    LabelsOfTwo(name, 1);
    assert name[..1] == "a" && name[2..] == host;
    NoBracketFirst(inet, name, 1);
    NoBracketFirst(inet, "a", 0);
    AddressLast(inet, name, "a", host);
  }

  lemma NoBracketFirst(inet: Inet, host: string, d: nat)
    requires host != "" && host[0] == 'a' && '/' !in host && forall i :: 0 <= i < |host| && i != d ==> host[i] != '.'
    ensures !IsIpAddress(inet, host)
  {
    hide FirstSlash;
    NoSlash(host);
    OneDot(host, d);
  }

  lemma {:induction false} OneDot(s: string, d: int)
    requires forall i :: 0 <= i < |s| && i != d ==> s[i] != '.'
    ensures CountDots(s) <= 1
  {
    if s != "" {
      if d == 0 {
        NoDots(s[1..]);
      } else {
        OneDot(s[1..], d - 1);
      }
    }
  }
}
