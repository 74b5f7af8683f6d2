/** What the machine computes, stated with the matching relation alone. */
module WildcardProofs {
  import opened Common
  import opened Wildcard

  lemma CharAt(m: Search, q: nat, j: nat, e: nat)
    requires q < |m.pattern| && m.pattern[q] != '*' && j <= e <= |m.text|
    ensures m.At(q, j, e) <==>
            j < e && CharMatches(m.pattern[q], m.text[j], m.caseSens) && m.At(q + 1, j + 1, e)
  {
    if j < e {
      assert m.text[j..e][1..] == m.text[j + 1..e];
      assert m.pattern[q..][1..] == m.pattern[q + 1..];
    }
  }

  /** A run of asterisks lets the rest of the pattern start anywhere further on. */
  lemma {:induction false} StarAt(m: Search, p: nat, q: nat, j: nat, e: nat)
    requires p < q <= |m.pattern| && j <= e <= |m.text|
    requires forall i :: p <= i < q ==> m.pattern[i] == '*'
    ensures m.At(p, j, e) <==> m.Ahead(q, j, e)
    decreases q - p
  {
    OneStarAt(m, p, j, e);
    if p + 1 < q {
      forall k: nat | j <= k && k <= e
        ensures m.At(p + 1, k, e) <==> m.Ahead(q, k, e)
      {
        StarAt(m, p + 1, q, k, e);
      }
      if m.At(p, j, e) {
        var k :| j <= k && m.At(p + 1, k, e);
        assert m.Ahead(q, k, e);
        var k' :| k <= k' && m.At(q, k', e);
        assert j <= k' && m.At(q, k', e);
      }
      if m.Ahead(q, j, e) {
        assert j <= j && m.At(p + 1, j, e);
      }
    }
  }

  lemma OneStarAt(m: Search, p: nat, j: nat, e: nat)
    requires p < |m.pattern| && m.pattern[p] == '*' && j <= e <= |m.text|
    ensures m.At(p, j, e) <==> m.Ahead(p + 1, j, e)
  {
    var t, rest := m.text[j..e], m.pattern[p..];
    assert rest[1..] == m.pattern[p + 1..];
    if m.At(p, j, e) {
      var k :| 0 <= k <= |t| && Matches(rest[1..], t[k..], m.caseSens);
      assert t[k..] == m.text[j + k..e];
      assert j <= j + k && m.At(p + 1, j + k, e);
    }
    if m.Ahead(p + 1, j, e) {
      var k :| j <= k && m.At(p + 1, k, e);
      assert t[k - j..] == m.text[k..e];
    }
  }

  /** Resuming at an asterisk, stated at the first character after the run. */
  lemma ReachStar(m: Search, f: Frame, e: nat)
    requires m.Within(f) && f.p < |m.pattern| && m.AtStar(f.p)
    ensures m.Reach(f, e) <==> m.Ahead(m.SkipStars(f.p), f.s, e)
  {
    hide Matches;
    var q := m.SkipStars(f.p);
    if f.p >= 0 {
      if f.s <= e <= |m.text| {
        StarAt(m, f.p, q, f.s, e);
      }
    } else if q > 0 {
      if m.Reach(f, e) {
        var j :| f.s <= j && m.At(0, j, e);
        StarAt(m, 0, q, j, e);
        var k :| j <= k && m.At(q, k, e);
        assert f.s <= k && m.At(q, k, e);
      }
      if m.Ahead(q, f.s, e) {
        var k :| f.s <= k && m.At(q, k, e);
        StarAt(m, 0, q, k, e);
        assert f.s <= k && m.At(0, k, e);
      }
    }
  }

  // ----- soundness: whatever is reached is a match -----

  /** How the stack relates to the current attempt. */
  ghost predicate Shape(m: Search, cur: Frame, stack: seq<Frame>) {
    && m.AllWithin(cur, stack)
    && (cur.first <==> stack == [])
    && (if cur.first then cur.p < Lead(m.pattern)
        else Lead(m.pattern) < cur.p && cur.ss < cur.s)
    && (forall i :: 0 <= i < |stack| ==>
          && (stack[i].first <==> i == 0)
          && stack[i].p < |m.pattern| && m.AtStar(stack[i].p)
          && (if i == 0 then stack[i].p < Lead(m.pattern) < |m.pattern| && stack[i].s == cur.ss + 1
              else stack[i].ss == cur.ss < stack[i].s && Lead(m.pattern) < stack[i].p))
  }

  /** Every resumption within the current start completes a match from that start. */
  ghost predicate Sound(m: Search, cur: Frame, stack: seq<Frame>) {
    && Shape(m, cur, stack)
    && (!cur.first ==> forall e :: m.Reach(cur, e) ==> m.MatchAt(cur.ss, e))
    && (forall i, e :: 1 <= i < |stack| && m.Reach(stack[i], e) ==> m.MatchAt(cur.ss, e))
  }

  lemma LeadIsSkipped(m: Search, p: int)
    requires -1 <= p < Lead(m.pattern) || (p == -1 && m.pattern == [])
    ensures m.AtStar(p) && m.SkipStars(p) == Lead(m.pattern)
  {
  }

  lemma StepKeepsShape(m: Search, cur: Frame, stack: seq<Frame>)
    requires Shape(m, cur, stack) && m.Step(cur, stack).Go?
    ensures var g := m.Step(cur, stack); Shape(m, g.cur, g.stack)
  {
    hide CharMatches;
    if cur.first {
      LeadIsSkipped(m, cur.p);
    }
  }

  /** Cases of a step: a wildcard found a place, a character matched, or the last choice is undone. */
  ghost predicate StarStep(m: Search, cur: Frame, q: nat, k: nat)
    requires m.Within(cur)
  {
    cur.p < |m.pattern| && m.AtStar(cur.p) && q == m.SkipStars(cur.p) < |m.pattern| &&
    k == m.Scan(q, cur.s) < |m.text|
  }

  ghost predicate CharStep(m: Search, cur: Frame)
    requires m.Within(cur)
  {
    cur.p < |m.pattern| && !m.AtStar(cur.p) && cur.s < |m.text| &&
    CharMatches(m.pattern[cur.p], m.text[cur.s], m.caseSens)
  }

  /** Taking the first place a wildcard can end at loses nothing, if the later places stay stacked. */
  lemma StarSplits(m: Search, cur: Frame, q: nat, k: nat, next: Frame, later: Frame, e: nat)
    requires m.Within(cur) && StarStep(m, cur, q, k)
    requires m.Within(next) && next.s == k + 1 && next.p == q + 1
    requires m.Within(later) && later.s == k + 1 && later.p == q - 1
    ensures m.Reach(next, e) <==> m.At(q, k, e)
    ensures m.Reach(cur, e) <==> m.Reach(next, e) || m.Reach(later, e)
  {
    hide Matches;
    assert m.AtStar(later.p) && m.SkipStars(later.p) == q;
    ReachStar(m, cur, e);
    ReachStar(m, later, e);
    if k <= e <= |m.text| {
      CharAt(m, q, k, e);
    }
    if m.Reach(cur, e) {
      var j :| cur.s <= j && m.At(q, j, e);
      CharAt(m, q, j, e);
      assert k <= j;
      if k < j {
        assert later.s <= j && m.At(q, j, e);
      }
    }
    if m.Reach(later, e) {
      var j :| later.s <= j && m.At(q, j, e);
      assert cur.s <= j && m.At(q, j, e);
    }
    if m.Reach(next, e) {
      assert cur.s <= k && m.At(q, k, e);
    }
  }

  lemma StarKeepsSound(m: Search, cur: Frame, stack: seq<Frame>, q: nat, k: nat)
    requires Sound(m, cur, stack) && StarStep(m, cur, q, k)
    ensures var g := m.Step(cur, stack); Sound(m, g.cur, g.stack)
  {
    hide Matches;
    var g := m.Step(cur, stack);
    StepKeepsShape(m, cur, stack);
    if cur.first {
      LeadIsSkipped(m, cur.p);
    }
    var later := Frame(cur.ss, k + 1, q - 1, cur.first);
    forall e {
      StarSplits(m, cur, q, k, g.cur, later, e);
    }
    assert forall i :: 1 <= i < |g.stack| ==> g.stack[i] == later || (i < |stack| && g.stack[i] == stack[i]);
    assert forall e :: m.Reach(g.cur, e) ==> m.MatchAt(g.cur.ss, e);
  }

  lemma StepKeepsSound(m: Search, cur: Frame, stack: seq<Frame>)
    requires Sound(m, cur, stack) && m.Step(cur, stack).Go?
    ensures var g := m.Step(cur, stack); Sound(m, g.cur, g.stack)
  {
    hide Matches;
    if cur.first {
      LeadIsSkipped(m, cur.p);
    }
    if m.AtStar(cur.p) && StarStep(m, cur, m.SkipStars(cur.p), m.Scan(m.SkipStars(cur.p), cur.s)) {
      StarKeepsSound(m, cur, stack, m.SkipStars(cur.p), m.Scan(m.SkipStars(cur.p), cur.s));
    } else {
      StepKeepsShape(m, cur, stack);
      if CharStep(m, cur) {
        forall e | m.Reach(m.Step(cur, stack).cur, e)
          ensures m.MatchAt(cur.ss, e)
        {
          CharAt(m, cur.p, cur.s, e);
        }
      }
    }
  }

  // ----- completeness: nothing that could match is thrown away -----

  /** Some choice, current or stacked above slot `from`, can still finish at `e`. */
  ghost predicate Live(m: Search, cur: Frame, stack: seq<Frame>, from: nat, e: nat)
    requires m.AllWithin(cur, stack)
  {
    m.Reach(cur, e) || exists i :: from <= i < |stack| && m.Reach(stack[i], e)
  }

  /** Since `f` was stacked, only literal characters have been consumed. */
  ghost predicate Locked(m: Search, f: Frame, cur: Frame)
    requires m.Within(cur)
  {
    -1 <= f.p < cur.p && (forall i :: f.p < i < cur.p ==> m.pattern[i] != '*') &&
    cur.s - f.s == cur.p - f.p - 2
  }

  ghost predicate TopFollowed(m: Search, f: Frame, cur: Frame)
    requires m.Within(cur) && m.Within(f)
  {
    if cur.p < |m.pattern| && m.AtStar(cur.p) then forall e :: m.Reach(f, e) ==> m.Reach(cur, e)
    else Locked(m, f, cur)
  }

  /** There is a free slot for every run of asterisks still ahead. */
  ghost predicate Budgeted(m: Search, cur: Frame, stack: seq<Frame>)
    requires Shape(m, cur, stack)
  {
    && (!cur.first ==> |stack| - 1 + RunsFrom(m.pattern, cur.p) <= InteriorRuns(m.pattern))
    && (forall i :: 1 <= i < |stack| ==> i - 1 + RunsFrom(m.pattern, stack[i].p) <= InteriorRuns(m.pattern))
  }

  ghost predicate Complete(m: Search, cur: Frame, stack: seq<Frame>) {
    && Shape(m, cur, stack)
    && Budgeted(m, cur, stack)
    && (forall st: nat, e: nat :: st < (if cur.first then cur.s else cur.ss) ==> !m.MatchAt(st, e))
    && (!cur.first ==> forall e :: m.MatchAt(cur.ss, e) ==> Live(m, cur, stack, 1, e))
    && (forall i, e :: 1 <= i < |stack| - 1 && m.Reach(stack[i], e) ==> Live(m, cur, stack, i + 1, e))
    && (|stack| >= 2 ==> TopFollowed(m, stack[|stack| - 1], cur))
  }

  lemma {:induction false} Literals(m: Search, p: nat, n: nat, k: nat, e: nat)
    requires p + n <= |m.pattern| && m.At(p, k, e)
    requires forall i :: p <= i < p + n ==> m.pattern[i] != '*'
    ensures m.At(p + n, k + n, e)
    decreases n
  {
    hide Matches;
    if n > 0 {
      CharAt(m, p, k, e);
      Literals(m, p + 1, n - 1, k + 1, e);
    }
  }

  /**
   The heart of the matcher: once the literals after an asterisk have matched at
   their first place and the next asterisk is reached, any match that puts those
   literals further right is also a match of what is left from here.
   */
  lemma FirstPlaceIsEnough(m: Search, f: Frame, cur: Frame, e: nat)
    requires m.Within(f) && m.Within(cur) && Locked(m, f, cur)
    requires f.p >= 0 && m.pattern[f.p] == '*' && m.SkipStars(f.p) == f.p + 1
    requires cur.p < |m.pattern| && m.pattern[cur.p] == '*'
    requires m.Reach(f, e)
    ensures m.Reach(cur, e)
  {
    hide Matches;
    ReachStar(m, f, e);
    var k :| f.s <= k && m.At(f.p + 1, k, e);
    var n := cur.p - f.p - 1;
    Literals(m, f.p + 1, n, k, e);
    var moved := Frame(0, k + n, cur.p, false);
    ReachStar(m, moved, e);
    ReachStar(m, cur, e);
  }

  /** A choice that can no longer finish is dropped from `Live`. */
  lemma PopLive(m: Search, cur: Frame, stack: seq<Frame>, from: nat, e: nat)
    requires m.AllWithin(cur, stack) && from < |stack|
    requires !m.Reach(cur, e) && Live(m, cur, stack, from, e)
    ensures Live(m, stack[|stack| - 1], stack[..|stack| - 1], from, e)
  {
    hide Matches;
    var n := |stack| - 1;
    var j :| from <= j < |stack| && m.Reach(stack[j], e);
    if j < n {
      assert stack[..n][j] == stack[j];
    }
  }

  /** The last stacked choice, with everything it still has to offer, becomes current. */
  lemma PopKeepsComplete(m: Search, cur: Frame, stack: seq<Frame>)
    requires Complete(m, cur, stack) && |stack| > 1
    requires forall e :: !m.Reach(cur, e)
    ensures Complete(m, stack[|stack| - 1], stack[..|stack| - 1])
  {
    hide Matches;
    var n := |stack| - 1;
    var f, rest := stack[n], stack[..n];
    assert Shape(m, f, rest) && Budgeted(m, f, rest);
    forall e | m.MatchAt(f.ss, e)
      ensures Live(m, f, rest, 1, e)
    {
      PopLive(m, cur, stack, 1, e);
    }
    forall i, e | 1 <= i < n && m.Reach(stack[i], e)
      ensures Live(m, f, rest, i + 1, e)
    {
      PopLive(m, cur, stack, i + 1, e);
    }
    if n >= 2 {
      forall e | m.Reach(rest[n - 1], e)
        ensures m.Reach(f, e)
      {
        assert Live(m, f, rest, n, e);
      }
    }
  }

  /** No choice is left for the current start: the next start is tried. */
  lemma PopToNextStart(m: Search, cur: Frame, stack: seq<Frame>)
    requires Complete(m, cur, stack) && |stack| == 1
    requires forall e :: !m.Reach(cur, e)
    ensures Complete(m, stack[0], [])
  {
    hide Matches;
    assert forall e :: !Live(m, cur, stack, 1, e);
    forall st: nat, e: nat | st <= cur.ss
      ensures !m.MatchAt(st, e)
    {
    }
  }

  lemma RunsAt(pattern: string, p: nat, q: nat)
    requires p < q < |pattern| && pattern[q] != '*'
    requires forall i :: p <= i < q ==> pattern[i] == '*'
    ensures RunsFrom(pattern, p) == RunsFrom(pattern, q - 1) == 1 + RunsFrom(pattern, q + 1)
    decreases q - p
  {
    if p + 1 < q {
      RunsAt(pattern, p + 1, q);
    } else {
      assert RunsFrom(pattern, q) == RunsFrom(pattern, q + 1);
    }
  }

  /** A wildcard at the very start: earlier starts are impossible. */
  lemma FirstStarKeepsComplete(m: Search, cur: Frame, q: nat, k: nat)
    requires cur.first && Complete(m, cur, []) && StarStep(m, cur, q, k)
    ensures var g := m.Step(cur, []); Complete(m, g.cur, g.stack)
  {
    hide Matches;
    var g := m.Step(cur, []);
    StepKeepsShape(m, cur, []);
    LeadIsSkipped(m, cur.p);
    forall st: nat, e: nat | st < k
      ensures !m.MatchAt(st, e)
    {
      if cur.s <= st <= e <= |m.text| {
        CharAt(m, q, st, e);
      }
    }
    forall e | m.MatchAt(k, e)
      ensures m.Reach(g.cur, e)
    {
      CharAt(m, q, k, e);
    }
    assert RunsFrom(m.pattern, q) == RunsFrom(m.pattern, q + 1);
  }

  lemma StarKeepsComplete(m: Search, cur: Frame, stack: seq<Frame>, q: nat, k: nat)
    requires !cur.first && Complete(m, cur, stack) && StarStep(m, cur, q, k)
    requires InteriorRuns(m.pattern) < MAX_CONTEXTS
    ensures var g := m.Step(cur, stack); Complete(m, g.cur, g.stack)
  {
    hide Matches;
    var g := m.Step(cur, stack);
    StepKeepsShape(m, cur, stack);
    RunsAt(m.pattern, cur.p, q);
    var n := |stack|;
    var later := Frame(cur.ss, k + 1, q - 1, false);
    assert g.stack == stack + [later];
    forall e {
      StarSplits(m, cur, q, k, g.cur, later, e);
    }
    forall i: nat, e: nat | Live(m, cur, stack, i, e) && i <= n
      ensures Live(m, g.cur, g.stack, i, e)
    {
      if m.Reach(cur, e) {
        assert m.Reach(g.cur, e) || m.Reach(g.stack[n], e);
      } else {
        var j :| i <= j < |stack| && m.Reach(stack[j], e);
        assert g.stack[j] == stack[j];
      }
    }
    forall i, e | 1 <= i < n && m.Reach(g.stack[i], e)
      ensures Live(m, g.cur, g.stack, i + 1, e)
    {
      assert Live(m, cur, stack, i + 1, e);
    }
    if g.cur.p < |m.pattern| && m.AtStar(g.cur.p) {
      forall e | m.Reach(later, e)
        ensures m.Reach(g.cur, e)
      {
        FirstPlaceIsEnough(m, later, g.cur, e);
      }
    }
  }

  lemma CharKeepsComplete(m: Search, cur: Frame, stack: seq<Frame>)
    requires Complete(m, cur, stack) && CharStep(m, cur)
    ensures var g := m.Step(cur, stack); Complete(m, g.cur, g.stack)
  {
    hide Matches;
    var g := m.Step(cur, stack);
    if cur.first {
      LeadIsSkipped(m, cur.p);
    }
    StepKeepsShape(m, cur, stack);
    assert RunsFrom(m.pattern, cur.p) == RunsFrom(m.pattern, cur.p + 1);
    forall e: nat
      ensures m.Reach(cur, e) <==> m.Reach(g.cur, e)
    {
      if cur.s <= e <= |m.text| {
        CharAt(m, cur.p, cur.s, e);
      }
    }
    forall i: nat, e: nat | Live(m, cur, stack, i, e)
      ensures Live(m, g.cur, stack, i, e)
    {
    }
    if |stack| >= 2 && g.cur.p < |m.pattern| && m.AtStar(g.cur.p) {
      var f := stack[|stack| - 1];
      forall e | m.Reach(f, e)
        ensures m.Reach(g.cur, e)
      {
        FirstPlaceIsEnough(m, f, g.cur, e);
      }
    }
  }

  lemma StepKeepsComplete(m: Search, cur: Frame, stack: seq<Frame>)
    requires Complete(m, cur, stack) && InteriorRuns(m.pattern) < MAX_CONTEXTS
    requires m.Step(cur, stack).Go?
    ensures var g := m.Step(cur, stack); Complete(m, g.cur, g.stack)
  {
    hide Matches;
    if CharStep(m, cur) {
      CharKeepsComplete(m, cur, stack);
    } else if m.AtStar(cur.p) && StarStep(m, cur, m.SkipStars(cur.p), m.Scan(m.SkipStars(cur.p), cur.s)) {
      var q := m.SkipStars(cur.p);
      if cur.first {
        FirstStarKeepsComplete(m, cur, q, m.Scan(q, cur.s));
      } else {
        StarKeepsComplete(m, cur, stack, q, m.Scan(q, cur.s));
      }
    } else {
      StuckCannotReach(m, cur);
      if |stack| == 1 {
        PopToNextStart(m, cur, stack);
      } else {
        PopKeepsComplete(m, cur, stack);
      }
    }
  }

  /** When neither case of a step applies, the current choice is hopeless. */
  lemma StuckCannotReach(m: Search, cur: Frame)
    requires m.Within(cur) && cur.p < |m.pattern|
    requires !CharStep(m, cur)
    requires m.AtStar(cur.p) ==>
               var q := m.SkipStars(cur.p); q < |m.pattern| && m.Scan(q, cur.s) == |m.text|
    ensures forall e :: !m.Reach(cur, e)
  {
    hide Matches;
    forall e: nat
      ensures !m.Reach(cur, e)
    {
      if m.AtStar(cur.p) {
        ReachStar(m, cur, e);
        forall k: nat | cur.s <= k
          ensures !m.At(m.SkipStars(cur.p), k, e)
        {
          if k <= e <= |m.text| {
            CharAt(m, m.SkipStars(cur.p), k, e);
          }
        }
      } else if cur.s <= e <= |m.text| {
        CharAt(m, cur.p, cur.s, e);
      }
    }
  }

  // ----- the results -----

  /** The answer the documentation of the search promises. */
  ghost predicate FirstMatch(m: Search, start: nat, e: nat) {
    && m.MatchAt(start, e)
    && (forall st: nat, e': nat :: m.MatchAt(st, e') ==> start <= st)
    && (forall e' :: m.MatchAt(start, e') ==> e <= e')
  }

  /** The loop is about to report a match ending at `cur.s`. */
  ghost predicate Finishing(m: Search, cur: Frame)
    requires m.Within(cur)
  {
    cur.p == |m.pattern| || (m.AtStar(cur.p) && m.SkipStars(cur.p) == |m.pattern|)
  }

  lemma CurrentEndsLater(m: Search, cur: Frame, e: nat)
    requires m.Within(cur) && Finishing(m, cur) && m.Reach(cur, e)
    ensures cur.s <= e
  {
    hide Matches;
    if cur.p < |m.pattern| {
      ReachStar(m, cur, e);
    }
  }

  lemma TopEndsLater(m: Search, f: Frame, cur: Frame, e: nat)
    requires m.Within(cur) && m.Within(f) && Finishing(m, cur) && TopFollowed(m, f, cur)
    requires f.p < |m.pattern| && m.AtStar(f.p) && m.Reach(f, e)
    ensures cur.s <= e
  {
    hide Matches;
    if cur.p == |m.pattern| {
      ReachStar(m, f, e);
      assert m.SkipStars(f.p) == f.p + 1;
      var k :| f.s <= k && m.At(f.p + 1, k, e);
      Literals(m, f.p + 1, cur.p - f.p - 1, k, e);
    } else {
      CurrentEndsLater(m, cur, e);
    }
  }

  lemma {:induction false} LiveIsLater(m: Search, cur: Frame, stack: seq<Frame>, from: nat, e: nat)
    requires Complete(m, cur, stack) && !cur.first && from >= 1
    requires Finishing(m, cur) && Live(m, cur, stack, from, e)
    ensures cur.s <= e
    decreases |stack| - from
  {
    hide Matches;
    hide Search.At;
    hide Search.Reach;
    if m.Reach(cur, e) {
      CurrentEndsLater(m, cur, e);
    } else {
      var i :| from <= i < |stack| && m.Reach(stack[i], e);
      if i < |stack| - 1 {
        LiveIsLater(m, cur, stack, i + 1, e);
      } else {
        TopEndsLater(m, stack[i], cur, e);
      }
    }
  }

  /** A match that is reported starts at `cur.ss` and ends at `cur.s`. */
  lemma ReportIsSound(m: Search, cur: Frame, stack: seq<Frame>)
    requires Sound(m, cur, stack) && Finishing(m, cur) && !cur.first
    ensures m.MatchAt(cur.ss, cur.s) && cur.ss < cur.s
  {
    assert m.pattern[|m.pattern|..] == [] && m.text[cur.s..cur.s] == [];
    assert m.At(|m.pattern|, cur.s, cur.s);
    if cur.p < |m.pattern| {
      ReachStar(m, cur, cur.s);
    }
  }

  lemma ReportIsFirst(m: Search, cur: Frame, stack: seq<Frame>)
    requires Sound(m, cur, stack) && Complete(m, cur, stack) && Finishing(m, cur) && !cur.first
    ensures FirstMatch(m, cur.ss, cur.s)
  {
    hide Matches;
    ReportIsSound(m, cur, stack);
    forall e | m.MatchAt(cur.ss, e)
      ensures cur.s <= e
    {
      LiveIsLater(m, cur, stack, 1, e);
    }
  }

  /** What it means that the loop stops here, with a match or without one. */
  lemma Stops(m: Search, cur: Frame, stack: seq<Frame>)
    requires Shape(m, cur, stack) && m.Step(cur, stack).Stop? && Stripped(m.pattern) != []
    ensures match m.Step(cur, stack).result
            case NoMatch => cur.first && stack == [] && cur.p < |m.pattern| && forall e :: !m.Reach(cur, e)
            case Match(start, len) => Finishing(m, cur) && !cur.first && start == cur.ss && len == cur.s - cur.ss
  {
    hide Matches;
    hide Search.Reach;
    if cur.first {
      LeadIsSkipped(m, cur.p);
    }
    if m.Step(cur, stack).result.NoMatch? {
      StuckCannotReach(m, cur);
    }
  }

  /** Any answer is a true match of the pattern less its leading asterisks. */
  lemma {:induction false} RunIsSound(m: Search, cur: Frame, stack: seq<Frame>)
    requires Sound(m, cur, stack) && Stripped(m.pattern) != []
    ensures var r := m.Run(cur, stack); r.Match? ==> m.MatchAt(r.start, r.start + r.len)
    decreases m.Fuel(cur, stack)
  {
    hide Matches;
    hide Search.Step;
    hide Search.At;
    var g := m.Step(cur, stack);
    if g.Go? {
      StepKeepsSound(m, cur, stack);
      m.StepUsesFuel(cur, stack);
      RunIsSound(m, g.cur, g.stack);
    } else {
      Stops(m, cur, stack);
      if g.result.Match? {
        ReportIsSound(m, cur, stack);
      }
    }
  }

  lemma {:induction false} RunIsComplete(m: Search, cur: Frame, stack: seq<Frame>)
    requires Sound(m, cur, stack) && Complete(m, cur, stack)
    requires Stripped(m.pattern) != [] && InteriorRuns(m.pattern) < MAX_CONTEXTS
    ensures match m.Run(cur, stack)
            case NoMatch => forall st: nat, e: nat :: !m.MatchAt(st, e)
            case Match(start, len) => FirstMatch(m, start, start + len)
    decreases m.Fuel(cur, stack)
  {
    hide Matches;
    hide Search.Step;
    hide Search.At;
    hide FirstMatch;
    var g := m.Step(cur, stack);
    if g.Go? {
      StepKeepsSound(m, cur, stack);
      StepKeepsComplete(m, cur, stack);
      m.StepUsesFuel(cur, stack);
      RunIsComplete(m, g.cur, g.stack);
    } else {
      Stops(m, cur, stack);
      if g.result.Match? {
        ReportIsFirst(m, cur, stack);
      } else {
        NothingStartsHere(m, cur);
      }
    }
  }

  /** The first wildcard has run off the end of the text. */
  lemma NothingStartsHere(m: Search, cur: Frame)
    requires Complete(m, cur, []) && cur.p < |m.pattern| && (forall e :: !m.Reach(cur, e))
    ensures forall st: nat, e: nat :: !m.MatchAt(st, e)
  {
    hide Matches;
    LeadIsSkipped(m, cur.p);
    forall st: nat, e: nat | m.MatchAt(st, e)
      ensures false
    {
      ReachStar(m, cur, e);
    }
  }

  /** The whole contract of a search, for every text and pattern. */
  lemma FindMeetsItsSpecification(m: Search)
    ensures Stripped(m.pattern) == [] ==> m.Find() == Match(0, 1)
    ensures Stripped(m.pattern) != [] && m.Find().Match? ==>
              m.MatchAt(m.Find().start, m.Find().start + m.Find().len)
    ensures Stripped(m.pattern) != [] && InteriorRuns(m.pattern) <= 15 ==>
              match m.Find()
              case NoMatch => forall st: nat, e: nat :: !m.MatchAt(st, e)
              case Match(start, len) => FirstMatch(m, start, start + len)
  {
    hide Matches;
    LeadIsSkippedAtStart(m);
    if Stripped(m.pattern) != [] {
      RunIsSound(m, m.Start(), []);
      if InteriorRuns(m.pattern) <= 15 {
        RunIsComplete(m, m.Start(), []);
      }
    }
  }

  lemma LeadIsSkippedAtStart(m: Search)
    ensures m.SkipStars(-1) == Lead(m.pattern) == |m.pattern| - |Stripped(m.pattern)|
  {
  }

  // ----- the loop itself -----

  /** Moves past the asterisk at `p` and any that follow it. */
  method SkipAsterisks(m: Search, p: int) returns (q: nat)
    requires -1 <= p < |m.pattern|
    ensures q == m.SkipStars(p)
  {
    q := p + 1;
    while q < |m.pattern| && m.pattern[q] == '*'
      invariant p < q <= m.SkipStars(p)
    {
      q := q + 1;
    }
  }

  /** Moves forward to a text character that the pattern character at `q` matches. */
  method ScanForward(m: Search, q: nat, s: nat) returns (k: nat)
    requires q < |m.pattern| && s <= |m.text|
    ensures k == m.Scan(q, s)
  {
    k := s;
    if m.pattern[q] != '#' {
      while k < |m.text| && !CharMatches(m.pattern[q], m.text[k], m.caseSens)
        invariant k <= m.Scan(q, s)
      {
        k := k + 1;
      }
    }
  }

  lemma StarStepIs(m: Search, cur: Frame, stack: seq<Frame>, q: nat, k: nat)
    requires m.Within(cur) && StarStep(m, cur, q, k)
    ensures m.Step(cur, stack) ==
            Go(Frame(if cur.first then k else cur.ss, k + 1, q + 1, false),
               if |stack| < MAX_CONTEXTS then stack + [Frame(cur.ss, k + 1, q - 1, cur.first)] else stack)
  {
  }

  /** The loop, at this point, is still heading for the result of the search. */
  ghost predicate OnTheWay(m: Search, cur: Frame, stack: seq<Frame>) {
    m.AllWithin(cur, stack) && m.Run(cur, stack) == m.Find()
  }

  lemma StaysOnTheWay(m: Search, cur: Frame, stack: seq<Frame>)
    requires OnTheWay(m, cur, stack)
    ensures match m.Step(cur, stack)
            case Stop(r) => r == m.Find()
            case Go(cur', stack') => OnTheWay(m, cur', stack') && m.Fuel(cur', stack') < m.Fuel(cur, stack)
  {
    if m.Step(cur, stack).Go? {
      m.StepUsesFuel(cur, stack);
    }
  }

  /**
   `content_textsearch_find_pattern`: positions `p`, `s`, `ss` move over the
   pattern and the text, and up to sixteen places to resume from are stacked.
   */
  method FindPattern(m: Search) returns (r: Match)
    ensures r == m.Find()
  {
    hide Search.Run;
    hide Search.Fuel;
    var context: seq<Frame> := [];
    var p: int, ss: nat, s: nat, first := -1, 0, 0, true;
    while p < |m.pattern|
      invariant OnTheWay(m, Frame(ss, s, p, first), context)
      decreases m.Fuel(Frame(ss, s, p, first), context)
    {
      ghost var cur, stack := Frame(ss, s, p, first), context;
      ghost var g := m.Step(cur, stack);
      StaysOnTheWay(m, cur, stack);
      var matches := false;
      if p < 0 || m.pattern[p] == '*' {
        p := SkipAsterisks(m, p);
        if p >= |m.pattern| {
          return Match(ss, if s > ss then s - ss else 1);
        }
        s := ScanForward(m, p, s);
        if s < |m.text| {
          StarStepIs(m, cur, stack, p, s);
          if |context| < MAX_CONTEXTS {
            context := context + [Frame(ss, s + 1, p - 1, first)];
          }
          if first {
            ss := s;
            first := false;
          }
          matches := true;
        }
      } else if s < |m.text| {
        matches := CharMatches(m.pattern[p], m.text[s], m.caseSens);
        if matches && first {
          ss := s;
          first := false;
        }
      }
      if matches {
        p, s := p + 1, s + 1;
        assert g == Go(Frame(ss, s, p, first), context);
      } else {
        assert g == m.Fail(stack);
        if context == [] {
          return NoMatch;
        }
        var resume := context[|context| - 1];
        context := context[..|context| - 1];
        ss, s, p, first := resume.ss, resume.s, resume.p, resume.first;
      }
    }
    StaysOnTheWay(m, Frame(ss, s, p, first), context);
    return Match(ss, if s > ss then s - ss else 1);
  }

  // ----- how many asterisks the matcher can be trusted with -----

  /** For every text, a pattern with at most `n` interior runs that matches somewhere is found. */
  ghost predicate Reliable(n: nat) {
    forall m: Search, st: nat, e: nat ::
      Stripped(m.pattern) != [] && InteriorRuns(m.pattern) <= n && m.MatchAt(st, e) ==> m.Find().Match?
  }

  /** "0*1*2* ... *>*?*ab": sixteen letters, then "ab", with asterisks between. */
  function SixteenRuns(): string {
    seq(32, i requires 0 <= i < 32 => if i % 2 == 0 then (48 + i / 2) as char else '*') + "ab"
  }

  /** The same letters without the asterisks, and a false "a" before the real "ab". */
  function DecoyText(): string {
    seq(16, i requires 0 <= i < 16 => (48 + i) as char) + "aXab"
  }

  /**
   Sixteen letters that occur once each, then "ab", with an asterisk between any
   two of these; in the text a false "a" comes before the real "ab".
   */
  ghost predicate IsDecoy(m: Search) {
    && |m.pattern| == 34 && |m.text| == 20 && m.caseSens
    && (forall i {:trigger m.text[i]} :: 0 <= i < 16 ==>
          m.pattern[2 * i] == m.text[i] && m.pattern[2 * i + 1] == '*' && m.text[i] != '*' && m.text[i] != '#')
    && (forall i, j :: 0 <= i < 16 && i < j < 20 ==> m.text[j] != m.text[i])
    && m.pattern[32] == m.text[16] == m.text[18] == 'a' && m.text[17] == 'X'
    && m.pattern[33] == m.text[19] == 'b'
  }

  lemma SixteenRunsIsDecoy()
    ensures IsDecoy(Search(DecoyText(), SixteenRuns(), true))
  {
    var m := Search(DecoyText(), SixteenRuns(), true);
    forall i {:trigger m.text[i]} | 0 <= i < 16
      ensures m.pattern[2 * i] == m.text[i] == (48 + i) as char && m.pattern[2 * i + 1] == '*'
    {
    }
  }

  /** The choices stacked once the first `i` letters have been matched. */
  ghost function Stacked(i: nat): seq<Frame> {
    seq(i, j requires 0 <= j => Frame(0, j + 1, 2 * j - 1, j == 0))
  }

  /** The wildcard before letter `i`, met at text position `s`. */
  lemma DecoyWildcard(m: Search, i: nat, s: nat, stack: seq<Frame>)
    requires IsDecoy(m) && i < 16 && i <= s <= i + 1
    ensures m.Step(Frame(0, s, 2 * i - 1, i == 0), stack) ==
            if s == i + 1 then m.Fail(stack)
            else Go(Frame(if i == 0 then i else 0, i + 1, 2 * i + 1, false),
                    if |stack| < 16 then stack + [Frame(0, i + 1, 2 * i - 1, i == 0)] else stack)
  {
    assert m.text[i] == m.pattern[2 * i];
    if i > 0 {
      assert m.text[i - 1] == m.pattern[2 * (i - 1)];
    }
    assert m.AtStar(2 * i - 1) && m.SkipStars(2 * i - 1) == 2 * i;
    assert m.Scan(2 * i, s) == if s == i then i else 20;
  }

  lemma {:induction false} DecoyRetriesFail(m: Search, i: nat)
    requires IsDecoy(m) && i < 16
    ensures m.Run(Frame(0, i + 1, 2 * i - 1, i == 0), Stacked(i)) == NoMatch
  {
    hide IsDecoy;
    hide Search.Step;
    DecoyWildcard(m, i, i + 1, Stacked(i));
    if i > 0 {
      assert Stacked(i)[..i - 1] == Stacked(i - 1);
      DecoyRetriesFail(m, i - 1);
    }
  }

  lemma DecoyFalseEnd(m: Search)
    requires IsDecoy(m)
    ensures m.Step(Frame(0, 16, 31, false), Stacked(16)) == Go(Frame(0, 17, 33, false), Stacked(16))
    ensures m.AllWithin(Frame(0, 17, 33, false), Stacked(16))
    ensures m.Step(Frame(0, 17, 33, false), Stacked(16)) == Go(Frame(0, 16, 29, false), Stacked(15))
  {
    assert m.text[15] == m.pattern[30];
    assert m.AtStar(31) && m.SkipStars(31) == 32 && m.Scan(32, 16) == 16;
    assert Stacked(16)[..15] == Stacked(15);
  }

  lemma {:induction false} DecoyForward(m: Search, i: nat)
    requires IsDecoy(m) && i <= 16
    ensures m.Run(Frame(0, i, 2 * i - 1, i == 0), Stacked(i)) == NoMatch
    decreases 16 - i
  {
    hide IsDecoy;
    hide Search.Step;
    if i < 16 {
      DecoyWildcard(m, i, i, Stacked(i));
      assert Stacked(i) + [Frame(0, i + 1, 2 * i - 1, i == 0)] == Stacked(i + 1);
      DecoyForward(m, i + 1);
    } else {
      DecoyFalseEnd(m);
      DecoyRetriesFail(m, 15);
      assert m.Run(Frame(0, 17, 33, false), Stacked(16)) == NoMatch;
    }
  }

  lemma {:induction false} DecoyMatches(m: Search, i: nat)
    requires IsDecoy(m) && i <= 16
    ensures i < 16 ==> m.At(2 * i, i, 20)
    ensures i > 0 ==> m.At(2 * i - 1, i, 20)
    decreases 16 - i
  {
    if i > 0 {
      assert m.text[i - 1] == m.pattern[2 * (i - 1)] && m.pattern[2 * (i - 1) + 1] == '*';
    }
    if i < 16 {
      hide Matches;
      DecoyMatches(m, i + 1);
      assert m.text[i] == m.pattern[2 * i];
      CharAt(m, 2 * i, i, 20);
      if i > 0 {
        OneStarAt(m, 2 * i - 1, i, 20);
      }
    } else {
      DecoyRealEnd(m);
      hide Matches;
      OneStarAt(m, 31, 16, 20);
    }
  }

  lemma DecoyRealEnd(m: Search)
    requires IsDecoy(m)
    ensures m.At(32, 18, 20)
  {
    assert m.pattern[34..] == [] && m.text[20..20] == [];
    assert m.At(34, 20, 20);
    hide Matches;
    CharAt(m, 33, 19, 20);
    CharAt(m, 32, 18, 20);
  }

  lemma {:induction false} DecoyRuns(m: Search, i: nat)
    requires IsDecoy(m) && i <= 16
    ensures RunsFrom(m.pattern, 2 * i) == 16 - i
    decreases 16 - i
  {
    if i < 16 {
      assert m.text[i] == m.pattern[2 * i];
      if i < 15 {
        assert m.text[i + 1] == m.pattern[2 * (i + 1)];
      }
      DecoyRuns(m, i + 1);
    } else {
      assert RunsFrom(m.pattern, 33) == 0;
    }
  }

  /** The seventeenth wildcard finds no free slot, so its first, wrong, choice is final. */
  lemma DecoyIsMissed(m: Search)
    requires IsDecoy(m)
    ensures m.Find() == NoMatch && m.MatchAt(0, 20)
    ensures InteriorRuns(m.pattern) == 16 && Stripped(m.pattern) != []
  {
    assert m.text[0] == m.pattern[0];
    assert m.pattern[0] != '*' && m.pattern != [];
    assert Lead(m.pattern) == 0;
    hide *;
    DecoyForward(m, 0);
    DecoyRuns(m, 0);
    DecoyMatches(m, 0);
  }

  /** The stack of sixteen is enough for fifteen interior runs and no more. */
  lemma ReliableExactlyUpToFifteen(n: nat)
    ensures Reliable(n) <==> n <= 15
  {
    if n <= 15 {
      forall m: Search, st: nat, e: nat |
        Stripped(m.pattern) != [] && InteriorRuns(m.pattern) <= n && m.MatchAt(st, e)
        ensures m.Find().Match?
      {
        FindMeetsItsSpecification(m);
      }
    } else {
      var m := Search(DecoyText(), SixteenRuns(), true);
      SixteenRunsIsDecoy();
      DecoyIsMissed(m);
      assert InteriorRuns(m.pattern) <= n && m.MatchAt(0, 20) && !m.Find().Match?;
    }
  }
}
