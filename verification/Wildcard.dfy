/**
 The find-in-page matcher: one loop with an explicit stack of sixteen
 backtracking contexts, proved against a declarative matching relation.
 */
module Wildcard {
  import opened Common

  // In a pattern, '*' stands for any run of characters and '#' for any single
  // character; the pattern may match anywhere in the text, so it is searched for
  // as if it were preceded by another '*'.

  datatype Match = NoMatch | Match(start: nat, len: nat)

  /** The number of slots in the matcher's stack. */
  const MAX_CONTEXTS: nat := 16

  // ----- what a pattern means -----

  function Upper(c: char): char {
    if 'a' <= c <= 'z' then c - 'a' + 'A' else c
  }

  /** A pattern character other than '*' against a text character. */
  predicate CharMatches(p: char, c: char, caseSens: bool) {
    p == '#' || (if caseSens then c == p else Upper(c) == Upper(p))
  }

  /** '#' matches any character; another matches itself and, unless case matters, the same letter in the other case. */
  lemma CharMatchesExactly(p: char, c: char, caseSens: bool)
    ensures CharMatches(p, c, caseSens) <==> p == '#' || c == p || (!caseSens && SameLetter(p, c))
  {
    if !caseSens {
      assert Upper(c) == Upper(p) <==> SameLetter(p, c) by {
        if 'a' <= c <= 'z' && !('a' <= p <= 'z') {
          assert (c - 'a' + 'A') - 'A' == c - 'a';
        }
      }
    }
  }

  /** The whole of `text` is an instance of `pattern`. */
  ghost predicate Matches(pattern: string, text: string, caseSens: bool)
    decreases |pattern|
  {
    if pattern == [] then text == []
    else if pattern[0] == '*' then exists k :: 0 <= k <= |text| && Matches(pattern[1..], text[k..], caseSens)
    else text != [] && CharMatches(pattern[0], text[0], caseSens) && Matches(pattern[1..], text[1..], caseSens)
  }

  /** The number of leading asterisks, which the search ignores. */
  function Lead(pattern: string): (n: nat)
    ensures n <= |pattern|
    ensures forall i :: 0 <= i < n ==> pattern[i] == '*'
    ensures n < |pattern| ==> pattern[n] != '*'
  {
    if pattern == [] || pattern[0] != '*' then 0 else 1 + Lead(pattern[1..])
  }

  /** The pattern the search is really for. */
  function Stripped(pattern: string): string {
    pattern[Lead(pattern)..]
  }

  /** Runs of asterisks with something other than '*' on both sides. */
  function InteriorRuns(pattern: string): nat {
    RunsFrom(pattern, Lead(pattern))
  }

  /** Runs of asterisks that end at or after `i` and before the last character. */
  function RunsFrom(pattern: string, i: nat): nat
    decreases |pattern| - i
  {
    if i + 1 >= |pattern| then 0
    else (if pattern[i] == '*' && pattern[i + 1] != '*' then 1 else 0) + RunsFrom(pattern, i + 1)
  }

  // ----- the machine -----

  /** A place to resume from: text position, pattern position, start of the match so far. */
  datatype Frame = Frame(ss: nat, s: nat, p: int, first: bool)

  /** The text, the pattern and the way characters are compared. */
  datatype Search = Search(text: string, pattern: string, caseSens: bool) {

    ghost predicate Within(f: Frame) {
      f.s <= |text| && f.ss <= |text| && -1 <= f.p <= |pattern|
    }

    predicate AtStar(p: int)
      requires -1 <= p < |pattern|
    {
      p < 0 || pattern[p] == '*'
    }

    /** First position after `p` that does not hold an asterisk. */
    function SkipStars(p: int): (q: nat)
      requires -1 <= p < |pattern|
      ensures p < q <= |pattern|
      ensures q < |pattern| ==> pattern[q] != '*'
      ensures forall i :: p < i < q ==> pattern[i] == '*'
      decreases |pattern| - p
    {
      if p + 1 < |pattern| && pattern[p + 1] == '*' then SkipStars(p + 1) else p + 1
    }

    /** First text position at or after `s` where the character at `q` can match; else the end. */
    function Scan(q: nat, s: nat): (k: nat)
      requires q < |pattern| && s <= |text|
      ensures s <= k <= |text|
      ensures k < |text| ==> CharMatches(pattern[q], text[k], caseSens)
      ensures forall i :: s <= i < k ==> !CharMatches(pattern[q], text[i], caseSens)
      decreases |text| - s
    {
      if s == |text| || CharMatches(pattern[q], text[s], caseSens) then s else Scan(q, s + 1)
    }

    /** The pattern from position `q` on matches exactly `text[j..e]`. */
    ghost predicate At(q: nat, j: nat, e: nat)
      requires q <= |pattern|
    {
      j <= e <= |text| && Matches(pattern[q..], text[j..e], caseSens)
    }

    /** The pattern, less its leading asterisks, matches exactly `text[start..e]`. */
    ghost predicate MatchAt(start: nat, e: nat) {
      At(Lead(pattern), start, e)
    }

    /** The same, starting anywhere from `s` on. */
    ghost predicate Ahead(q: nat, s: nat, e: nat)
      requires q <= |pattern|
    {
      exists j :: s <= j && At(q, j, e)
    }

    /** Resuming from `f`, the rest of the pattern can match up to `e`. */
    ghost predicate Reach(f: Frame, e: nat)
      requires Within(f)
    {
      if f.p < 0 then Ahead(0, f.s, e) else At(f.p, f.s, e)
    }

    // ----- the loop body, as a transition -----

    function Result(f: Frame): Match {
      Match(f.ss, if f.s > f.ss then f.s - f.ss else 1)
    }

    function Fail(stack: seq<Frame>): Outcome {
      if stack == [] then Stop(NoMatch) else Go(stack[|stack| - 1], stack[..|stack| - 1])
    }

    function Step(cur: Frame, stack: seq<Frame>): Outcome
      requires Within(cur)
    {
      if cur.p == |pattern| then Stop(Result(cur))
      else if AtStar(cur.p) then
        var q := SkipStars(cur.p);
        if q == |pattern| then Stop(Result(cur)) else
        var k := Scan(q, cur.s);
        if k == |text| then Fail(stack) else
        Go(Frame(if cur.first then k else cur.ss, k + 1, q + 1, false),
           if |stack| < MAX_CONTEXTS then stack + [Frame(cur.ss, k + 1, q - 1, cur.first)] else stack)
      else if cur.s < |text| && CharMatches(pattern[cur.p], text[cur.s], caseSens) then
        Go(Frame(if cur.first then cur.s else cur.ss, cur.s + 1, cur.p + 1, false), stack)
      else Fail(stack)
    }

    ghost predicate AllWithin(cur: Frame, stack: seq<Frame>) {
      Within(cur) && forall i :: 0 <= i < |stack| ==> Within(stack[i])
    }

    // ----- termination: what is left to try, counted as leaves of a binary tree -----

    ghost function Size(f: Frame): nat
      requires Within(f)
    {
      |pattern| - f.p + |text| - f.s
    }

    ghost function Fuel(cur: Frame, stack: seq<Frame>): nat
      requires AllWithin(cur, stack)
      decreases |stack|
    {
      Pow2(Size(cur)) +
      if stack == [] then 0 else Fuel(stack[|stack| - 1], stack[..|stack| - 1])
    }

    /** Every iteration leaves strictly less to try. */
    lemma StepUsesFuel(cur: Frame, stack: seq<Frame>)
      requires AllWithin(cur, stack) && Step(cur, stack).Go?
      ensures var g := Step(cur, stack); AllWithin(g.cur, g.stack) && Fuel(g.cur, g.stack) < Fuel(cur, stack)
    {
      hide CharMatches;
      var g := Step(cur, stack);
      if g.cur.s > cur.s && |g.stack| == |stack| + 1 && Size(g.cur) <= Size(cur) - 2 {
        ForkUsesFuel(cur, g.cur, g.stack[|stack|], stack);
      } else if g.stack == stack && Size(g.cur) <= Size(cur) - 2 {
        Pow2Grows(Size(g.cur), Size(cur) - 2);
        assert Pow2(Size(cur)) == 4 * Pow2(Size(cur) - 2);
      }
    }

    lemma ForkUsesFuel(cur: Frame, next: Frame, later: Frame, stack: seq<Frame>)
      requires AllWithin(cur, stack) && Within(next) && Within(later)
      requires Size(next) <= Size(cur) - 2 && Size(later) <= Size(cur) - 1
      ensures Fuel(next, stack + [later]) < Fuel(cur, stack)
    {
      Pow2Grows(Size(next), Size(cur) - 2);
      Pow2Grows(Size(later), Size(cur) - 1);
      assert Pow2(Size(cur)) == 2 * Pow2(Size(cur) - 1) == 4 * Pow2(Size(cur) - 2);
      assert (stack + [later])[..|stack|] == stack;
    }

    /** The loop run to its end. */
    function Run(cur: Frame, stack: seq<Frame>): Match
      requires AllWithin(cur, stack)
      decreases Fuel(cur, stack)
    {
      var g := Step(cur, stack);
      if g.Stop? then g.result
      else
        StepUsesFuel(cur, stack);
        Run(g.cur, g.stack)
    }

    function Start(): Frame {
      Frame(0, 0, -1, true)
    }

    function Find(): Match {
      Run(Start(), [])
    }
  }

  datatype Outcome = Stop(result: Match) | Go(cur: Frame, stack: seq<Frame>)

  lemma {:induction false} Pow2Grows(m: nat, n: nat)
    requires m <= n
    ensures Pow2(m) <= Pow2(n)
  {
    if m < n {
      Pow2Grows(m, n - 1);
    }
  }
}
