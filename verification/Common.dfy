/**
 What more than one part of the model needs.
 */
module Common {

  datatype Option<+T> = None | Some(value: T)

  ghost function Pow2(n: nat): (r: nat)
    ensures r > 0
  {
    if n == 0 then 1 else 2 * Pow2(n - 1)
  }

  predicate NoDup<T(==)>(s: seq<T>) {
    s == [] || (s[0] !in s[1..] && NoDup(s[1..]))
  }

  function Max(a: int, b: int): int {
    if a < b then b else a
  }

  function FirstSlash(s: string): (n: nat)
    ensures n <= |s|
    ensures n < |s| ==> s[n] == '/'
    ensures forall i :: 0 <= i < n ==> s[i] != '/'
  {
    if s == [] || s[0] == '/' then 0 else 1 + FirstSlash(s[1..])
  }

  /** The same character, or an upper and a lower case letter as far from 'A' as from 'a'. */
  predicate SameLetter(c: char, d: char) {
    c == d || ('A' <= c <= 'Z' && 'a' <= d <= 'z' && d - 'a' == c - 'A') || ('A' <= d <= 'Z' && 'a' <= c <= 'z' && c - 'a' == d - 'A')
  }
}
