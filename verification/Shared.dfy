/** What several models need to say about C strings and sequences. */
module Shared {
  const NUL: char := '\0'

  /** The first place from i on that is not white space. */
  function SkipSpaces(isSpace: char -> bool, s: seq<char>, i: nat): (k: nat)
    requires i <= |s|
    ensures i <= k <= |s|
    decreases |s| - i
  {
    if i < |s| && isSpace(s[i]) then SkipSpaces(isSpace, s, i + 1) else i
  }

  lemma Associate<T>(a: seq<T>, b: seq<T>, c: seq<T>)
    ensures (a + b) + c == a + (b + c)
  {
  }

  lemma Regroup<T>(a: seq<T>, b: seq<T>, c: seq<T>, d: seq<T>)
    ensures (a + (b + c)) + d == a + (b + (c + d))
  {
  }
}
