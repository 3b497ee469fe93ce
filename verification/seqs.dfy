/** Facts about sequence concatenation that the solver does not find unaided. */
module Seqs {
  lemma AppendAssociates<T>(a: seq<T>, b: seq<T>, c: seq<T>)
    ensures a + (b + c) == (a + b) + c
  {
  }

  lemma TakeAll<T>(s: seq<T>)
    ensures s[..|s|] == s
  {
  }

  lemma SliceOfSuffix<T>(s: seq<T>, i: int, n: int)
    requires 0 <= i <= |s| && 0 <= n <= |s| - i
    ensures s[i..][..n] == s[i..i + n]
  {
  }

  lemma SplitLast<T>(s: seq<T>)
    requires s != []
    ensures s == s[..|s| - 1] + [s[|s| - 1]]
  {
  }
}
