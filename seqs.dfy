/** Facts about slices, stated over any sequence so that the verifier does
    not unfold the literal constants they are used on. */
module Seqs {
  lemma PrefixGrows<T>(s: seq<T>, i: nat)
    requires i < |s|
    ensures s[..i + 1] == s[..i] + [s[i]]
  {
  }

  lemma SplitAt<T>(s: seq<T>, i: nat)
    requires i <= |s|
    ensures s == s[..i] + s[i..]
    ensures i < |s| ==> s[i..][0] == s[i]
  {
  }

  /** A prefix of the second part carries over to the concatenation. */
  lemma ConcatPrefix<T>(a: seq<T>, b: seq<T>, c: seq<T>)
    requires |c| <= |b| && b[..|c|] == c
    ensures |a + c| <= |a + b| && (a + b)[..|a + c|] == a + c
    ensures (a + b)[..|a|] == a
  {
    assert forall k | 0 <= k < |a + c| :: (a + b)[k] == (a + c)[k];
  }

  /** The second part of a concatenation is its suffix of that length. */
  lemma SuffixOfConcat<T>(a: seq<T>, b: seq<T>)
    ensures (a + b)[|a + b| - |b|..] == b
  {
  }
}
