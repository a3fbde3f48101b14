/** Cancellation laws of string concatenation used by the key and file-name proofs. */
module Texts {

  /** Appending the same suffix to two different strings gives two different strings. */
  lemma SuffixCancels(a: string, b: string, suffix: string)
    ensures a + suffix == b + suffix ==> a == b
  {
    if a + suffix == b + suffix {
      assert |a| == |b|;
      forall i | 0 <= i < |a|
        ensures a[i] == b[i]
      {
        assert a[i] == (a + suffix)[i] && b[i] == (b + suffix)[i];
      }
    }
  }

  /** Prepending the same prefix to two different strings gives two different strings. */
  lemma PrefixCancels(prefix: string, a: string, b: string)
    ensures prefix + a == prefix + b ==> a == b
  {
    if prefix + a == prefix + b {
      assert |a| == |b|;
      forall i | 0 <= i < |a|
        ensures a[i] == b[i]
      {
        assert a[i] == (prefix + a)[|prefix| + i] && b[i] == (prefix + b)[|prefix| + i];
      }
    }
  }
}
