/** Facts about Dafny's own sequences, sets and maps, used by the tables' counting lemmas and the text checks. */
module Collections {
  /** Adding an element that is not yet there grows a set by one. */
  lemma CardAddFresh<T>(s: set<T>, x: T)
    requires x !in s
    ensures |s + {x}| == |s| + 1
  {
  }

  /** Removing a present key shrinks a map by one. */
  lemma CardRemoveKey<K, V>(m: map<K, V>, k: K)
    requires k in m
    ensures |m - {k}| == |m| - 1
  {
    assert m.Keys == (m - {k}).Keys + {k};
  }

  /** A prefix of a suffix is a slice. */
  lemma PrefixOfSuffix<T>(s: seq<T>, a: nat, n: nat)
    requires a + n <= |s|
    ensures s[a..][..n] == s[a..a + n]
  {
  }
}
