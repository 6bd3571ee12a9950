/** What several modules say about sequences and sets. */
module Collections {
  predicate Distinct<T(==)>(s: seq<T>) {
    forall i, j :: 0 <= i < j < |s| ==> s[i] != s[j]
  }

  predicate StartsWith(s: string, p: string) {
    |p| <= |s| && s[..|p|] == p
  }

  lemma Associate<T>(a: seq<T>, b: seq<T>, c: seq<T>)
    ensures (a + b) + c == a + (b + c)
  {
  }

  /** Slices of a prefix and of a suffix are slices of the whole. */
  lemma PrefixSlice<T>(s: seq<T>, to: nat, lo: nat, hi: nat)
    requires lo <= hi <= to <= |s|
    ensures s[..to][lo..hi] == s[lo..hi]
  {
    var part, whole := s[..to][lo..hi], s[lo..hi];
    assert forall i :: 0 <= i < hi - lo ==> part[i] == s[lo + i] && whole[i] == s[lo + i];
  }

  lemma SuffixSlice<T>(s: seq<T>, from: nat, lo: nat, hi: nat)
    requires from <= |s| && lo <= hi <= |s| - from
    ensures s[from..][lo..hi] == s[from + lo..from + hi]
  {
    var part, whole := s[from..][lo..hi], s[from + lo..from + hi];
    assert forall i :: 0 <= i < hi - lo ==> part[i] == s[from + lo + i] && whole[i] == s[from + lo + i];
  }

  lemma SubsetIsSmaller<T>(a: set<T>, b: set<T>)
    requires a <= b
    ensures |a| <= |b|
  {
    assert b == a + (b - a);
  }
}
