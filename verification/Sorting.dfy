/** Python's stable sort, `sorted(xs, key=key, reverse=True)`, and the slice `xs[:k]`. */
module Sorting {
  function Insert<T>(x: T, ys: seq<T>, key: T -> real): (r: seq<T>)
    ensures |r| == |ys| + 1
  {
    if ys == [] || key(x) >= key(ys[0]) then [x] + ys else [ys[0]] + Insert(x, ys[1..], key)
  }

  /** Descending; equal keys keep their order. */
  function SortDescending<T>(xs: seq<T>, key: T -> real): (r: seq<T>)
    ensures |r| == |xs|
  {
    if xs == [] then [] else Insert(xs[0], SortDescending(xs[1..], key), key)
  }

  predicate Descending<T>(xs: seq<T>, key: T -> real) {
    forall i, j :: 0 <= i < j < |xs| ==> key(xs[i]) >= key(xs[j])
  }

  /** The elements whose key is `v`, in order. */
  function WithKey<T>(xs: seq<T>, key: T -> real, v: real): seq<T> {
    if xs == [] then []
    else (if key(xs[0]) == v then [xs[0]] else []) + WithKey(xs[1..], key, v)
  }

  /** `ys` is the stable descending sort of `xs`: ordered, and the same sequence key by key. */
  ghost predicate IsStableSort<T>(xs: seq<T>, ys: seq<T>, key: T -> real) {
    Descending(ys, key) && forall v :: WithKey(ys, key, v) == WithKey(xs, key, v)
  }

  /** Python's `xs[:k]`, negative `k` included. */
  function Take<T>(xs: seq<T>, k: int): seq<T> {
    if k >= |xs| then xs
    else if k >= 0 then xs[..k]
    else if |xs| + k >= 0 then xs[..|xs| + k]
    else []
  }

  /** The front of the list, of at most `k` elements; a negative `k` counts from the end. */
  lemma TakeIsTheFront<T>(xs: seq<T>, k: int)
    ensures Take(xs, k) <= xs
    ensures 0 <= k ==> |Take(xs, k)| == if k <= |xs| then k else |xs|
    ensures k < 0 ==> |Take(xs, k)| == if -k <= |xs| then |xs| + k else 0
  {
  }

  lemma {:induction false} InsertKeepsOrder<T>(x: T, ys: seq<T>, key: T -> real)
    requires Descending(ys, key)
    ensures Descending(Insert(x, ys, key), key)
    ensures Insert(x, ys, key)[0] == x || (ys != [] && Insert(x, ys, key)[0] == ys[0])
  {
    if !(ys == [] || key(x) >= key(ys[0])) {
      InsertKeepsOrder(x, ys[1..], key);
      var r := Insert(x, ys[1..], key);
      assert forall j :: 0 <= j < |r| ==> key(ys[0]) >= key(r[0]) >= key(r[j]);
    }
  }

  lemma {:induction false} InsertByKey<T>(x: T, ys: seq<T>, key: T -> real, v: real)
    ensures WithKey(Insert(x, ys, key), key, v)
            == (if key(x) == v then [x] else []) + WithKey(ys, key, v)
  {
    if ys == [] || key(x) >= key(ys[0]) {
      assert ([x] + ys)[1..] == ys;
    } else {
      InsertByKey(x, ys[1..], key, v);
      assert Insert(x, ys, key)[1..] == Insert(x, ys[1..], key);
      if key(x) == v {
        NoneAboveHead(ys, key, v);
      }
    }
  }

  /** Passing an element by is harmless: it can only be of another class. */
  lemma NoneAboveHead<T>(ys: seq<T>, key: T -> real, v: real)
    requires ys != [] && v < key(ys[0])
    ensures WithKey(ys, key, v) == WithKey(ys[1..], key, v)
  {
  }

  lemma {:induction false} SortIsStable<T>(xs: seq<T>, key: T -> real)
    ensures IsStableSort(xs, SortDescending(xs, key), key)
  {
    if xs != [] {
      SortIsStable(xs[1..], key);
      var ys := SortDescending(xs[1..], key);
      InsertKeepsOrder(xs[0], ys, key);
      forall v
        ensures WithKey(SortDescending(xs, key), key, v) == WithKey(xs, key, v)
      {
        InsertByKey(xs[0], ys, key, v);
      }
    }
  }

  lemma {:induction false} WithKeyMembers<T>(xs: seq<T>, key: T -> real, v: real)
    ensures forall x :: x in WithKey(xs, key, v) <==> x in xs && key(x) == v
  {
    if xs != [] {
      WithKeyMembers(xs[1..], key, v);
      assert xs == [xs[0]] + xs[1..];
    }
  }

  lemma WithKeyTail<T>(xs: seq<T>, key: T -> real, v: real)
    requires xs != []
    ensures WithKey(xs[1..], key, v) == if key(xs[0]) == v then WithKey(xs, key, v)[1..] else WithKey(xs, key, v)
    ensures key(xs[0]) == v ==> WithKey(xs, key, v)[0] == xs[0]
  {
  }

  /** Two stable sorts of the same sequence. */
  ghost predicate Agree<T>(a: seq<T>, b: seq<T>, key: T -> real) {
    && Descending(a, key) && Descending(b, key)
    && forall v :: WithKey(a, key, v) == WithKey(b, key, v)
  }

  lemma {:induction false} AgreeingAreEqual<T>(a: seq<T>, b: seq<T>, key: T -> real)
    requires Agree(a, b, key)
    ensures a == b
    decreases |a|
  {
    hide Agree;
    if a == [] {
      if b != [] {
        AgreeingHeads(b, a, key);
      }
    } else {
      AgreeingHeads(a, b, key);
      AgreeingTails(a, b, key);
      AgreeingAreEqual(a[1..], b[1..], key);
      assert a == [a[0]] + a[1..] && b == [b[0]] + b[1..];
    }
  }

  lemma AgreeingHeads<T>(a: seq<T>, b: seq<T>, key: T -> real)
    requires (Agree(a, b, key) || Agree(b, a, key)) && a != []
    ensures b != [] && a[0] == b[0]
  {
    hide WithKey;
    WithKeyMembers(a, key, key(a[0]));
    WithKeyMembers(b, key, key(a[0]));
    assert a[0] in WithKey(b, key, key(a[0]));
    WithKeyMembers(a, key, key(b[0]));
    WithKeyMembers(b, key, key(b[0]));
    assert b[0] in WithKey(a, key, key(b[0]));
    WithKeyTail(a, key, key(a[0]));
    WithKeyTail(b, key, key(a[0]));
  }

  lemma AgreeingTails<T>(a: seq<T>, b: seq<T>, key: T -> real)
    requires Agree(a, b, key) && a != [] && b != [] && a[0] == b[0]
    ensures Agree(a[1..], b[1..], key)
  {
    hide WithKey;
    forall v
      ensures WithKey(a[1..], key, v) == WithKey(b[1..], key, v)
    {
      WithKeyTail(a, key, v);
      WithKeyTail(b, key, v);
    }
  }

  /** There is only one stable descending sort. */
  lemma StableSortIsUnique<T>(xs: seq<T>, a: seq<T>, b: seq<T>, key: T -> real)
    requires IsStableSort(xs, a, key) && IsStableSort(xs, b, key)
    ensures a == b
  {
    hide WithKey;
    AgreeingAreEqual(a, b, key);
  }

  // ---------- where the elements of a sorted list come from ----------

  lemma {:induction false} InsertAt<T>(x: T, ys: seq<T>, key: T -> real) returns (p: nat)
    ensures p <= |ys| && Insert(x, ys, key) == ys[..p] + [x] + ys[p..]
    ensures forall i :: 0 <= i < p ==> key(ys[i]) > key(x)
    ensures p < |ys| ==> key(x) >= key(ys[p])
  {
    p := 0;
    if !(ys == [] || key(x) >= key(ys[0])) {
      var q := InsertAt(x, ys[1..], key);
      p := q + 1;
      assert forall i :: 0 < i < p ==> ys[i] == ys[1..][i - 1];
      assert ys[..p] == [ys[0]] + ys[1..][..q] && ys[p..] == ys[1..][q..];
    }
  }

  /** The earlier of two places in a stable descending sort. */
  predicate Precedes<T>(xs: seq<T>, key: T -> real, i: nat, j: nat) {
    && i < |xs| && j < |xs|
    && (key(xs[i]) > key(xs[j]) || (key(xs[i]) == key(xs[j]) && i < j))
  }

  predicate InRange(at: seq<nat>, n: nat) {
    forall i :: 0 <= i < |at| ==> at[i] < n
  }

  predicate Everywhere(at: seq<nat>, n: nat) {
    forall p :: 0 <= p < n ==> p in at
  }

  /** Higher keys first, and equal keys as they stood. */
  predicate ByRank<T>(xs: seq<T>, key: T -> real, at: seq<nat>) {
    forall i, j :: 0 <= i < j < |at| ==> Precedes(xs, key, at[i], at[j])
  }

  /** `ys` are the elements at these positions. */
  predicate Picks<T(==)>(xs: seq<T>, at: seq<nat>, ys: seq<T>)
    requires InRange(at, |xs|)
  {
    |ys| == |at| && forall i :: 0 <= i < |at| ==> ys[i] == xs[at[i]]
  }

  /** Positions of the tail as positions of the list, with its head put in at `p`. */
  function WithHeadAt(at: seq<nat>, p: nat): (more: seq<nat>)
    requires p <= |at|
    ensures |more| == |at| + 1 && more[p] == 0
    ensures forall i :: 0 <= i < p ==> more[i] == at[i] + 1
    ensures forall i :: p < i < |more| ==> more[i] == at[i - 1] + 1
  {
    seq(|at| + 1, i requires 0 <= i < |at| + 1 => if i < p then at[i] + 1 else if i == p then 0 else at[i - 1] + 1)
  }

  lemma HeadEverywhere(at: seq<nat>, p: nat, n: nat)
    requires p <= |at| && Everywhere(at, n)
    ensures Everywhere(WithHeadAt(at, p), n + 1)
  {
    hide WithHeadAt;
    var more := WithHeadAt(at, p);
    forall q | 0 <= q < n + 1
      ensures q in more
    {
      if q == 0 {
        assert more[p] == 0;
      } else {
        assert q - 1 in at;
        var i :| 0 <= i < |at| && at[i] == q - 1;
        assert more[if i < p then i else i + 1] == q;
      }
    }
  }

  lemma HeadRanked<T>(xs: seq<T>, key: T -> real, at: seq<nat>, p: nat)
    requires xs != [] && InRange(at, |xs| - 1) && ByRank(xs[1..], key, at) && p <= |at|
    requires forall i :: 0 <= i < p ==> key(xs[at[i] + 1]) > key(xs[0])
    requires forall i :: p <= i < |at| ==> key(xs[0]) >= key(xs[at[i] + 1])
    ensures InRange(WithHeadAt(at, p), |xs|) && ByRank(xs, key, WithHeadAt(at, p))
  {
    hide WithHeadAt;
    var more := WithHeadAt(at, p);
    forall i, j | 0 <= i < j < |more|
      ensures Precedes(xs, key, more[i], more[j])
    {
      if i != p && j != p {
        var a, b := if i < p then i else i - 1, if j < p then j else j - 1;
        assert Precedes(xs[1..], key, at[a], at[b]);
      }
    }
  }

  lemma HeadPicked<T>(xs: seq<T>, at: seq<nat>, ys: seq<T>, p: nat)
    requires xs != [] && InRange(at, |xs| - 1) && Picks(xs[1..], at, ys) && p <= |at|
    ensures InRange(WithHeadAt(at, p), |xs|) && Picks(xs, WithHeadAt(at, p), ys[..p] + [xs[0]] + ys[p..])
  {
    hide WithHeadAt;
  }

  /** The sorted list holds the elements by rank. */
  lemma {:induction false} SortIsRanked<T>(xs: seq<T>, key: T -> real) returns (at: seq<nat>)
    ensures InRange(at, |xs|) && Everywhere(at, |xs|) && ByRank(xs, key, at)
    ensures Picks(xs, at, SortDescending(xs, key))
  {
    at := [];
    if xs != [] {
      hide Insert, Everywhere, ByRank;
      var ys := SortDescending(xs[1..], key);
      SortIsStable(xs[1..], key);
      var before := SortIsRanked(xs[1..], key);
      var p := InsertAt(xs[0], ys, key);
      assert forall i :: 0 <= i < |before| ==> ys[i] == xs[before[i] + 1];
      assert forall i :: p <= i < |ys| ==> key(ys[p]) >= key(ys[i]);
      HeadEverywhere(before, p, |xs| - 1);
      HeadRanked(xs, key, before, p);
      HeadPicked(xs, before, ys, p);
      at := WithHeadAt(before, p);
    }
  }

  lemma SortMembers<T>(xs: seq<T>, key: T -> real)
    ensures forall x :: x in SortDescending(xs, key) <==> x in xs
  {
    SortIsStable(xs, key);
    forall x
      ensures x in SortDescending(xs, key) <==> x in xs
    {
      WithKeyMembers(xs, key, key(x));
      WithKeyMembers(SortDescending(xs, key), key, key(x));
    }
  }

  /** Sorting what is sorted changes nothing. */
  lemma SortedIsFixed<T>(xs: seq<T>, key: T -> real)
    requires Descending(xs, key)
    ensures SortDescending(xs, key) == xs
  {
    SortIsStable(xs, key);
    StableSortIsUnique(xs, SortDescending(xs, key), xs, key);
  }
}
