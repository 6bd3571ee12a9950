/** Python's `sorted` on a set of integer keys. */
module SortedKeys {
  predicate Least(s: set<int>, m: int) {
    m in s && forall x :: x in s ==> m <= x
  }

  lemma Pick<T>(s: set<T>) returns (x: T)
    requires s != {}
    ensures x in s
  {
    x :| x in s;
  }

  lemma {:induction false} LeastExists(s: set<int>) returns (m: int)
    requires s != {}
    ensures Least(s, m)
    decreases |s|
  {
    var x := Pick(s);
    m := x;
    assert forall y :: y in s ==> y == x || y in s - {x};
    if s - {x} != {} {
      var n := LeastExists(s - {x});
      m := if n < x then n else x;
    }
  }

  lemma HasLeast(s: set<int>)
    requires s != {}
    ensures exists m :: Least(s, m)
  {
    var m := LeastExists(s);
  }

  ghost function Ascending(s: set<int>): seq<int> {
    if s == {} then []
    else
      HasLeast(s);
      var m :| Least(s, m);
      [m] + Ascending(s - {m})
  }

  lemma {:induction false} AscendingIsSorted(s: set<int>)
    ensures forall i, j :: 0 <= i < j < |Ascending(s)| ==> Ascending(s)[i] < Ascending(s)[j]
    ensures forall x :: x in Ascending(s) <==> x in s
  {
    if s != {} {
      HasLeast(s);
      var m :| m == Ascending(s)[0] && Least(s, m);
      var rest := s - {m};
      AscendingIsSorted(rest);
      assert Ascending(s) == [m] + Ascending(rest);
      forall j | 0 <= j < |Ascending(rest)|
        ensures m < Ascending(rest)[j]
      {
        assert Ascending(rest)[j] in rest;
      }
      forall x
        ensures x in Ascending(s) <==> x in s
      {
      }
    }
  }

  /** A set has one ascending listing. */
  lemma {:induction false} SortedOnce(a: seq<int>, b: seq<int>)
    requires forall i, j :: 0 <= i < j < |a| ==> a[i] < a[j]
    requires forall i, j :: 0 <= i < j < |b| ==> b[i] < b[j]
    requires forall x :: x in a <==> x in b
    ensures a == b
  {
    assert a != [] ==> a[0] in a;
    assert b != [] ==> b[0] in b;
    if a != [] {
      var i :| 0 <= i < |a| && a[i] == b[0];
      var j :| 0 <= j < |b| && b[j] == a[0];
      assert a[0] == b[0];
      TailMembers(a);
      TailMembers(b);
      SortedOnce(a[1..], b[1..]);
      assert a == [a[0]] + a[1..] && b == [b[0]] + b[1..];
    }
  }

  lemma TailMembers(a: seq<int>)
    requires a != [] && forall i, j :: 0 <= i < j < |a| ==> a[i] < a[j]
    ensures forall x :: x in a[1..] <==> x in a && x != a[0]
  {
    assert a == [a[0]] + a[1..];
  }
}
