/** The table of parent links of backend/open_webui/models/folders.py as a forest. */
module FolderForest {
  import opened Wrappers

  datatype Folder = Folder(id: string, userId: string, parent: Option<string>, name: string)

  predicate DistinctIds(fs: seq<Folder>) {
    forall i, j :: 0 <= i < j < |fs| ==> fs[i].id != fs[j].id
  }

  /** A row of this user files `x` directly in `p`. */
  predicate Edge(fs: seq<Folder>, user: string, x: string, p: string) {
    exists f :: f in fs && f.id == x && f.userId == user && f.parent == Some(p)
  }

  /** A walk up the parent links, at least one step long. */
  predicate Chain(fs: seq<Folder>, user: string, path: seq<string>) {
    |path| >= 2 && forall i :: 0 <= i < |path| - 1 ==> Edge(fs, user, path[i], path[i + 1])
  }

  /** `path` walks from `x` up to `a`. */
  predicate Walk(fs: seq<Folder>, user: string, path: seq<string>, x: string, a: string) {
    Chain(fs, user, path) && path[0] == x && path[|path| - 1] == a
  }

  /** `x` is filed in `a`, at whatever depth. */
  ghost predicate Under(fs: seq<Folder>, user: string, x: string, a: string) {
    exists path :: Walk(fs, user, path, x, a)
  }

  /** No folder is filed, at any depth, in itself. */
  ghost predicate Acyclic(fs: seq<Folder>, user: string) {
    forall x :: !Under(fs, user, x, x)
  }

  ghost predicate Forest(fs: seq<Folder>, user: string) {
    DistinctIds(fs) && Acyclic(fs, user)
  }

  /** The ids filed in `a`, at whatever depth. */
  ghost function Below(fs: seq<Folder>, user: string, a: string): set<string> {
    set f | f in fs && Under(fs, user, f.id, a) :: f.id
  }

  ghost function AtOrBelow(fs: seq<Folder>, user: string, a: string): set<string> {
    Below(fs, user, a) + {a}
  }

  lemma WalkIsUnder(fs: seq<Folder>, user: string, path: seq<string>, x: string, a: string)
    requires Walk(fs, user, path, x, a)
    ensures Under(fs, user, x, a)
  {
  }

  lemma EdgeIsUnder(fs: seq<Folder>, user: string, x: string, p: string)
    requires Edge(fs, user, x, p)
    ensures Under(fs, user, x, p)
  {
    assert Walk(fs, user, [x, p], x, p);
  }

  lemma UnderIsTransitive(fs: seq<Folder>, user: string, x: string, y: string, z: string)
    requires Under(fs, user, x, y) && Under(fs, user, y, z)
    ensures Under(fs, user, x, z)
  {
    var p :| Walk(fs, user, p, x, y);
    var q :| Walk(fs, user, q, y, z);
    var r := p + q[1..];
    forall i | 0 <= i < |r| - 1
      ensures Edge(fs, user, r[i], r[i + 1])
    {
      if i < |p| - 1 {
        assert Edge(fs, user, p[i], p[i + 1]);
      } else {
        assert r[i] == q[i + 1 - |p|] && r[i + 1] == q[i + 2 - |p|];
      }
    }
    assert Walk(fs, user, r, x, z);
  }

  /** The first step of a walk. */
  lemma FirstStep(fs: seq<Folder>, user: string, x: string, a: string) returns (p: string)
    requires Under(fs, user, x, a)
    ensures Edge(fs, user, x, p) && (p == a || Under(fs, user, p, a))
  {
    var path :| Walk(fs, user, path, x, a);
    p := path[1];
    assert Edge(fs, user, path[0], path[1]);
    if |path| > 2 {
      var rest := path[1..];
      forall i | 0 <= i < |rest| - 1
        ensures Edge(fs, user, rest[i], rest[i + 1])
      {
        assert Edge(fs, user, path[i + 1], path[i + 2]);
      }
      assert Walk(fs, user, rest, p, a);
    }
  }

  /** The last step of a walk. */
  lemma LastStep(fs: seq<Folder>, user: string, x: string, a: string) returns (c: string)
    requires Under(fs, user, x, a)
    ensures Edge(fs, user, c, a) && (x == c || Under(fs, user, x, c))
  {
    var path :| Walk(fs, user, path, x, a);
    var n := |path| - 1;
    c := path[n - 1];
    assert Edge(fs, user, path[n - 1], path[n]);
    if n > 1 {
      var init := path[..n];
      forall i | 0 <= i < |init| - 1
        ensures Edge(fs, user, init[i], init[i + 1])
      {
        assert Edge(fs, user, path[i], path[i + 1]);
      }
      assert Walk(fs, user, init, x, c);
    }
  }

  lemma BelowMember(fs: seq<Folder>, user: string, x: string, a: string)
    ensures x in Below(fs, user, a) <==> Under(fs, user, x, a)
  {
    if Under(fs, user, x, a) {
      var p := FirstStep(fs, user, x, a);
    }
  }

  lemma SameRow(fs: seq<Folder>, f: Folder, g: Folder)
    requires DistinctIds(fs) && f in fs && g in fs && f.id == g.id
    ensures f == g
  {
  }

  lemma OneParent(fs: seq<Folder>, user: string, x: string, p: string, q: string)
    requires DistinctIds(fs) && Edge(fs, user, x, p) && Edge(fs, user, x, q)
    ensures p == q
  {
    var f :| f in fs && f.id == x && f.userId == user && f.parent == Some(p);
    var g :| g in fs && g.id == x && g.userId == user && g.parent == Some(q);
    SameRow(fs, f, g);
  }

  /** Above one folder, the ancestors form a line. */
  lemma {:induction false} AncestorsAreOrdered(
    fs: seq<Folder>, user: string, path: seq<string>, x: string, a: string, b: string
  )
    requires DistinctIds(fs) && Walk(fs, user, path, x, a) && Under(fs, user, x, b)
    ensures a == b || Under(fs, user, a, b) || Under(fs, user, b, a)
    decreases |path|
  {
    var p := path[1];
    assert Edge(fs, user, path[0], path[1]);
    var q := FirstStep(fs, user, x, b);
    OneParent(fs, user, x, p, q);
    if |path| == 2 {
    } else {
      var rest := path[1..];
      forall i | 0 <= i < |rest| - 1
        ensures Edge(fs, user, rest[i], rest[i + 1])
      {
        assert Edge(fs, user, path[i + 1], path[i + 2]);
      }
      assert Walk(fs, user, rest, p, a);
      if p != b {
        AncestorsAreOrdered(fs, user, rest, p, a, b);
      }
    }
  }

  /** The subtrees of two children of one folder do not meet. */
  lemma SiblingsAreApart(fs: seq<Folder>, user: string, a: string, c: string, d: string, x: string)
    requires Forest(fs, user) && c != d && Edge(fs, user, c, a) && Edge(fs, user, d, a)
    requires x in AtOrBelow(fs, user, c)
    ensures x !in AtOrBelow(fs, user, d)
  {
    BelowMember(fs, user, x, c);
    BelowMember(fs, user, x, d);
    if x in AtOrBelow(fs, user, d) {
      if x != c && x != d {
        var path :| Walk(fs, user, path, x, c);
        AncestorsAreOrdered(fs, user, path, x, c, d);
      }
      if Under(fs, user, c, d) {
        NoSiblingAbove(fs, user, a, c, d);
      } else {
        NoSiblingAbove(fs, user, a, d, c);
      }
    }
  }

  lemma NoSiblingAbove(fs: seq<Folder>, user: string, a: string, c: string, d: string)
    requires Forest(fs, user) && Edge(fs, user, c, a) && Edge(fs, user, d, a)
    ensures !Under(fs, user, c, d)
  {
    if Under(fs, user, c, d) {
      var p := FirstStep(fs, user, c, d);
      OneParent(fs, user, c, a, p);
      EdgeIsUnder(fs, user, d, a);
      if a != d {
        UnderIsTransitive(fs, user, a, d, a);
      }
    }
  }

  // ---------- removing rows ----------

  function Without(fs: seq<Folder>, ids: set<string>): seq<Folder> {
    if fs == [] then []
    else (if fs[0].id in ids then [] else [fs[0]]) + Without(fs[1..], ids)
  }

  lemma {:induction false} WithoutMembers(fs: seq<Folder>, ids: set<string>)
    ensures forall f :: f in Without(fs, ids) <==> f in fs && f.id !in ids
  {
    if fs != [] {
      WithoutMembers(fs[1..], ids);
      assert fs == [fs[0]] + fs[1..];
    }
  }

  lemma {:induction false} WithoutTwice(fs: seq<Folder>, a: set<string>, b: set<string>)
    ensures Without(Without(fs, a), b) == Without(fs, a + b)
  {
    if fs != [] {
      WithoutTwice(fs[1..], a, b);
      var rest := Without(fs[1..], a);
      assert Without(fs, a) == if fs[0].id in a then rest else [fs[0]] + rest;
      assert ([fs[0]] + rest)[1..] == rest;
    }
  }

  lemma {:induction false} WithoutNothing(fs: seq<Folder>)
    ensures Without(fs, {}) == fs
  {
    if fs != [] {
      WithoutNothing(fs[1..]);
    }
  }

  lemma {:induction false} WithoutKeepsDistinct(fs: seq<Folder>, ids: set<string>)
    requires DistinctIds(fs)
    ensures DistinctIds(Without(fs, ids))
  {
    if fs != [] {
      WithoutKeepsDistinct(fs[1..], ids);
      WithoutMembers(fs[1..], ids);
      var rest := Without(fs[1..], ids);
      forall j | 0 <= j < |rest|
        ensures rest[j].id != fs[0].id
      {
        assert rest[j] in rest;
      }
    }
  }

  /** Walks in a smaller table are walks in the larger. */
  lemma UnderWithout(fs: seq<Folder>, user: string, ids: set<string>, x: string, a: string)
    requires Under(Without(fs, ids), user, x, a)
    ensures Under(fs, user, x, a)
  {
    WithoutMembers(fs, ids);
    var path :| Walk(Without(fs, ids), user, path, x, a);
    forall i | 0 <= i < |path| - 1
      ensures Edge(fs, user, path[i], path[i + 1])
    {
      assert Edge(Without(fs, ids), user, path[i], path[i + 1]);
    }
    assert Walk(fs, user, path, x, a);
  }

  lemma ForestWithout(fs: seq<Folder>, user: string, ids: set<string>)
    requires Forest(fs, user)
    ensures Forest(Without(fs, ids), user)
  {
    WithoutKeepsDistinct(fs, ids);
    forall x
      ensures !Under(Without(fs, ids), user, x, x)
    {
      if Under(Without(fs, ids), user, x, x) {
        UnderWithout(fs, user, ids, x, x);
      }
    }
  }

  /** A subtree no row of which is removed stays as it was. */
  lemma BelowWithout(fs: seq<Folder>, user: string, ids: set<string>, a: string)
    requires Below(fs, user, a) !! ids
    ensures Below(Without(fs, ids), user, a) == Below(fs, user, a)
  {
    var rest := Without(fs, ids);
    forall x
      ensures x in Below(rest, user, a) <==> x in Below(fs, user, a)
    {
      BelowMember(fs, user, x, a);
      BelowMember(rest, user, x, a);
      if Under(rest, user, x, a) {
        UnderWithout(fs, user, ids, x, a);
      }
      if Under(fs, user, x, a) {
        var path :| Walk(fs, user, path, x, a);
        WalkStays(fs, user, ids, path, x, a);
      }
    }
  }

  lemma {:induction false} WalkStays(
    fs: seq<Folder>, user: string, ids: set<string>, path: seq<string>, x: string, a: string
  )
    requires Below(fs, user, a) !! ids && Walk(fs, user, path, x, a)
    ensures Walk(Without(fs, ids), user, path, x, a)
  {
    WithoutMembers(fs, ids);
    forall i | 0 <= i < |path| - 1
      ensures Edge(Without(fs, ids), user, path[i], path[i + 1])
    {
      assert Edge(fs, user, path[i], path[i + 1]);
      SuffixWalk(fs, user, path, x, a, i);
      BelowMember(fs, user, path[i], a);
    }
  }

  lemma SuffixWalk(fs: seq<Folder>, user: string, path: seq<string>, x: string, a: string, i: nat)
    requires Walk(fs, user, path, x, a) && i < |path| - 1
    ensures Under(fs, user, path[i], a)
  {
    var rest := path[i..];
    forall j | 0 <= j < |rest| - 1
      ensures Edge(fs, user, rest[j], rest[j + 1])
    {
      assert Edge(fs, user, path[i + j], path[i + j + 1]);
    }
    assert Walk(fs, user, rest, path[i], a);
  }

  /** A child's subtree is strictly smaller. */
  lemma ChildIsSmaller(fs: seq<Folder>, user: string, a: string, c: string)
    requires Acyclic(fs, user) && Edge(fs, user, c, a)
    ensures Below(fs, user, c) < Below(fs, user, a)
    ensures |Below(fs, user, c)| < |Below(fs, user, a)|
  {
    EdgeIsUnder(fs, user, c, a);
    forall x | x in Below(fs, user, c)
      ensures x in Below(fs, user, a)
    {
      BelowMember(fs, user, x, c);
      UnderIsTransitive(fs, user, x, c, a);
      BelowMember(fs, user, x, a);
    }
    BelowMember(fs, user, c, a);
    BelowMember(fs, user, c, c);
    StrictSubset(Below(fs, user, c), Below(fs, user, a));
  }

  lemma {:induction false} StrictSubset<T>(a: set<T>, b: set<T>)
    requires a < b
    ensures |a| < |b|
  {
    var rest := b - a;
    assert b == a + rest && |b| == |a| + |rest|;
    assert rest != {};
  }

  // ---------- inserting and reparenting ----------

  /** `insert_new_folder` with a fresh id. */
  lemma InsertKeepsForest(fs: seq<Folder>, user: string, f: Folder)
    requires Forest(fs, user)
    requires f.parent != Some(f.id) && forall g :: g in fs ==> g.id != f.id && g.parent != Some(f.id)
    ensures Forest(fs + [f], user)
  {
    forall x
      ensures !Under(fs + [f], user, x, x)
    {
      if Under(fs + [f], user, x, x) {
        var path :| Walk(fs + [f], user, path, x, x);
        NewRowIsALeaf(fs, user, f, path, x, x);
        WalkIsUnder(fs, user, path, x, x);
      }
    }
  }

  /** A cycle would have to pass through the new row, into which nothing is filed. */
  lemma NewRowIsALeaf(fs: seq<Folder>, user: string, f: Folder, path: seq<string>, x: string, a: string)
    requires Walk(fs + [f], user, path, x, a) && x == a
    requires f.parent != Some(f.id) && forall g :: g in fs ==> g.id != f.id && g.parent != Some(f.id)
    ensures Walk(fs, user, path, x, a)
  {
    var all := fs + [f];
    forall i | 0 <= i < |path| - 1
      ensures Edge(fs, user, path[i], path[i + 1])
    {
      assert Edge(all, user, path[i], path[i + 1]);
      var before := if i == 0 then |path| - 2 else i - 1;
      assert path[before + 1] == path[i];
      assert Edge(all, user, path[before], path[before + 1]);
    }
  }

  /** The table with one row's parent changed. */
  function Reparent(fs: seq<Folder>, user: string, id: string, parent: Option<string>): seq<Folder> {
    seq(|fs|, i requires 0 <= i < |fs| =>
      if fs[i].id == id && fs[i].userId == user then fs[i].(parent := parent) else fs[i])
  }

  lemma ReparentEdges(fs: seq<Folder>, user: string, id: string, parent: Option<string>, x: string, p: string)
    ensures x != id ==> (Edge(Reparent(fs, user, id, parent), user, x, p) <==> Edge(fs, user, x, p))
    ensures Edge(Reparent(fs, user, id, parent), user, id, p) ==> Some(p) == parent
    ensures (exists f :: f in fs && f.id == id && f.userId == user) && Some(p) == parent
            ==> Edge(Reparent(fs, user, id, parent), user, id, p)
  {
    var moved := Reparent(fs, user, id, parent);
    if f :| f in fs && f.id == x && f.userId == user && f.parent == Some(p) {
      var i :| 0 <= i < |fs| && fs[i] == f;
      assert moved[i] in moved;
    }
    if f :| f in fs && f.id == id && f.userId == user {
      var i :| 0 <= i < |fs| && fs[i] == f;
      assert moved[i] in moved;
    }
  }

  /** A walk that does not start from the moved folder's row survives the move. */
  lemma {:induction false} WalkAround(
    fs: seq<Folder>, gs: seq<Folder>, user: string, id: string, path: seq<string>, x: string, a: string
  )
    requires forall y, p :: y != id ==> (Edge(fs, user, y, p) ==> Edge(gs, user, y, p))
    requires Walk(fs, user, path, x, a)
    ensures Under(gs, user, x, a) || x == id || Under(gs, user, x, id)
    decreases |path|
  {
    if x != id {
      var p := path[1];
      assert Edge(fs, user, path[0], path[1]);
      EdgeIsUnder(gs, user, x, p);
      if |path| > 2 {
        var rest := path[1..];
        forall i | 0 <= i < |rest| - 1
          ensures Edge(fs, user, rest[i], rest[i + 1])
        {
          assert Edge(fs, user, path[i + 1], path[i + 2]);
        }
        assert Walk(fs, user, rest, p, a);
        WalkAround(fs, gs, user, id, rest, p, a);
        if Under(gs, user, p, a) {
          UnderIsTransitive(gs, user, x, p, a);
        } else if p != id {
          UnderIsTransitive(gs, user, x, p, id);
        }
      }
    }
  }

  /** Moving a folder keeps the forest exactly when the new parent is neither the folder itself
    * nor filed in it.
    */
  lemma ReparentKeepsForestIff(fs: seq<Folder>, user: string, id: string, parent: string)
    requires Forest(fs, user) && exists f :: f in fs && f.id == id && f.userId == user
    ensures Forest(Reparent(fs, user, id, Some(parent)), user) <==> parent !in AtOrBelow(fs, user, id)
  {
    var gs := Reparent(fs, user, id, Some(parent));
    BelowMember(fs, user, parent, id);
    forall y, p
      ensures y != id ==> (Edge(gs, user, y, p) <==> Edge(fs, user, y, p))
      ensures Edge(gs, user, id, p) ==> p == parent
      ensures p == parent ==> Edge(gs, user, id, p)
    {
      ReparentEdges(fs, user, id, Some(parent), y, p);
    }
    EdgeIsUnder(gs, user, id, parent);
    if parent in AtOrBelow(fs, user, id) {
      if parent != id {
        var path :| Walk(fs, user, path, parent, id);
        WalkAround(fs, gs, user, id, path, parent, id);
        UnderIsTransitive(gs, user, id, parent, id);
      }
    } else {
      forall x
        ensures !Under(gs, user, x, x)
      {
        if Under(gs, user, x, x) {
          NoNewCycle(fs, gs, user, id, parent, x);
        }
      }
    }
  }

  /** A cycle in the changed table would put the new parent under the moved folder. */
  lemma NoNewCycle(fs: seq<Folder>, gs: seq<Folder>, user: string, id: string, parent: string, x: string)
    requires Forest(fs, user) && parent !in AtOrBelow(fs, user, id)
    requires forall y, p :: y != id ==> (Edge(gs, user, y, p) ==> Edge(fs, user, y, p))
    requires forall p :: Edge(gs, user, id, p) ==> p == parent
    ensures !Under(gs, user, x, x)
  {
    if Under(gs, user, x, x) {
      var path :| Walk(gs, user, path, x, x);
      WalkAround(gs, fs, user, id, path, x, x);
      assert Under(gs, user, id, id) by {
        CycleThrough(gs, fs, user, id, x);
      }
      var p := FirstStep(gs, user, id, id);
      assert p == parent;
      var back :| Walk(gs, user, back, parent, id);
      WalkAround(gs, fs, user, id, back, parent, id);
      BelowMember(fs, user, parent, id);
    }
  }

  lemma CycleThrough(gs: seq<Folder>, fs: seq<Folder>, user: string, id: string, x: string)
    requires Acyclic(fs, user) && Under(gs, user, x, x)
    requires forall y, p :: y != id ==> (Edge(gs, user, y, p) ==> Edge(fs, user, y, p))
    ensures Under(gs, user, id, id)
  {
    var path :| Walk(gs, user, path, x, x);
    if id in path {
      var i :| 0 <= i < |path| && path[i] == id;
      if 0 < i < |path| - 1 {
        SuffixWalk(gs, user, path, x, x, i);
        PrefixWalk(gs, user, path, x, x, i);
        UnderIsTransitive(gs, user, id, x, id);
      }
    } else {
      forall i | 0 <= i < |path| - 1
        ensures Edge(fs, user, path[i], path[i + 1])
      {
        assert Edge(gs, user, path[i], path[i + 1]);
      }
      WalkIsUnder(fs, user, path, x, x);
    }
  }

  lemma PrefixWalk(fs: seq<Folder>, user: string, path: seq<string>, x: string, a: string, i: nat)
    requires Walk(fs, user, path, x, a) && 0 < i < |path|
    ensures Under(fs, user, x, path[i])
  {
    var init := path[..i + 1];
    forall j | 0 <= j < |init| - 1
      ensures Edge(fs, user, init[j], init[j + 1])
    {
      assert Edge(fs, user, path[j], path[j + 1]);
    }
    assert Walk(fs, user, init, x, path[i]);
  }
}
