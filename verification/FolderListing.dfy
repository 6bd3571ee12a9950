/** `get_children_folders_by_id_and_user_id` of backend/open_webui/models/folders.py: the
  * rows filed in a folder, each once, children before their parents.
  */
module FolderListing {
  import opened Wrappers
  import opened FolderForest
  import opened FolderStore

  lemma ChildEdge(fs: seq<Folder>, user: string, id: string, n: nat)
    requires Forest(fs, user) && n < |Children(fs, user, id)|
    ensures
      var child := Children(fs, user, id)[n];
      && child in fs && child.userId == user && child.parent == Some(id)
      && Edge(fs, user, child.id, id)
      && |Below(fs, user, child.id)| < |Below(fs, user, id)|
  {
    var child := Children(fs, user, id)[n];
    ChildrenMembers(fs, user, id);
    assert child in Children(fs, user, id);
    ChildIsSmaller(fs, user, id, child.id);
  }

  /** What the first `n` children of `id` contribute. */
  ghost function ListingUpTo(fs: seq<Folder>, user: string, id: string, n: nat): seq<Folder>
    requires Forest(fs, user) && n <= |Children(fs, user, id)|
    decreases |Below(fs, user, id)|, n
  {
    if n == 0 then []
    else
      ChildEdge(fs, user, id, n - 1);
      var child := Children(fs, user, id)[n - 1];
      ListingUpTo(fs, user, id, n - 1)
      + ListingUpTo(fs, user, child.id, |Children(fs, user, child.id)|) + [child]
  }

  ghost function Listing(fs: seq<Folder>, user: string, id: string): seq<Folder>
    requires Forest(fs, user)
  {
    ListingUpTo(fs, user, id, |Children(fs, user, id)|)
  }

  lemma ListingStep(fs: seq<Folder>, user: string, id: string, n: nat)
    requires Forest(fs, user) && n < |Children(fs, user, id)|
    ensures
      var child := Children(fs, user, id)[n];
      && ListingUpTo(fs, user, id, n + 1)
         == ListingUpTo(fs, user, id, n) + Listing(fs, user, child.id) + [child]
      && |Below(fs, user, child.id)| < |Below(fs, user, id)|
  {
    ChildEdge(fs, user, id, n);
  }

  /** The listed ids are exactly these. */
  ghost predicate Lists(listed: seq<Folder>, ids: set<string>) {
    forall x :: x in ids <==> exists f :: f in listed && f.id == x
  }

  lemma AppendedIds(before: seq<Folder>, cleared: set<string>, inside: seq<Folder>, below: set<string>, root: Folder)
    requires Lists(before, cleared) && Lists(inside, below)
    ensures Lists(before + inside + [root], cleared + (below + {root.id}))
  {
    var all := before + inside + [root];
    assert forall f :: f in all <==> f in before || f in inside || f == root;
  }

  lemma NothingListed(fs: seq<Folder>, user: string, id: string)
    requires Forest(fs, user)
    ensures Lists(ListingUpTo(fs, user, id, 0), Cleared(fs, user, Children(fs, user, id), 0))
  {
  }

  lemma {:induction false} ListingIds(fs: seq<Folder>, user: string, id: string, n: nat)
    requires Forest(fs, user) && n <= |Children(fs, user, id)|
    ensures Lists(ListingUpTo(fs, user, id, n), Cleared(fs, user, Children(fs, user, id), n))
    decreases |Below(fs, user, id)|, n
  {
    hide Forest, Below, Acyclic, Under, DistinctIds, Children, ListingUpTo, Lists;
    if n == 0 {
      NothingListed(fs, user, id);
    } else {
      ListingStep(fs, user, id, n - 1);
      var children := Children(fs, user, id);
      var child := children[n - 1];
      ListingIds(fs, user, id, n - 1);
      ListingIds(fs, user, child.id, |Children(fs, user, child.id)|);
      AllCleared(fs, user, child.id);
      AppendedIds(
        ListingUpTo(fs, user, id, n - 1), Cleared(fs, user, children, n - 1),
        Listing(fs, user, child.id), Below(fs, user, child.id), child
      );
      assert Below(fs, user, child.id) + {child.id} == AtOrBelow(fs, user, child.id);
    }
  }

  lemma {:induction false} ListingRows(fs: seq<Folder>, user: string, id: string, n: nat, f: Folder)
    requires Forest(fs, user) && n <= |Children(fs, user, id)|
    requires f in ListingUpTo(fs, user, id, n)
    ensures f in fs && f.userId == user
    decreases |Below(fs, user, id)|, n
  {
    hide Forest, Below, Acyclic, Under, DistinctIds, Children;
    if n > 0 {
      ListingStep(fs, user, id, n - 1);
      ChildEdge(fs, user, id, n - 1);
      var child := Children(fs, user, id)[n - 1];
      if f in ListingUpTo(fs, user, id, n - 1) {
        ListingRows(fs, user, id, n - 1, f);
      } else if f in Listing(fs, user, child.id) {
        ListingRows(fs, user, child.id, |Children(fs, user, child.id)|, f);
      }
    }
  }

  /** Nothing is filed in something listed earlier, and nothing is listed twice. */
  ghost predicate ChildrenFirst(fs: seq<Folder>, user: string, listed: seq<Folder>) {
    forall i, j :: 0 <= i < j < |listed| ==> listed[j].id !in AtOrBelow(fs, user, listed[i].id)
  }

  lemma BelowIsClosed(fs: seq<Folder>, user: string, a: string, x: string, y: string)
    requires x in AtOrBelow(fs, user, a) && y in AtOrBelow(fs, user, x)
    ensures y in AtOrBelow(fs, user, a)
  {
    BelowMember(fs, user, x, a);
    BelowMember(fs, user, y, x);
    BelowMember(fs, user, y, a);
    if x != a && y != x {
      UnderIsTransitive(fs, user, y, x, a);
    }
  }

  lemma RootIsNotInside(fs: seq<Folder>, user: string, root: string, x: string)
    requires Forest(fs, user) && x in Below(fs, user, root)
    ensures root !in AtOrBelow(fs, user, x)
  {
    BelowMember(fs, user, x, root);
    BelowMember(fs, user, root, x);
    if Under(fs, user, root, x) {
      UnderIsTransitive(fs, user, root, x, root);
    }
  }

  /** Nothing in the subtree of the next child is filed in what the earlier ones contribute. */
  lemma EarlierIsApart(fs: seq<Folder>, user: string, id: string, n: nat, x: string, y: string)
    requires Forest(fs, user) && n < |Children(fs, user, id)|
    requires x in Cleared(fs, user, Children(fs, user, id), n)
    requires y in AtOrBelow(fs, user, Children(fs, user, id)[n].id)
    ensures y !in AtOrBelow(fs, user, x)
  {
    var children := Children(fs, user, id);
    ClearedMembers(fs, user, children, n, x);
    NextChildIsWhole(fs, user, id, n);
    if y in AtOrBelow(fs, user, x) {
      var j :| 0 <= j < n && x in AtOrBelow(fs, user, children[j].id);
      BelowIsClosed(fs, user, children[j].id, x, y);
      ClearedMembers(fs, user, children, n, y);
    }
  }

  lemma Listed(listed: seq<Folder>, ids: set<string>, i: nat)
    requires Lists(listed, ids) && i < |listed|
    ensures listed[i].id in ids
  {
    assert listed[i] in listed;
  }

  /** One pair of positions of the listing with the next child's subtree appended. */
  lemma AppendedOrder(fs: seq<Folder>, user: string, id: string, n: nat, i: nat, j: nat)
    requires Forest(fs, user) && n < |Children(fs, user, id)|
    requires ChildrenFirst(fs, user, ListingUpTo(fs, user, id, n))
    requires ChildrenFirst(fs, user, Listing(fs, user, Children(fs, user, id)[n].id))
    requires i < j < |ListingUpTo(fs, user, id, n + 1)|
    ensures
      var all := ListingUpTo(fs, user, id, n + 1);
      all[j].id !in AtOrBelow(fs, user, all[i].id)
  {
    hide Acyclic, Under, DistinctIds, ListingUpTo;
    var children := Children(fs, user, id);
    var child := children[n];
    var before, inside := ListingUpTo(fs, user, id, n), Listing(fs, user, child.id);
    var all := before + inside + [child];
    ListingStep(fs, user, id, n);
    ListingIds(fs, user, id, n);
    ListingIds(fs, user, child.id, |Children(fs, user, child.id)|);
    AllCleared(fs, user, child.id);
    if i >= |before| && i < |before| + |inside| {
      Listed(inside, Below(fs, user, child.id), i - |before|);
    }
    if j >= |before| && j < |before| + |inside| {
      Listed(inside, Below(fs, user, child.id), j - |before|);
    }
    if j >= |before| && i < |before| {
      Listed(before, Cleared(fs, user, children, n), i);
      EarlierIsApart(fs, user, id, n, all[i].id, all[j].id);
    } else if j == |before| + |inside| {
      RootIsNotInside(fs, user, child.id, all[i].id);
    }
  }

  lemma NothingIsFirst(fs: seq<Folder>, user: string, id: string)
    requires Forest(fs, user)
    ensures ChildrenFirst(fs, user, ListingUpTo(fs, user, id, 0))
  {
  }

  lemma {:induction false} ListingOrder(fs: seq<Folder>, user: string, id: string, n: nat)
    requires Forest(fs, user) && n <= |Children(fs, user, id)|
    ensures ChildrenFirst(fs, user, ListingUpTo(fs, user, id, n))
    decreases |Below(fs, user, id)|, n
  {
    hide Forest, Below, Acyclic, Under, DistinctIds, ListingUpTo, Children, AtOrBelow;
    if n == 0 {
      NothingIsFirst(fs, user, id);
    } else {
      ListingStep(fs, user, id, n - 1);
      var child := Children(fs, user, id)[n - 1];
      ListingOrder(fs, user, id, n - 1);
      ListingOrder(fs, user, child.id, |Children(fs, user, child.id)|);
      var all := ListingUpTo(fs, user, id, n);
      forall i, j | 0 <= i < j < |all|
        ensures all[j].id !in AtOrBelow(fs, user, all[i].id)
      {
        AppendedOrder(fs, user, id, n - 1, i, j);
      }
    }
  }

  /** The listing is the set of ids that deletion removes besides the folder itself, each once,
    * children before parents.
    */
  lemma ListingIsTheSubtree(fs: seq<Folder>, user: string, id: string)
    requires Forest(fs, user)
    ensures var listed := Listing(fs, user, id);
      && (forall f :: f in listed <==> f in fs && f.userId == user && f.id in Below(fs, user, id))
      && DistinctIds(listed)
      && forall i, j :: 0 <= i < j < |listed| ==> !Under(fs, user, listed[j].id, listed[i].id)
  {
    var listed, ids := Listing(fs, user, id), Below(fs, user, id);
    var n := |Children(fs, user, id)|;
    ListingIds(fs, user, id, n);
    AllCleared(fs, user, id);
    ListingOrder(fs, user, id, n);
    forall f
      ensures f in listed <==> f in fs && f.userId == user && f.id in ids
    {
      if f in listed {
        ListingRows(fs, user, id, n, f);
      }
      if f in fs && f.id in ids {
        var g :| g in listed && g.id == f.id;
        ListingRows(fs, user, id, n, g);
        SameRow(fs, f, g);
      }
    }
    forall i, j | 0 <= i < j < |listed|
      ensures listed[i].id != listed[j].id && !Under(fs, user, listed[j].id, listed[i].id)
    {
      assert listed[j].id !in AtOrBelow(fs, user, listed[i].id);
      BelowMember(fs, user, listed[j].id, listed[i].id);
    }
  }

  /** The recursive helper appends to the list it is given. */
  method GetChildren(fs: seq<Folder>, user: string, id: string, folders: seq<Folder>) returns (more: seq<Folder>)
    requires Forest(fs, user)
    ensures more == folders + Listing(fs, user, id)
    decreases |Below(fs, user, id)|
  {
    hide Forest, Below, Acyclic, Under, DistinctIds, Children;
    var children := Children(fs, user, id);
    more := folders;
    for n := 0 to |children|
      invariant more == folders + ListingUpTo(fs, user, id, n)
    {
      ListingStep(fs, user, id, n);
      ghost var before, inside := ListingUpTo(fs, user, id, n), Listing(fs, user, children[n].id);
      more := GetChildren(fs, user, children[n].id, more);
      more := more + [children[n]];
      assert more == folders + (before + inside + [children[n]]);
    }
  }

  /** `None` when the user has no such folder. */
  method GetChildrenFolders(fs: seq<Folder>, user: string, id: string) returns (r: Option<seq<Folder>>)
    requires Forest(fs, user)
    ensures r.Some? <==> exists f :: f in fs && f.id == id && f.userId == user
    ensures r.Some? ==> r.value == Listing(fs, user, id)
  {
    if !exists f :: f in fs && f.id == id && f.userId == user {
      return None;
    }
    var listed := GetChildren(fs, user, id, []);
    return Some(listed);
  }
}
