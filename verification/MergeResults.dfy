/** backend/open_webui/retrieval/utils.py: merging the result lists of several queries and
  * collections into one, without duplicates, best first.
  */
module MergeResults {
  import opened Sorting
  import opened Wrappers

  datatype Hit<M> = Hit(score: real, document: string, meta: M)

  /** Three parallel lists; a document that is not a string is `None`. */
  datatype QueryResult<M> = QueryResult(distances: seq<real>, documents: seq<Option<string>>, metadatas: seq<M>)

  /** Unzipping no entries does not give the three lists that are unpacked. */
  datatype MergeError = NothingToUnzip

  function Score<M>(h: Hit<M>): real {
    h.score
  }

  function Shortest<M>(r: QueryResult<M>): nat {
    var n := if |r.distances| <= |r.documents| then |r.distances| else |r.documents|;
    if n <= |r.metadatas| then n else |r.metadatas|
  }

  /** The string documents among the first `n` zipped triples. */
  function HitsUpTo<M>(r: QueryResult<M>, n: nat): seq<Hit<M>>
    requires n <= Shortest(r)
  {
    if n == 0 then []
    else
      HitsUpTo(r, n - 1)
      + match r.documents[n - 1]
        case None => []
        case Some(d) => [Hit(r.distances[n - 1], d, r.metadatas[n - 1])]
  }

  function Hits<M>(r: QueryResult<M>): seq<Hit<M>> {
    HitsUpTo(r, Shortest(r))
  }

  /** `hits` are the zipped triples at these positions, in order, and they are all that hold a string. */
  ghost predicate AreHits<M>(r: QueryResult<M>, hits: seq<Hit<M>>, n: nat, at: seq<nat>)
    requires n <= Shortest(r)
  {
    && |at| == |hits|
    && (forall i, j :: 0 <= i < j < |at| ==> at[i] < at[j])
    && (forall p :: p in at <==> 0 <= p < n && r.documents[p].Some?)
    && forall i :: 0 <= i < |hits| ==>
         at[i] < n && hits[i].score == r.distances[at[i]] && hits[i].meta == r.metadatas[at[i]]
         && Some(hits[i].document) == r.documents[at[i]]
  }

  lemma {:induction false} HitsArePositions<M>(r: QueryResult<M>, n: nat) returns (at: seq<nat>)
    requires n <= Shortest(r)
    ensures AreHits(r, HitsUpTo(r, n), n, at)
  {
    at := [];
    if n > 0 {
      at := HitsArePositions(r, n - 1);
      if r.documents[n - 1].Some? {
        AnotherHit(r, HitsUpTo(r, n - 1), n, at);
        at := at + [n - 1];
      }
    }
  }

  lemma AnotherHit<M>(r: QueryResult<M>, hits: seq<Hit<M>>, n: nat, at: seq<nat>)
    requires 0 < n <= Shortest(r) && AreHits(r, hits, n - 1, at) && r.documents[n - 1].Some?
    ensures AreHits(r, hits + [Hit(r.distances[n - 1], r.documents[n - 1].value, r.metadatas[n - 1])], n, at + [n - 1])
  {
  }

  /** Every document keeps its own score and its own metadata, as far as all three lists go. */
  lemma HitsAreTriples<M>(r: QueryResult<M>) returns (at: seq<nat>)
    ensures AreHits(r, Hits(r), Shortest(r), at)
    ensures Shortest(r) <= |r.distances| && Shortest(r) <= |r.documents| && Shortest(r) <= |r.metadatas|
    ensures Shortest(r) in {|r.distances|, |r.documents|, |r.metadatas|}
  {
    at := HitsArePositions(r, Shortest(r));
  }

  function Flatten<T>(lists: seq<seq<T>>): seq<T> {
    if lists == [] then [] else lists[0] + Flatten(lists[1..])
  }

  // ---------- what the merged dictionary is ----------

  /** The position of a document's entry, or the length. */
  function IndexOf<M>(entries: seq<Hit<M>>, document: string): (i: nat)
    ensures i <= |entries|
    ensures i < |entries| ==> entries[i].document == document
    ensures forall j :: 0 <= j < i ==> entries[j].document != document
  {
    if entries == [] || entries[0].document == document then 0 else 1 + IndexOf(entries[1..], document)
  }

  /** One step of the merge: a new document is appended, a better score replaces in place. */
  function Upsert<M>(entries: seq<Hit<M>>, h: Hit<M>): seq<Hit<M>> {
    var i := IndexOf(entries, h.document);
    if i == |entries| then entries + [h]
    else if h.score > entries[i].score then entries[i := h]
    else entries
  }

  function Combine<M>(hits: seq<Hit<M>>): seq<Hit<M>> {
    if hits == [] then [] else Upsert(Combine(hits[..|hits| - 1]), hits[|hits| - 1])
  }

  lemma CombineAppend<M>(hits: seq<Hit<M>>, h: Hit<M>)
    ensures Combine(hits + [h]) == Upsert(Combine(hits), h)
  {
    assert (hits + [h])[..|hits|] == hits;
  }

  /** `e` is hit `p`, the first to reach the best score of its document. */
  predicate BestAt<M(==)>(hits: seq<Hit<M>>, e: Hit<M>, p: nat) {
    && p < |hits| && hits[p] == e
    && (forall q :: 0 <= q < |hits| && hits[q].document == e.document ==> hits[q].score <= e.score)
    && (forall q :: 0 <= q < p && hits[q].document == e.document ==> hits[q].score < e.score)
  }

  /** Hit `q` is the first of its document. */
  predicate FirstSeenAt<M>(hits: seq<Hit<M>>, document: string, q: nat) {
    && q < |hits| && hits[q].document == document
    && (forall r :: 0 <= r < q ==> hits[r].document != document)
  }

  predicate Covers<M>(hits: seq<Hit<M>>, entries: seq<Hit<M>>) {
    forall q :: 0 <= q < |hits| ==> IndexOf(entries, hits[q].document) < |entries|
  }

  predicate AllBest<M(==)>(hits: seq<Hit<M>>, entries: seq<Hit<M>>, from: seq<nat>) {
    |from| == |entries| && forall i :: 0 <= i < |entries| ==> BestAt(hits, entries[i], from[i])
  }

  predicate AllFirst<M>(hits: seq<Hit<M>>, entries: seq<Hit<M>>, seen: seq<nat>) {
    |seen| == |entries| && forall i :: 0 <= i < |entries| ==> FirstSeenAt(hits, entries[i].document, seen[i])
  }

  predicate Increasing(a: seq<nat>) {
    forall i, j :: 0 <= i < j < |a| ==> a[i] < a[j]
  }

  /** Where the entries come from: `from[i]` is the best hit, `seen[i]` the document's first. */
  ghost predicate Provenance<M>(hits: seq<Hit<M>>, entries: seq<Hit<M>>, from: seq<nat>, seen: seq<nat>) {
    && AllBest(hits, entries, from)
    && AllFirst(hits, entries, seen)
    && Increasing(seen)
    && Covers(hits, entries)
  }

  /** One entry per distinct document, in order of first appearance, each the first hit with
    * that document's best score.
    */
  ghost predicate OneBestPerDocument<M(!new)>(hits: seq<Hit<M>>, entries: seq<Hit<M>>) {
    exists from, seen :: Provenance(hits, entries, from, seen)
  }

  lemma BestAtExtends<M>(hits: seq<Hit<M>>, h: Hit<M>, e: Hit<M>, p: nat)
    requires BestAt(hits, e, p)
    requires h.document == e.document ==> h.score <= e.score
    ensures BestAt(hits + [h], e, p)
  {
  }

  lemma FirstSeenExtends<M>(hits: seq<Hit<M>>, h: Hit<M>, document: string, q: nat)
    requires FirstSeenAt(hits, document, q)
    ensures FirstSeenAt(hits + [h], document, q)
  {
  }

  lemma FirstSeenIsUnique<M>(hits: seq<Hit<M>>, document: string, q: nat, q': nat)
    requires FirstSeenAt(hits, document, q) && FirstSeenAt(hits, document, q')
    ensures q == q'
  {
  }

  lemma DistinctEntries<M>(hits: seq<Hit<M>>, entries: seq<Hit<M>>, from: seq<nat>, seen: seq<nat>)
    requires Provenance(hits, entries, from, seen)
    ensures forall i, j :: 0 <= i < j < |entries| ==> entries[i].document != entries[j].document
  {
    forall i, j | 0 <= i < j < |entries|
      ensures entries[i].document != entries[j].document
    {
      assert seen[i] < seen[j];
      assert FirstSeenAt(hits, entries[i].document, seen[i]) && FirstSeenAt(hits, entries[j].document, seen[j]);
    }
  }

  lemma IndexOfSameDocuments<M>(entries: seq<Hit<M>>, next: seq<Hit<M>>, document: string)
    requires |entries| <= |next| && IndexOf(entries, document) < |entries|
    requires forall i :: 0 <= i < |entries| ==> next[i].document == entries[i].document
    ensures IndexOf(next, document) < |next|
  {
    assert next[IndexOf(entries, document)].document == document;
  }

  lemma UpsertCovers<M>(hits: seq<Hit<M>>, h: Hit<M>, entries: seq<Hit<M>>)
    requires Covers(hits, entries)
    ensures Covers(hits + [h], Upsert(entries, h))
  {
    var next := Upsert(entries, h);
    forall q | 0 <= q < |hits| + 1
      ensures IndexOf(next, (hits + [h])[q].document) < |next|
    {
      if q < |hits| {
        IndexOfSameDocuments(entries, next, hits[q].document);
      } else {
        assert next[IndexOf(entries, h.document)].document == h.document;
      }
    }
  }

  /** The loop meets a document for the first time. */
  lemma NewDocument<M>(hits: seq<Hit<M>>, h: Hit<M>, entries: seq<Hit<M>>)
    requires Covers(hits, entries) && IndexOf(entries, h.document) == |entries|
    ensures BestAt(hits + [h], h, |hits|) && FirstSeenAt(hits + [h], h.document, |hits|)
  {
    forall q | 0 <= q < |hits|
      ensures hits[q].document != h.document
    {
      assert IndexOf(entries, hits[q].document) < |entries|;
    }
    hide Covers, IndexOf;
    OnlyHit(hits, h);
  }

  lemma OnlyHit<M>(hits: seq<Hit<M>>, h: Hit<M>)
    requires forall q :: 0 <= q < |hits| ==> hits[q].document != h.document
    ensures BestAt(hits + [h], h, |hits|) && FirstSeenAt(hits + [h], h.document, |hits|)
  {
  }

  lemma FirstsExtend<M>(hits: seq<Hit<M>>, h: Hit<M>, entries: seq<Hit<M>>, next: seq<Hit<M>>, seen: seq<nat>)
    requires AllFirst(hits, entries, seen) && |next| == |entries|
    requires forall i :: 0 <= i < |entries| ==> next[i].document == entries[i].document
    ensures AllFirst(hits + [h], next, seen)
  {
    forall i | 0 <= i < |entries|
      ensures FirstSeenAt(hits + [h], next[i].document, seen[i])
    {
      FirstSeenExtends(hits, h, entries[i].document, seen[i]);
    }
  }

  lemma BestsExtend<M>(hits: seq<Hit<M>>, h: Hit<M>, entries: seq<Hit<M>>, from: seq<nat>, except: int)
    requires AllBest(hits, entries, from)
    requires forall i :: 0 <= i < |entries| && i != except && entries[i].document == h.document ==>
               h.score <= entries[i].score
    ensures forall i :: 0 <= i < |entries| && i != except ==> BestAt(hits + [h], entries[i], from[i])
  {
    forall i | 0 <= i < |entries| && i != except
      ensures BestAt(hits + [h], entries[i], from[i])
    {
      BestAtExtends(hits, h, entries[i], from[i]);
    }
  }

  lemma AppendBest<M>(hits: seq<Hit<M>>, entries: seq<Hit<M>>, from: seq<nat>, h: Hit<M>, n: nat)
    requires AllBest(hits, entries, from) && BestAt(hits, h, n)
    ensures AllBest(hits, entries + [h], from + [n])
  {
  }

  lemma AppendFirst<M>(hits: seq<Hit<M>>, entries: seq<Hit<M>>, seen: seq<nat>, h: Hit<M>, n: nat)
    requires AllFirst(hits, entries, seen) && FirstSeenAt(hits, h.document, n)
    ensures AllFirst(hits, entries + [h], seen + [n])
  {
  }

  lemma AppendIncreasing<M>(hits: seq<Hit<M>>, entries: seq<Hit<M>>, seen: seq<nat>)
    requires AllFirst(hits, entries, seen) && Increasing(seen)
    ensures Increasing(seen + [|hits|])
  {
    assert forall i :: 0 <= i < |seen| ==> FirstSeenAt(hits, entries[i].document, seen[i]);
  }

  lemma AppendKeepsProvenance<M>(
    hits: seq<Hit<M>>, h: Hit<M>, entries: seq<Hit<M>>, from: seq<nat>, seen: seq<nat>
  )
    requires Provenance(hits, entries, from, seen) && IndexOf(entries, h.document) == |entries|
    ensures Provenance(hits + [h], entries + [h], from + [|hits|], seen + [|hits|])
  {
    NewDocument(hits, h, entries);
    UpsertCovers(hits, h, entries);
    FirstsExtend(hits, h, entries, entries, seen);
    AppendFirst(hits + [h], entries, seen, h, |hits|);
    BestsExtend(hits, h, entries, from, -1);
    AppendBest(hits + [h], entries, from, h, |hits|);
    AppendIncreasing(hits, entries, seen);
  }

  lemma ReplaceBest<M>(hits: seq<Hit<M>>, entries: seq<Hit<M>>, from: seq<nat>, h: Hit<M>, n: nat, i: nat)
    requires |from| == |entries| && i < |entries| && BestAt(hits, h, n)
    requires forall j :: 0 <= j < |entries| && j != i ==> BestAt(hits, entries[j], from[j])
    ensures AllBest(hits, entries[i := h], from[i := n])
  {
    hide BestAt;
  }

  /** A hit that beats the best of its document so far. */
  lemma NewBest<M>(hits: seq<Hit<M>>, h: Hit<M>, e: Hit<M>, p: nat)
    requires BestAt(hits, e, p) && h.document == e.document && h.score > e.score
    ensures BestAt(hits + [h], h, |hits|)
  {
  }

  lemma AsManyAsEntries<M>(hits: seq<Hit<M>>, entries: seq<Hit<M>>, from: seq<nat>, seen: seq<nat>)
    requires Provenance(hits, entries, from, seen)
    ensures |from| == |entries| == |seen|
  {
  }

  lemma NoHits<M>()
    ensures Provenance<M>([], [], [], [])
  {
  }

  lemma ReplaceKeepsProvenance<M>(
    hits: seq<Hit<M>>, h: Hit<M>, entries: seq<Hit<M>>, from: seq<nat>, seen: seq<nat>, i: nat
  )
    requires Provenance(hits, entries, from, seen) && i == IndexOf(entries, h.document) < |entries|
    requires h.score > entries[i].score
    ensures Provenance(hits + [h], entries[i := h], from[i := |hits|], seen)
  {
    DistinctEntries(hits, entries, from, seen);
    assert BestAt(hits, entries[i], from[i]);
    NewBest(hits, h, entries[i], from[i]);
    UpsertCovers(hits, h, entries);
    assert Upsert(entries, h) == entries[i := h];
    FirstsExtend(hits, h, entries, entries[i := h], seen);
    hide BestAt, FirstSeenAt, Covers, IndexOf, Upsert;
    BestsExtend(hits, h, entries, from, i);
    ReplaceBest(hits + [h], entries, from, h, |hits|, i);
  }

  lemma SkipKeepsProvenance<M>(
    hits: seq<Hit<M>>, h: Hit<M>, entries: seq<Hit<M>>, from: seq<nat>, seen: seq<nat>, i: nat
  )
    requires Provenance(hits, entries, from, seen) && i == IndexOf(entries, h.document) < |entries|
    requires h.score <= entries[i].score
    ensures Provenance(hits + [h], entries, from, seen)
  {
    DistinctEntries(hits, entries, from, seen);
    UpsertCovers(hits, h, entries);
    FirstsExtend(hits, h, entries, entries, seen);
    BestsExtend(hits, h, entries, from, -1);
  }

  lemma {:induction false} CombineProvenance<M>(hits: seq<Hit<M>>) returns (from: seq<nat>, seen: seq<nat>)
    ensures Provenance(hits, Combine(hits), from, seen)
    decreases |hits|
  {
    hide Provenance;
    if hits == [] {
      from, seen := [], [];
      NoHits<M>();
    } else {
      var n := |hits| - 1;
      var init, h := hits[..n], hits[n];
      var entries := Combine(init);
      from, seen := CombineProvenance(init);
      CombineAppend(init, h);
      assert hits == init + [h];
      var i := IndexOf(entries, h.document);
      if i == |entries| {
        AppendKeepsProvenance(init, h, entries, from, seen);
        from, seen := from + [n], seen + [n];
      } else if h.score > entries[i].score {
        ReplaceKeepsProvenance(init, h, entries, from, seen, i);
        AsManyAsEntries(init, entries, from, seen);
        from := from[i := n];
      } else {
        SkipKeepsProvenance(init, h, entries, from, seen, i);
      }
    }
  }

  /** The merge loop's dictionary holds one best entry per document. */
  lemma CombineIsBest<M(!new)>(hits: seq<Hit<M>>)
    ensures OneBestPerDocument(hits, Combine(hits))
  {
    var from, seen := CombineProvenance(hits);
  }

  lemma {:induction false} SameIncreasing(a: seq<nat>, b: seq<nat>)
    requires Increasing(a) && Increasing(b) && forall x :: x in a <==> x in b
    ensures a == b
  {
    assert (a != [] ==> a[0] in b) && (b != [] ==> b[0] in a);
    if a != [] {
      var m, n := |a| - 1, |b| - 1;
      assert a[m] in b && b[n] in a;
      assert a[m] == b[n];
      forall x
        ensures x in a[..m] <==> x in b[..n]
      {
        assert x in a[..m] <==> x in a && x < a[m];
        assert x in b[..n] <==> x in b && x < b[n];
      }
      SameIncreasing(a[..m], b[..n]);
      assert a == a[..m] + [a[m]] && b == b[..n] + [b[n]];
    }
  }

  lemma SeenInBoth<M>(
    hits: seq<Hit<M>>, a: seq<Hit<M>>, fromA: seq<nat>, seenA: seq<nat>,
    b: seq<Hit<M>>, fromB: seq<nat>, seenB: seq<nat>, i: nat
  )
    requires Provenance(hits, a, fromA, seenA) && Provenance(hits, b, fromB, seenB) && i < |seenA|
    ensures seenA[i] in seenB
  {
    var q := seenA[i];
    assert FirstSeenAt(hits, a[i].document, q);
    var j := IndexOf(b, hits[q].document);
    assert j < |b|;
    assert FirstSeenAt(hits, b[j].document, seenB[j]);
    FirstSeenIsUnique(hits, b[j].document, q, seenB[j]);
  }

  lemma SeenIsDetermined<M>(
    hits: seq<Hit<M>>, a: seq<Hit<M>>, fromA: seq<nat>, seenA: seq<nat>,
    b: seq<Hit<M>>, fromB: seq<nat>, seenB: seq<nat>
  )
    requires Provenance(hits, a, fromA, seenA) && Provenance(hits, b, fromB, seenB)
    ensures seenA == seenB
  {
    forall i | 0 <= i < |seenA|
      ensures seenA[i] in seenB
    {
      SeenInBoth(hits, a, fromA, seenA, b, fromB, seenB, i);
    }
    forall i | 0 <= i < |seenB|
      ensures seenB[i] in seenA
    {
      SeenInBoth(hits, b, fromB, seenB, a, fromA, seenA, i);
    }
    SameIncreasing(seenA, seenB);
  }

  lemma BestIsDetermined<M>(hits: seq<Hit<M>>, e: Hit<M>, p: nat, e': Hit<M>, p': nat)
    requires BestAt(hits, e, p) && BestAt(hits, e', p') && e.document == e'.document
    ensures e == e'
  {
    assert p == p';
  }

  /** The description leaves no freedom. */
  lemma OneBestIsUnique<M(!new)>(hits: seq<Hit<M>>, a: seq<Hit<M>>, b: seq<Hit<M>>)
    requires OneBestPerDocument(hits, a) && OneBestPerDocument(hits, b)
    ensures a == b
  {
    var fromA, seenA :| Provenance(hits, a, fromA, seenA);
    var fromB, seenB :| Provenance(hits, b, fromB, seenB);
    SeenIsDetermined(hits, a, fromA, seenA, b, fromB, seenB);
    forall i | 0 <= i < |a|
      ensures a[i] == b[i]
    {
      assert FirstSeenAt(hits, a[i].document, seenA[i]) && FirstSeenAt(hits, b[i].document, seenB[i]);
      BestIsDetermined(hits, a[i], fromA[i], b[i], fromB[i]);
    }
  }

  // ---------- merge_and_sort_query_results ----------

  function Merge<M>(hits: seq<Hit<M>>, k: int): Result<seq<Hit<M>>, MergeError> {
    var sorted := SortDescending(Combine(hits), Score);
    if sorted != [] && Take(sorted, k) == [] then Err(NothingToUnzip) else Ok(Take(sorted, k))
  }

  /** The result is the stable descending sort of the best hits per document, cut to k. */
  lemma MergeIsStableTopK<M(!new)>(hits: seq<Hit<M>>, entries: seq<Hit<M>>, sorted: seq<Hit<M>>, k: int)
    requires OneBestPerDocument(hits, entries) && IsStableSort(entries, sorted, Score)
    ensures Merge(hits, k).Ok? ==> Merge(hits, k).value == Take(sorted, k)
    ensures Merge(hits, k).Err? <==> sorted != [] && Take(sorted, k) == []
  {
    CombineIsBest(hits);
    OneBestIsUnique(hits, entries, Combine(hits));
    SortIsStable(entries, Score);
    StableSortIsUnique(entries, sorted, SortDescending(entries, Score), Score);
  }

  lemma {:induction false} CombineIsEmptyIff<M>(hits: seq<Hit<M>>)
    ensures Combine(hits) == [] <==> hits == []
  {
    if hits != [] {
      CombineIsEmptyIff(hits[..|hits| - 1]);
    }
  }

  /** For a k that is not negative, only asking for nothing when there is something fails. */
  lemma MergeFailsIff<M>(hits: seq<Hit<M>>, k: nat)
    ensures Merge(hits, k).Err? <==> k == 0 && hits != []
  {
    CombineIsEmptyIff(hits);
  }

  ghost predicate Injective<H(!new)>(md5: string -> H) {
    forall a, b :: md5(a) == md5(b) ==> a == b
  }

  /** The dictionary `combined` (with `order`, its insertion order) stands for `entries`. */
  ghost predicate Represents<H, M>(md5: string -> H, combined: map<H, Hit<M>>, order: seq<H>, entries: seq<Hit<M>>) {
    && |order| == |entries|
    && (forall i :: 0 <= i < |order| ==>
          order[i] == md5(entries[i].document) && order[i] in combined && combined[order[i]] == entries[i])
    && (forall i, j :: 0 <= i < j < |order| ==> order[i] != order[j])
    && (forall h :: h in combined ==> h in order)
  }

  lemma HashFinds<H(!new), M>(
    md5: string -> H, combined: map<H, Hit<M>>, order: seq<H>, entries: seq<Hit<M>>, document: string
  )
    requires Injective(md5) && Represents(md5, combined, order, entries)
    ensures md5(document) in combined <==> IndexOf(entries, document) < |entries|
    ensures md5(document) in combined ==> combined[md5(document)] == entries[IndexOf(entries, document)]
  {
    var i := IndexOf(entries, document);
    if md5(document) in combined {
      var j :| 0 <= j < |order| && order[j] == md5(document);
      assert md5(entries[j].document) == md5(document);
      assert entries[j].document == document;
    }
    if i < |entries| {
      assert order[i] == md5(document);
    }
  }

  /** One pass through the loop body keeps dictionary and entries in step. */
  lemma RepresentsUpsert<H(!new), M>(
    md5: string -> H, combined: map<H, Hit<M>>, order: seq<H>, entries: seq<Hit<M>>, h: Hit<M>
  )
    requires Injective(md5) && Represents(md5, combined, order, entries)
    ensures
      var key := md5(h.document);
      if key !in combined then Represents(md5, combined[key := h], order + [key], Upsert(entries, h))
      else if h.score > combined[key].score then Represents(md5, combined[key := h], order, Upsert(entries, h))
      else Represents(md5, combined, order, Upsert(entries, h))
  {
    var key := md5(h.document);
    var i := IndexOf(entries, h.document);
    HashFinds(md5, combined, order, entries, h.document);
    if key in combined && h.score > combined[key].score {
      forall j | 0 <= j < |order|
        ensures combined[key := h][order[j]] == entries[i := h][j]
      {
        assert order[i] == key;
      }
    }
  }

  function AllHits<M>(results: seq<QueryResult<M>>): seq<Hit<M>> {
    if results == [] then [] else Hits(results[0]) + AllHits(results[1..])
  }

  /** List after list. */
  lemma {:induction false} AllHitsRunOn<M>(a: seq<QueryResult<M>>, b: seq<QueryResult<M>>)
    ensures AllHits(a + b) == AllHits(a) + AllHits(b)
    decreases |a|
  {
    hide Hits;
    if a == [] {
      assert a + b == b;
    } else {
      AllHitsRunOn(a[1..], b);
      assert (a + b)[1..] == a[1..] + b && (a + b)[0] == a[0];
      assert (Hits(a[0]) + AllHits(a[1..])) + AllHits(b) == Hits(a[0]) + (AllHits(a[1..]) + AllHits(b));
    }
  }

  lemma OneResult<M>(r: QueryResult<M>)
    ensures AllHits([r]) == Hits(r)
  {
    assert [r][1..] == [];
  }

  /** The loop body: a new document is added, a better score replaces the entry. */
  method MergeHit<H(!new, ==), M>(
    h: Hit<M>, md5: string -> H, combined: map<H, Hit<M>>, order: seq<H>, ghost entries: seq<Hit<M>>
  )
    returns (combined': map<H, Hit<M>>, order': seq<H>)
    requires Injective(md5) && Represents(md5, combined, order, entries)
    ensures Represents(md5, combined', order', Upsert(entries, h))
  {
    RepresentsUpsert(md5, combined, order, entries, h);
    combined', order' := combined, order;
    var key := md5(h.document);
    if key !in combined {
      combined', order' := combined[key := h], order + [key];
    } else if h.score > combined[key].score {
      combined' := combined[key := h];
    }
  }

  /** The inner loop: one result list goes into the dictionary. */
  method MergeOneResult<H(!new, ==), M>(
    data: QueryResult<M>, md5: string -> H, combined: map<H, Hit<M>>, order: seq<H>, ghost merged: seq<Hit<M>>
  )
    returns (combined': map<H, Hit<M>>, order': seq<H>)
    requires Injective(md5) && Represents(md5, combined, order, Combine(merged))
    ensures Represents(md5, combined', order', Combine(merged + Hits(data)))
  {
    hide Represents, Combine, Injective;
    combined', order' := combined, order;
    assert merged + HitsUpTo(data, 0) == merged;
    for i := 0 to Shortest(data)
      invariant Represents(md5, combined', order', Combine(merged + HitsUpTo(data, i)))
    {
      ghost var before := merged + HitsUpTo(data, i);
      if data.documents[i].Some? {
        var h := Hit(data.distances[i], data.documents[i].value, data.metadatas[i]);
        combined', order' := MergeHit(h, md5, combined', order', Combine(before));
        CombineAppend(before, h);
        assert merged + HitsUpTo(data, i + 1) == before + [h];
      } else {
        assert HitsUpTo(data, i + 1) == HitsUpTo(data, i);
      }
    }
  }

  /** The entries of the dictionary, oldest first. */
  function Values<H, M>(combined: map<H, Hit<M>>, order: seq<H>): seq<Hit<M>>
    requires forall i :: 0 <= i < |order| ==> order[i] in combined
  {
    seq(|order|, i requires 0 <= i < |order| => combined[order[i]])
  }

  method MergeAndSortQueryResults<H(!new, ==), M>(results: seq<QueryResult<M>>, md5: string -> H, k: int)
    returns (r: Result<seq<Hit<M>>, MergeError>)
    requires Injective(md5)
    ensures r == Merge(AllHits(results), k)
  {
    var combined: map<H, Hit<M>> := map[];
    var order: seq<H> := [];
    ghost var merged: seq<Hit<M>> := [];
    for d := 0 to |results|
      invariant merged + AllHits(results[d..]) == AllHits(results)
      invariant Represents(md5, combined, order, Combine(merged))
    {
      combined, order := MergeOneResult(results[d], md5, combined, order, merged);
      AllHitsStep(results, d);
      merged := merged + Hits(results[d]);
    }
    assert merged == merged + AllHits(results[|results|..]);
    var entries := Values(combined, order);
    assert entries == Combine(merged);
    var sorted := SortDescending(entries, Score);
    if sorted != [] && Take(sorted, k) == [] {
      r := Err(NothingToUnzip);
    } else {
      r := Ok(Take(sorted, k));
    }
  }

  lemma AllHitsStep<M>(results: seq<QueryResult<M>>, d: nat)
    requires d < |results|
    ensures forall s: seq<Hit<M>> :: s + AllHits(results[d..]) == (s + Hits(results[d])) + AllHits(results[d + 1..])
  {
    assert results[d..][1..] == results[d + 1..];
  }
}
