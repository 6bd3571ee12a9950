/** backend/open_webui/retrieval/utils.py: `query_collection`. Each search returns only its
  * own k best hits; the merge of the cut lists is still the global top k.
  */
module CollectionQuery {
  import opened Collections
  import opened Numbers
  import opened Sorting
  import opened Wrappers
  import opened MergeResults

  // ---------- counting documents by score ----------

  ghost function Documents<M>(hits: seq<Hit<M>>): set<string> {
    set h | h in hits :: h.document
  }

  ghost function AtLeast<M>(hits: seq<Hit<M>>, t: real): set<string> {
    set h | h in hits && h.score >= t :: h.document
  }

  lemma {:induction false} DocumentsBound<M>(hits: seq<Hit<M>>)
    ensures |Documents(hits)| <= |hits|
  {
    if hits != [] {
      DocumentsBound(hits[1..]);
      assert Documents(hits) == {hits[0].document} + Documents(hits[1..]);
    }
  }

  lemma {:induction false} CountDistinct<M>(hits: seq<Hit<M>>)
    requires forall i, j :: 0 <= i < j < |hits| ==> hits[i].document != hits[j].document
    ensures |Documents(hits)| == |hits|
  {
    if hits != [] {
      CountDistinct(hits[1..]);
      assert Documents(hits) == {hits[0].document} + Documents(hits[1..]);
      assert hits[0].document !in Documents(hits[1..]);
    }
  }

  lemma DocumentsSplit<M>(hits: seq<Hit<M>>, c: nat)
    requires c <= |hits| && |Documents(hits)| == |hits|
    ensures |Documents(hits[..c])| == c
  {
    assert hits == hits[..c] + hits[c..];
    assert Documents(hits) == Documents(hits[..c]) + Documents(hits[c..]);
    DocumentsBound(hits[..c]);
    DocumentsBound(hits[c..]);
  }

  /** The best entries of a sorted list of distinct documents count the documents above a score. */
  lemma RankByCount<M>(sorted: seq<Hit<M>>, i: nat, t: real)
    requires Descending(sorted, Score) && |Documents(sorted)| == |sorted| && i < |sorted|
    ensures sorted[i].score >= t <==> i < |AtLeast(sorted, t)|
  {
    var c := Prefix(sorted, t);
    assert AtLeast(sorted, t) == Documents(sorted[..c]) by {
      forall h | h in sorted
        ensures h.score >= t <==> h in sorted[..c]
      {
        var j :| 0 <= j < |sorted| && sorted[j] == h;
      }
    }
    DocumentsSplit(sorted, c);
  }

  /** How many leading entries score at least `t`. */
  function Prefix<M>(sorted: seq<Hit<M>>, t: real): (c: nat)
    requires Descending(sorted, Score)
    ensures c <= |sorted|
    ensures forall j :: 0 <= j < |sorted| ==> (sorted[j].score >= t <==> j < c)
  {
    if sorted == [] || sorted[0].score < t then
      assert forall j :: 0 <= j < |sorted| ==> Score(sorted[0]) >= Score(sorted[j]);
      0
    else
      1 + Prefix(sorted[1..], t)
  }

  function Scores<M>(hits: seq<Hit<M>>): seq<real> {
    seq(|hits|, i requires 0 <= i < |hits| => hits[i].score)
  }

  function Ranked<M>(hits: seq<Hit<M>>): seq<Hit<M>> {
    SortDescending(Combine(hits), Score)
  }

  /** Merging keeps, for every score, the documents that reach it. */
  lemma RankedCounts<M>(hits: seq<Hit<M>>)
    ensures Descending(Ranked(hits), Score)
    ensures |Documents(Ranked(hits))| == |Ranked(hits)|
    ensures forall t :: AtLeast(Ranked(hits), t) == AtLeast(hits, t)
  {
    var entries := Combine(hits);
    var from, seen := CombineProvenance(hits);
    DistinctEntries(hits, entries, from, seen);
    CountDistinct(entries);
    SortIsStable(entries, Score);
    SortMembers(entries, Score);
    assert Documents(Ranked(hits)) == Documents(entries);
    forall t
      ensures AtLeast(Ranked(hits), t) == AtLeast(hits, t)
    {
      AtLeastOfEntries(hits, entries, from, seen, t);
      assert AtLeast(Ranked(hits), t) == AtLeast(entries, t);
    }
  }

  lemma AtLeastOfEntries<M>(hits: seq<Hit<M>>, entries: seq<Hit<M>>, from: seq<nat>, seen: seq<nat>, t: real)
    requires Provenance(hits, entries, from, seen)
    ensures AtLeast(entries, t) == AtLeast(hits, t)
  {
    forall e | e in entries
      ensures e in hits
    {
      var i :| 0 <= i < |entries| && entries[i] == e;
      assert BestAt(hits, entries[i], from[i]);
    }
    forall h | h in hits && h.score >= t
      ensures h.document in AtLeast(entries, t)
    {
      var q :| 0 <= q < |hits| && hits[q] == h;
      var i := IndexOf(entries, h.document);
      assert i < |entries|;
      assert BestAt(hits, entries[i], from[i]);
      assert entries[i] in entries && entries[i].score >= t;
    }
  }

  /** Lists that agree, up to k, on how many documents reach each score have the same top k. */
  lemma TopKByCount<M>(a: seq<Hit<M>>, b: seq<Hit<M>>, k: nat)
    requires Descending(a, Score) && |Documents(a)| == |a|
    requires Descending(b, Score) && |Documents(b)| == |b|
    requires forall t :: Min(k, |AtLeast(a, t)|) == Min(k, |AtLeast(b, t)|)
    ensures Scores(Take(a, k)) == Scores(Take(b, k))
  {
    HalfTopK(a, b, k);
    HalfTopK(b, a, k);
  }

  lemma BothHaveRank<M>(a: seq<Hit<M>>, b: seq<Hit<M>>, k: nat, i: nat)
    requires Descending(a, Score) && |Documents(a)| == |a|
    requires Descending(b, Score) && |Documents(b)| == |b|
    requires forall t :: Min(k, |AtLeast(a, t)|) == Min(k, |AtLeast(b, t)|)
    requires i < |Take(a, k)|
    ensures i < |Take(b, k)| && Take(b, k)[i].score >= Take(a, k)[i].score
  {
    var t := a[i].score;
    RankByCount(a, i, t);
    assert Min(k, |AtLeast(b, t)|) > i;
    AtLeastBound(b, t);
    RankByCount(b, i, t);
  }

  lemma HalfTopK<M>(a: seq<Hit<M>>, b: seq<Hit<M>>, k: nat)
    requires Descending(a, Score) && |Documents(a)| == |a|
    requires Descending(b, Score) && |Documents(b)| == |b|
    requires forall t :: Min(k, |AtLeast(a, t)|) == Min(k, |AtLeast(b, t)|)
    ensures |Take(a, k)| <= |Take(b, k)|
    ensures forall i :: 0 <= i < |Take(a, k)| ==> Take(b, k)[i].score >= Take(a, k)[i].score
  {
    var n := |Take(a, k)|;
    if n > 0 {
      BothHaveRank(a, b, k, n - 1);
    }
    forall i | 0 <= i < n
      ensures Take(b, k)[i].score >= Take(a, k)[i].score
    {
      BothHaveRank(a, b, k, i);
    }
  }

  lemma AtLeastBound<M>(b: seq<Hit<M>>, t: real)
    ensures |AtLeast(b, t)| <= |b|
  {
    assert AtLeast(b, t) <= Documents(b);
    SubsetIsSmaller(AtLeast(b, t), Documents(b));
    DocumentsBound(b);
  }

  // ---------- cutting each list first ----------

  function CutEach<M>(lists: seq<seq<Hit<M>>>, k: nat): seq<seq<Hit<M>>> {
    seq(|lists|, i requires 0 <= i < |lists| => Take(lists[i], k))
  }

  /** What a similarity search returns: best first, every document once. */
  ghost predicate SearchList<M>(list: seq<Hit<M>>) {
    && Descending(list, Score)
    && forall i, j :: 0 <= i < j < |list| ==> list[i].document != list[j].document
  }

  ghost predicate SearchLists<M>(lists: seq<seq<Hit<M>>>) {
    forall i :: 0 <= i < |lists| ==> SearchList(lists[i])
  }

  lemma {:induction false} FlattenMembers<T>(lists: seq<seq<T>>, x: T)
    ensures x in Flatten(lists) <==> exists i :: 0 <= i < |lists| && x in lists[i]
  {
    if lists != [] {
      FlattenMembers(lists[1..], x);
      if x in Flatten(lists[1..]) {
        var i :| 0 <= i < |lists[1..]| && x in lists[1..][i];
        assert x in lists[i + 1];
      }
      if i :| 0 <= i < |lists| && x in lists[i] {
        if i > 0 {
          assert x in lists[1..][i - 1];
        }
      }
    }
  }

  lemma PositionOf<M>(list: seq<Hit<M>>, k: nat, h: Hit<M>) returns (i: nat)
    requires h in list
    ensures i < |list| && list[i] == h
    ensures i < k ==> h in Take(list, k)
  {
    i :| 0 <= i < |list| && list[i] == h;
    assert i < k ==> Take(list, k)[i] == h;
  }

  /** A hit that a cut drops leaves k better or equal documents behind. */
  lemma DroppedHit<M>(list: seq<Hit<M>>, k: nat, h: Hit<M>, t: real)
    requires SearchList(list) && h in list && h !in Take(list, k) && h.score >= t
    ensures |AtLeast(Take(list, k), t)| == k
  {
    var i := PositionOf(list, k, h);
    var top := Take(list, k);
    forall x | x in top
      ensures x.score >= t
    {
      var j :| 0 <= j < |top| && top[j] == x;
      assert Score(list[j]) >= Score(list[i]);
    }
    assert AtLeast(top, t) == Documents(top);
    CountDistinct(top);
  }

  lemma CutKeepsCounts<M>(lists: seq<seq<Hit<M>>>, k: nat, t: real)
    requires SearchLists(lists)
    ensures Min(k, |AtLeast(Flatten(CutEach(lists, k)), t)|) == Min(k, |AtLeast(Flatten(lists), t)|)
  {
    var cut, full := Flatten(CutEach(lists, k)), Flatten(lists);
    forall h | h in cut
      ensures h in full
    {
      FlattenMembers(CutEach(lists, k), h);
      FlattenMembers(lists, h);
      var i :| 0 <= i < |lists| && h in CutEach(lists, k)[i];
      assert h in lists[i];
    }
    assert AtLeast(cut, t) <= AtLeast(full, t);
    SubsetIsSmaller(AtLeast(cut, t), AtLeast(full, t));
    if h :| h in full && h.score >= t && h !in cut {
      FlattenMembers(lists, h);
      var i :| 0 <= i < |lists| && h in lists[i];
      var top := CutEach(lists, k)[i];
      FlattenMembers(CutEach(lists, k), h);
      DroppedHit(lists[i], k, h, t);
      forall x | x in top
        ensures x in cut
      {
        FlattenMembers(CutEach(lists, k), x);
      }
      SubsetIsSmaller(AtLeast(top, t), AtLeast(cut, t));
    } else {
      assert AtLeast(cut, t) == AtLeast(full, t);
    }
  }

  /** Cutting every search list to its own k best hits before merging loses nothing: the scores that
    * come back are those of the k best documents over the uncut lists.
    */
  lemma CutLosesNothing<M>(lists: seq<seq<Hit<M>>>, k: nat)
    requires SearchLists(lists)
    ensures Merge(Flatten(CutEach(lists, k)), k).Ok?
    ensures Scores(Merge(Flatten(CutEach(lists, k)), k).value) == Scores(Take(Ranked(Flatten(lists)), k))
  {
    var cut, full := Flatten(CutEach(lists, k)), Flatten(lists);
    MergeIsRanked(cut, k);
    if k == 0 {
      NothingLeft(lists);
      NothingRanked<M>();
    } else {
      hide Flatten, CutEach, SearchLists, AtLeast, Documents, Ranked, Merge, Scores;
      RankedCounts(cut);
      RankedCounts(full);
      forall t
        ensures Min(k, |AtLeast(Ranked(cut), t)|) == Min(k, |AtLeast(Ranked(full), t)|)
      {
        CutKeepsCounts(lists, k, t);
        assert AtLeast(Ranked(cut), t) == AtLeast(cut, t) && AtLeast(Ranked(full), t) == AtLeast(full, t);
      }
      TopKByCount(Ranked(cut), Ranked(full), k);
    }
  }

  lemma MergeIsRanked<M>(hits: seq<Hit<M>>, k: nat)
    ensures k >= 1 || Ranked(hits) == [] ==> Merge(hits, k) == Ok(Take(Ranked(hits), k))
  {
  }

  lemma NothingRanked<M>()
    ensures Ranked<M>([]) == []
  {
  }

  lemma {:induction false} NothingLeft<M>(lists: seq<seq<Hit<M>>>)
    ensures Flatten(CutEach(lists, 0)) == []
  {
    if lists != [] {
      NothingLeft(lists[1..]);
      assert CutEach(lists, 0)[1..] == CutEach(lists[1..], 0);
      assert CutEach(lists, 0)[0] == [];
    }
  }

  // ---------- query_collection ----------

  datatype Search<M> = Found(result: QueryResult<M>) | NoResult | Raised

  /** The outcome of the search for a query in a collection, both by position: a query or a collection
    * listed twice may be answered differently.
    */
  type Searches<M> = (nat, nat) -> Search<M>

  /** The result lists of query `q`, collection by collection: empty names, empty answers
    * and failed searches leave nothing.
    */
  function Answers<M>(names: seq<string>, q: nat, search: Searches<M>): seq<QueryResult<M>> {
    if names == [] then []
    else
      var c := |names| - 1;
      Answers(names[..c], q, search)
      + if names[c] != "" && search(q, c).Found? then [search(q, c).result] else []
  }

  function AllAnswers<M>(names: seq<string>, queries: nat, search: Searches<M>): seq<QueryResult<M>> {
    if queries == 0 then []
    else AllAnswers(names, queries - 1, search) + Answers(names, queries - 1, search)
  }

  method SearchEach<M>(names: seq<string>, q: nat, search: Searches<M>) returns (results: seq<QueryResult<M>>)
    ensures results == Answers(names, q, search)
  {
    results := [];
    for c := 0 to |names|
      invariant results == Answers(names[..c], q, search)
    {
      if names[c] != "" {
        match search(q, c) {
          case Found(result) => results := results + [result];
          case NoResult =>
          case Raised =>
        }
      }
      assert names[..c + 1][..c] == names[..c];
    }
    assert names[..|names|] == names;
  }

  method QueryCollection<H(!new, ==), M>(
    names: seq<string>, queries: seq<string>, search: Searches<M>, md5: string -> H, k: int
  )
    returns (r: Result<seq<Hit<M>>, MergeError>)
    requires Injective(md5)
    ensures r == Merge(AllHits(AllAnswers(names, |queries|, search)), k)
  {
    var results: seq<QueryResult<M>> := [];
    for q := 0 to |queries|
      invariant results == AllAnswers(names, q, search)
    {
      var answers := SearchEach(names, q, search);
      results := results + answers;
    }
    r := MergeAndSortQueryResults(results, md5, k);
  }

  /** The hit lists of the answers, one list an answer. */
  function HitLists<M>(results: seq<QueryResult<M>>): seq<seq<Hit<M>>> {
    seq(|results|, i requires 0 <= i < |results| => Hits(results[i]))
  }

  lemma {:induction false} AllHitsFlatten<M>(results: seq<QueryResult<M>>)
    ensures AllHits(results) == Flatten(HitLists(results))
  {
    if results != [] {
      AllHitsFlatten(results[1..]);
      assert HitLists(results)[1..] == HitLists(results[1..]);
    }
  }

  /** The full lists behind the answers, had no search been cut. */
  function Uncut<M>(
    names: seq<string>, q: nat, search: Searches<M>, full: (nat, nat) -> seq<Hit<M>>
  ): seq<seq<Hit<M>>> {
    if names == [] then []
    else
      var c := |names| - 1;
      Uncut(names[..c], q, search, full) + if names[c] != "" && search(q, c).Found? then [full(q, c)] else []
  }

  function AllUncut<M>(
    names: seq<string>, queries: nat, search: Searches<M>, full: (nat, nat) -> seq<Hit<M>>
  ): seq<seq<Hit<M>>> {
    if queries == 0 then []
    else AllUncut(names, queries - 1, search, full) + Uncut(names, queries - 1, search, full)
  }

  /** Every search that answers returns the k best hits of a sorted list without duplicates. */
  ghost predicate SearchesTopK<M(!new)>(search: Searches<M>, full: (nat, nat) -> seq<Hit<M>>, k: nat) {
    forall q: nat, c: nat :: search(q, c).Found? ==>
      SearchList(full(q, c)) && Hits(search(q, c).result) == Take(full(q, c), k)
  }

  lemma Distribute<M>(a: seq<QueryResult<M>>, b: seq<QueryResult<M>>, x: seq<seq<Hit<M>>>, y: seq<seq<Hit<M>>>, k: nat)
    ensures HitLists(a + b) == HitLists(a) + HitLists(b)
    ensures CutEach(x + y, k) == CutEach(x, k) + CutEach(y, k)
    ensures SearchLists(x) && SearchLists(y) ==> SearchLists(x + y)
  {
  }

  lemma {:induction false} AnswersAreCut<M(!new)>(
    names: seq<string>, q: nat, search: Searches<M>, full: (nat, nat) -> seq<Hit<M>>, k: nat
  )
    requires SearchesTopK(search, full, k)
    ensures HitLists(Answers(names, q, search)) == CutEach(Uncut(names, q, search, full), k)
    ensures SearchLists(Uncut(names, q, search, full))
  {
    if names != [] {
      var c := |names| - 1;
      AnswersAreCut(names[..c], q, search, full, k);
      var found := names[c] != "" && search(q, c).Found?;
      var a := if found then [search(q, c).result] else [];
      var x := if found then [full(q, c)] else [];
      assert HitLists(a) == CutEach(x, k);
      Distribute(Answers(names[..c], q, search), a, Uncut(names[..c], q, search, full), x, k);
    }
  }

  lemma {:induction false} AllAnswersAreCut<M(!new)>(
    names: seq<string>, queries: nat, search: Searches<M>, full: (nat, nat) -> seq<Hit<M>>, k: nat
  )
    requires SearchesTopK(search, full, k)
    ensures HitLists(AllAnswers(names, queries, search)) == CutEach(AllUncut(names, queries, search, full), k)
    ensures SearchLists(AllUncut(names, queries, search, full))
  {
    if queries > 0 {
      var q := queries - 1;
      AllAnswersAreCut(names, q, search, full, k);
      AnswersAreCut(names, q, search, full, k);
      Distribute(AllAnswers(names, q, search), Answers(names, q, search),
                 AllUncut(names, q, search, full), Uncut(names, q, search, full), k);
    }
  }

  // ---------- which searches count ----------

  /** A query and a collection, by position. */
  datatype Pair = Pair(query: nat, collection: nat)

  predicate Before(a: Pair, b: Pair) {
    a.query < b.query || (a.query == b.query && a.collection < b.collection)
  }

  /** The collection has a name, and the search comes back with something. */
  predicate Counts<M>(names: seq<string>, search: Searches<M>, p: Pair) {
    p.collection < |names| && names[p.collection] != "" && search(p.query, p.collection).Found?
  }

  /** These searches and no others, query by query and collection by collection. */
  ghost predicate AreSearches<M>(names: seq<string>, search: Searches<M>, at: seq<Pair>, q: nat, c: nat) {
    && (forall i, j :: 0 <= i < j < |at| ==> Before(at[i], at[j]))
    && forall p :: p in at <==> Counts(names, search, p) && Before(p, Pair(q, c))
  }

  /** What they bring, cut or not. */
  ghost predicate Bring<M>(
    search: Searches<M>, full: (nat, nat) -> seq<Hit<M>>, at: seq<Pair>,
    results: seq<QueryResult<M>>, uncut: seq<seq<Hit<M>>>
  ) {
    && |results| == |uncut| == |at|
    && forall i :: 0 <= i < |at| ==>
         search(at[i].query, at[i].collection) == Found(results[i]) && uncut[i] == full(at[i].query, at[i].collection)
  }

  lemma OneMoreSearch<M>(names: seq<string>, search: Searches<M>, at: seq<Pair>, q: nat, c: nat)
    requires c < |names| && AreSearches(names, search, at, q, c)
    ensures AreSearches(names, search, if Counts(names, search, Pair(q, c)) then at + [Pair(q, c)] else at, q, c + 1)
  {
    var here := Pair(q, c);
    forall p
      ensures Before(p, Pair(q, c + 1)) <==> Before(p, here) || p == here
    {
      assert p == Pair(p.query, p.collection);
    }
    assert forall i :: 0 <= i < |at| ==> at[i] in at;
  }

  lemma NextQuery<M>(names: seq<string>, search: Searches<M>, at: seq<Pair>, q: nat)
    requires AreSearches(names, search, at, q, |names|)
    ensures AreSearches(names, search, at, q + 1, 0)
  {
    assert forall p :: Counts(names, search, p) ==> (Before(p, Pair(q + 1, 0)) <==> Before(p, Pair(q, |names|)));
  }

  lemma BringMore<M>(
    search: Searches<M>, full: (nat, nat) -> seq<Hit<M>>, at: seq<Pair>, a: seq<QueryResult<M>>, x: seq<seq<Hit<M>>>,
    p: Pair, more: seq<QueryResult<M>>, uncut: seq<seq<Hit<M>>>
  )
    requires Bring(search, full, at, a + more, x + uncut) && search(p.query, p.collection).Found?
    ensures Bring(search, full, at + [p], a + (more + [search(p.query, p.collection).result]),
                  x + (uncut + [full(p.query, p.collection)]))
  {
    assert a + (more + [search(p.query, p.collection).result]) == (a + more) + [search(p.query, p.collection).result];
    assert x + (uncut + [full(p.query, p.collection)]) == (x + uncut) + [full(p.query, p.collection)];
  }

  lemma {:induction false} AnswersOfQuery<M>(
    names: seq<string>, q: nat, c: nat, search: Searches<M>, full: (nat, nat) -> seq<Hit<M>>,
    a: seq<QueryResult<M>>, x: seq<seq<Hit<M>>>, before: seq<Pair>
  )
    returns (at: seq<Pair>)
    requires c <= |names| && AreSearches(names, search, before, q, 0) && Bring(search, full, before, a, x)
    ensures AreSearches(names, search, at, q, c)
    ensures Bring(search, full, at, a + Answers(names[..c], q, search), x + Uncut(names[..c], q, search, full))
  {
    hide AreSearches, Bring;
    at := before;
    if c == 0 {
      assert a + [] == a && x + [] == x;
    } else {
      at := AnswersOfQuery(names, q, c - 1, search, full, a, x, before);
      OneMoreSearch(names, search, at, q, c - 1);
      assert names[..c][..c - 1] == names[..c - 1];
      var more, uncut := Answers(names[..c - 1], q, search), Uncut(names[..c - 1], q, search, full);
      if Counts(names, search, Pair(q, c - 1)) {
        BringMore(search, full, at, a, x, Pair(q, c - 1), more, uncut);
        at := at + [Pair(q, c - 1)];
      } else {
        assert more + [] == more && uncut + [] == uncut;
      }
    }
  }

  /** The answers are those of the named collections whose search comes back with something, in order. */
  lemma {:induction false} AnswersArePlaced<M>(
    names: seq<string>, queries: nat, search: Searches<M>, full: (nat, nat) -> seq<Hit<M>>
  )
    returns (at: seq<Pair>)
    ensures AreSearches(names, search, at, queries, 0)
    ensures Bring(search, full, at, AllAnswers(names, queries, search), AllUncut(names, queries, search, full))
  {
    at := [];
    if queries > 0 {
      hide AreSearches, Bring;
      var q := queries - 1;
      at := AnswersArePlaced(names, q, search, full);
      at := AnswersOfQuery(names, q, |names|, search, full,
                           AllAnswers(names, q, search), AllUncut(names, q, search, full), at);
      assert names[..|names|] == names;
      NextQuery(names, search, at, q);
    }
  }

  lemma RankedDocuments<M>(hits: seq<Hit<M>>)
    ensures |Ranked(hits)| == |Documents(hits)|
  {
    RankedCounts(hits);
    forall d
      ensures d in Documents(Ranked(hits)) <==> d in Documents(hits)
    {
      if h :| h in hits && h.document == d {
        assert d in AtLeast(hits, h.score);
      }
      if h :| h in Ranked(hits) && h.document == d {
        assert d in AtLeast(Ranked(hits), h.score);
      }
    }
    assert Documents(Ranked(hits)) == Documents(hits);
  }

  /** The scores returned, by counting: position i reaches t exactly if more than i documents do. */
  ghost predicate TopScores<M>(scores: seq<real>, hits: seq<Hit<M>>, k: nat) {
    && |scores| == Min(k, |Documents(hits)|)
    && forall i, t :: 0 <= i < |scores| ==> (scores[i] >= t <==> i < |AtLeast(hits, t)|)
  }

  lemma RankedTopScores<M>(hits: seq<Hit<M>>, k: nat)
    ensures TopScores(Scores(Take(Ranked(hits), k)), hits, k)
  {
    hide Ranked, Documents, AtLeast;
    RankedCounts(hits);
    RankedDocuments(hits);
    forall i, t | 0 <= i < |Take(Ranked(hits), k)|
      ensures Take(Ranked(hits), k)[i].score >= t <==> i < |AtLeast(hits, t)|
    {
      RankByCount(Ranked(hits), i, t);
    }
  }

  /** When every search returns its own top k, `query_collection` returns the scores of the k
    * best documents over all the uncut lists.
    */
  lemma QueryCollectionIsGlobalTopK<M(!new)>(
    names: seq<string>, queries: nat, search: Searches<M>, full: (nat, nat) -> seq<Hit<M>>, k: nat
  )
    requires SearchesTopK(search, full, k)
    ensures
      var merged := Merge(AllHits(AllAnswers(names, queries, search)), k);
      && merged.Ok?
      && Scores(merged.value) == Scores(Take(Ranked(Flatten(AllUncut(names, queries, search, full))), k))
      && TopScores(Scores(merged.value), Flatten(AllUncut(names, queries, search, full)), k)
  {
    RankedTopScores(Flatten(AllUncut(names, queries, search, full)), k);
    AllHitsFlatten(AllAnswers(names, queries, search));
    AllAnswersAreCut(names, queries, search, full, k);
    CutLosesNothing(AllUncut(names, queries, search, full), k);
  }
}
