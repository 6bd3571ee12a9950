/** backend/open_webui/retrieval/utils.py: `RerankCompressor.compress_documents` and the final
  * cut in `query_doc_with_hybrid_search`.
  */
module Rerank {
  import opened Numbers
  import opened Sorting
  import opened Wrappers

  datatype Value = Number(n: real) | Other(text: string)

  datatype Document = Document(content: string, metadata: map<string, Value>)

  datatype Scored = Scored(document: Document, score: real)

  function Score(s: Scored): real {
    s.score
  }

  function Zip(documents: seq<Document>, scores: seq<real>): seq<Scored> {
    if documents == [] || scores == [] then []
    else [Scored(documents[0], scores[0])] + Zip(documents[1..], scores[1..])
  }

  /** A zero threshold lets everything pass. */
  predicate Passes(s: Scored, threshold: real) {
    threshold == 0.0 || s.score >= threshold
  }

  function Passing(xs: seq<Scored>, threshold: real): seq<Scored> {
    if xs == [] then []
    else (if Passes(xs[0], threshold) then [xs[0]] else []) + Passing(xs[1..], threshold)
  }

  /** The score is written into the metadata. */
  function Stamp(s: Scored): Document {
    s.document.(metadata := s.document.metadata["score" := Number(s.score)])
  }

  function StampAll(xs: seq<Scored>): seq<Document> {
    seq(|xs|, i requires 0 <= i < |xs| => Stamp(xs[i]))
  }

  function Compress(documents: seq<Document>, scores: seq<real>, threshold: real, topN: int): seq<Scored> {
    Take(SortDescending(Passing(Zip(documents, scores), threshold), Score), topN)
  }

  // ---------- the documents to keep, by position ----------

  predicate Good(threshold: real, score: real) {
    threshold == 0.0 || score >= threshold
  }

  /** The higher score comes first, and of equal scores the earlier document. */
  predicate Better(scores: seq<real>, i: nat, j: nat) {
    i < |scores| && j < |scores| && (scores[i] > scores[j] || (scores[i] == scores[j] && i < j))
  }

  /** The positions of the best `n` of the scored documents that are good enough, best first. */
  ghost predicate IsTop(documents: seq<Document>, scores: seq<real>, threshold: real, n: nat, at: seq<nat>) {
    && |at| <= n
    && (forall i :: 0 <= i < |at| ==> at[i] < |documents| && at[i] < |scores| && Good(threshold, scores[at[i]]))
    && (forall i, j :: 0 <= i < j < |at| ==> Better(scores, at[i], at[j]))
    && forall p :: 0 <= p < |documents| && p < |scores| && Good(threshold, scores[p]) && p !in at ==>
         |at| == n && forall i :: 0 <= i < |at| ==> Better(scores, at[i], p)
  }

  lemma {:induction false} ZipIs(documents: seq<Document>, scores: seq<real>)
    ensures |Zip(documents, scores)| == Min(|documents|, |scores|)
    ensures forall i :: 0 <= i < |Zip(documents, scores)| ==>
              Zip(documents, scores)[i] == Scored(documents[i], scores[i])
  {
    if documents != [] && scores != [] {
      ZipIs(documents[1..], scores[1..]);
    }
  }

  lemma {:induction false} PassingAt(xs: seq<Scored>, threshold: real) returns (at: seq<nat>)
    ensures InRange(at, |xs|) && Picks(xs, at, Passing(xs, threshold))
    ensures forall i, j :: 0 <= i < j < |at| ==> at[i] < at[j]
    ensures forall p :: p in at <==> 0 <= p < |xs| && Good(threshold, xs[p].score)
  {
    at := [];
    if xs != [] {
      var n := |xs| - 1;
      at := PassingAt(xs[..n], threshold);
      PassingAppend(xs[..n], xs[n], threshold);
      assert xs == xs[..n] + [xs[n]];
      if Good(threshold, xs[n].score) {
        at := at + [n];
      }
    }
  }

  lemma RanksInOrder(documents: seq<Document>, scores: seq<real>, f: seq<nat>, passing: seq<Scored>, r: seq<nat>)
    requires InRange(f, |Zip(documents, scores)|) && Picks(Zip(documents, scores), f, passing)
    requires forall i, j :: 0 <= i < j < |f| ==> f[i] < f[j]
    requires InRange(r, |f|) && ByRank(passing, Score, r)
    ensures forall i, j :: 0 <= i < j < |r| ==> Better(scores, f[r[i]], f[r[j]])
  {
    ZipIs(documents, scores);
    forall i, j | 0 <= i < j < |r|
      ensures Better(scores, f[r[i]], f[r[j]])
    {
      assert Precedes(passing, Score, r[i], r[j]);
    }
  }

  function Through(f: seq<nat>, r: seq<nat>, m: nat): (at: seq<nat>)
    requires m <= |r| && InRange(r, |f|)
    ensures |at| == m && forall i :: 0 <= i < m ==> at[i] == f[r[i]]
  {
    seq(m, i requires 0 <= i < m => f[r[i]])
  }

  /** What the cut leaves out comes after all that it keeps. */
  lemma LeftOut(scores: seq<real>, f: seq<nat>, r: seq<nat>, n: nat, p: nat)
    requires InRange(r, |f|) && Everywhere(r, |f|)
    requires forall i, j :: 0 <= i < j < |r| ==> Better(scores, f[r[i]], f[r[j]])
    requires p in f && p !in Through(f, r, Min(n, |r|))
    ensures n <= |r| && forall i :: 0 <= i < n ==> Better(scores, f[r[i]], p)
  {
    hide Better, Through;
    var m := Min(n, |r|);
    var at := Through(f, r, m);
    assert forall i :: 0 <= i < m ==> at[i] in at;
    var q :| 0 <= q < |f| && f[q] == p;
    assert q in r;
    var j :| 0 <= j < |r| && r[j] == q;
  }

  /** The first `n` of the ranked passing documents, and their positions. */
  lemma TopAt(documents: seq<Document>, scores: seq<real>, threshold: real, n: nat) returns (at: seq<nat>)
    ensures IsTop(documents, scores, threshold, n, at)
    ensures
      var all := Zip(documents, scores);
      InRange(at, |all|) && Picks(all, at, Take(SortDescending(Passing(all, threshold), Score), n))
  {
    hide Passing, Zip, SortDescending, ByRank, Better, Through, Good, Everywhere;
    var all := Zip(documents, scores);
    var passing := Passing(all, threshold);
    ZipIs(documents, scores);
    var f := PassingAt(all, threshold);
    var r := SortIsRanked(passing, Score);
    at := Through(f, r, Min(n, |r|));
    RanksInOrder(documents, scores, f, passing, r);
    assert forall i :: 0 <= i < |at| ==> at[i] in f;
    forall p | 0 <= p < |documents| && p < |scores| && Good(threshold, scores[p]) && p !in at
      ensures |at| == n && forall i :: 0 <= i < |at| ==> Better(scores, at[i], p)
    {
      LeftOut(scores, f, r, n, p);
    }
  }

  method ZipDocuments(documents: seq<Document>, scores: seq<real>) returns (scored: seq<Scored>)
    ensures scored == Zip(documents, scores)
  {
    scored := [];
    var i := 0;
    while i < |documents| && i < |scores|
      invariant i <= |documents| && i <= |scores|
      invariant scored + Zip(documents[i..], scores[i..]) == Zip(documents, scores)
    {
      assert documents[i..][1..] == documents[i + 1..] && scores[i..][1..] == scores[i + 1..];
      var one := [Scored(documents[i], scores[i])];
      var rest := Zip(documents[i + 1..], scores[i + 1..]);
      assert scored + (one + rest) == (scored + one) + rest;
      scored := scored + one;
      i := i + 1;
    }
  }

  method KeepPassing(scored: seq<Scored>, threshold: real) returns (kept: seq<Scored>)
    requires threshold != 0.0
    ensures kept == Passing(scored, threshold)
  {
    kept := [];
    for j := 0 to |scored|
      invariant kept == Passing(scored[..j], threshold)
    {
      PassingAppend(scored[..j], scored[j], threshold);
      assert scored[..j + 1] == scored[..j] + [scored[j]];
      if scored[j].score >= threshold {
        kept := kept + [scored[j]];
      }
    }
    assert scored[..|scored|] == scored;
  }

  lemma {:induction false} PassingAppend(xs: seq<Scored>, x: Scored, threshold: real)
    ensures Passing(xs + [x], threshold)
            == Passing(xs, threshold) + if Passes(x, threshold) then [x] else []
  {
    if xs != [] {
      PassingAppend(xs[1..], x, threshold);
      assert (xs + [x])[1..] == xs[1..] + [x];
    }
  }

  method CompressDocuments(documents: seq<Document>, scores: seq<real>, threshold: real, topN: int)
    returns (final: seq<Document>)
    ensures final == StampAll(Compress(documents, scores, threshold, topN))
    ensures 0 <= topN ==>
              exists at :: IsTop(documents, scores, threshold, topN, at) && Keeps(documents, scores, at, final)
  {
    hide IsTop, Keeps;
    var scored := ZipDocuments(documents, scores);
    if threshold != 0.0 {
      scored := KeepPassing(scored, threshold);
    } else {
      AllPass(scored);
    }
    var best := Take(SortDescending(scored, Score), topN);
    final := [];
    for j := 0 to |best|
      invariant |final| == j && forall m :: 0 <= m < j ==> final[m] == Stamp(best[m])
    {
      final := final + [Stamp(best[j])];
    }
    if 0 <= topN {
      CompressIsTop(documents, scores, threshold, topN);
    }
  }

  lemma CompressIsTop(documents: seq<Document>, scores: seq<real>, threshold: real, n: nat)
    ensures exists at :: IsTop(documents, scores, threshold, n, at)
                         && Keeps(documents, scores, at, StampAll(Compress(documents, scores, threshold, n)))
  {
    hide IsTop;
    var at := TopAt(documents, scores, threshold, n);
    ZipIs(documents, scores);
    assert Keeps(documents, scores, at, StampAll(Compress(documents, scores, threshold, n)));
  }

  /** The documents at these positions, with their scores in their metadata. */
  predicate Keeps(documents: seq<Document>, scores: seq<real>, at: seq<nat>, final: seq<Document>)
  {
    && |final| == |at|
    && forall i :: 0 <= i < |at| ==>
         && at[i] < |documents| && at[i] < |scores|
         && final[i].content == documents[at[i]].content
         && final[i].metadata == documents[at[i]].metadata["score" := Number(scores[at[i]])]
  }

  lemma {:induction false} AllPass(xs: seq<Scored>)
    ensures Passing(xs, 0.0) == xs
  {
    if xs != [] {
      AllPass(xs[1..]);
    }
  }

  // ---------- query_doc_with_hybrid_search ----------

  /** What comes back: the reranked documents with their scores, or, when the cut leaves
    * nothing to unzip and the exception is caught, a plain vector search.
    */
  datatype Hybrid = Reranked(kept: seq<Scored>) | VectorFallback

  function HybridSearch(
    documents: seq<Document>, scores: seq<real>, threshold: real, k: int, kReranker: int
  ): Hybrid {
    var result := Compress(documents, scores, threshold, kReranker);
    if k < kReranker then
      var cut := Take(SortDescending(result, Score), k);
      if cut == [] then VectorFallback else Reranked(cut)
    else Reranked(result)
  }

  /** The three parallel lists that are returned. */
  datatype Answer = Answer(distances: seq<real>, documents: seq<string>, metadatas: seq<map<string, Value>>)

  function AnswerOf(kept: seq<Scored>): Answer {
    Answer(
      seq(|kept|, i requires 0 <= i < |kept| => kept[i].score),
      seq(|kept|, i requires 0 <= i < |kept| => kept[i].document.content),
      seq(|kept|, i requires 0 <= i < |kept| => kept[i].document.metadata["score" := Number(kept[i].score)])
    )
  }

  /** A stamped document together with the score read back from it. */
  function ReadBack(s: Scored): Scored {
    Scored(Stamp(s), s.score)
  }

  function ReadBackAll(xs: seq<Scored>): seq<Scored> {
    seq(|xs|, i requires 0 <= i < |xs| => ReadBack(xs[i]))
  }

  lemma {:induction false} InsertReadBack(x: Scored, ys: seq<Scored>)
    ensures Insert(ReadBack(x), ReadBackAll(ys), Score) == ReadBackAll(Insert(x, ys, Score))
  {
    var zs := ReadBackAll(ys);
    if ys != [] && !(Score(x) >= Score(ys[0])) {
      InsertReadBack(x, ys[1..]);
      assert zs[1..] == ReadBackAll(ys[1..]);
    }
  }

  lemma {:induction false} SortReadBack(xs: seq<Scored>)
    ensures SortDescending(ReadBackAll(xs), Score) == ReadBackAll(SortDescending(xs, Score))
  {
    if xs != [] {
      SortReadBack(xs[1..]);
      assert ReadBackAll(xs)[1..] == ReadBackAll(xs[1..]);
      InsertReadBack(xs[0], SortDescending(xs[1..], Score));
    }
  }

  /** The scores are read back from the documents into which the compressor wrote them. */
  method ReadScores(result: seq<Document>, ghost compressed: seq<Scored>) returns (items: seq<Scored>)
    requires result == StampAll(compressed)
    ensures items == ReadBackAll(compressed)
  {
    items := [];
    for j := 0 to |result|
      invariant |items| == j && forall m :: 0 <= m < j ==> items[m] == ReadBack(compressed[m])
    {
      assert result[j] == Stamp(compressed[j]);
      var score := match result[j].metadata["score"] case Number(n) => n;
      items := items + [Scored(result[j], score)];
    }
  }

  method Unzip(items: seq<Scored>, ghost kept: seq<Scored>) returns (answer: Answer)
    requires items == ReadBackAll(kept)
    ensures answer == AnswerOf(kept)
  {
    answer := Answer(
      seq(|items|, i requires 0 <= i < |items| => items[i].score),
      seq(|items|, i requires 0 <= i < |items| => items[i].document.content),
      seq(|items|, i requires 0 <= i < |items| => items[i].document.metadata)
    );
  }

  lemma TakeReadBack(xs: seq<Scored>, k: int)
    ensures Take(ReadBackAll(xs), k) == ReadBackAll(Take(xs, k))
  {
  }

  /** From the compressor's documents to the answer; `None` is the fallback. */
  method QueryDocWithHybridSearch(documents: seq<Document>, scores: seq<real>, threshold: real, k: int, kReranker: int)
    returns (answer: Option<Answer>)
    ensures answer == match HybridSearch(documents, scores, threshold, k, kReranker)
                      case Reranked(kept) => Some(AnswerOf(kept))
                      case VectorFallback => None
    ensures 0 <= k && 0 <= kReranker && answer.Some? ==>
              exists at :: IsTop(documents, scores, threshold, Min(k, kReranker), at)
                           && Answers(documents, scores, at, answer.value)
    ensures 0 <= k && 0 <= kReranker ==>
              (answer.None? <==>
               k < kReranker
               && (k == 0 || forall p :: 0 <= p < |documents| && p < |scores| ==> !Good(threshold, scores[p])))
  {
    if 0 <= k && 0 <= kReranker {
      AnswerIsTop(documents, scores, threshold, k, kReranker);
    }
    hide Compress, StampAll, AnswerOf, SortDescending, Take, ReadBack;
    var result := CompressDocuments(documents, scores, threshold, kReranker);
    ghost var kept := Compress(documents, scores, threshold, kReranker);
    var items := ReadScores(result, kept);
    if k < kReranker {
      SortReadBack(kept);
      TakeReadBack(SortDescending(kept, Score), k);
      kept := Take(SortDescending(kept, Score), k);
      items := Take(SortDescending(items, Score), k);
      if items == [] {
        assert |kept| == |items|;
        return None;
      }
      assert |kept| == |items|;
    }
    var lists := Unzip(items, kept);
    answer := Some(lists);
  }

  lemma {:induction false} PassingMembers(xs: seq<Scored>, threshold: real)
    ensures forall x :: x in Passing(xs, threshold) <==> x in xs && Passes(x, threshold)
  {
    if xs != [] {
      PassingMembers(xs[1..], threshold);
      assert xs == [xs[0]] + xs[1..];
    }
  }

  lemma TakeKeepsOrder(xs: seq<Scored>, k: int)
    requires Descending(xs, Score)
    ensures Descending(Take(xs, k), Score)
  {
  }

  /** Parallel lists of scores, contents and metadata, each of the document at its position. */
  predicate Answers(documents: seq<Document>, scores: seq<real>, at: seq<nat>, answer: Answer) {
    && |answer.distances| == |answer.documents| == |answer.metadatas| == |at|
    && forall i :: 0 <= i < |at| ==>
         && at[i] < |documents| && at[i] < |scores|
         && answer.distances[i] == scores[at[i]]
         && answer.documents[i] == documents[at[i]].content
         && answer.metadatas[i] == documents[at[i]].metadata["score" := Number(scores[at[i]])]
  }

  lemma PicksAnswer(documents: seq<Document>, scores: seq<real>, at: seq<nat>, kept: seq<Scored>)
    requires InRange(at, |Zip(documents, scores)|) && Picks(Zip(documents, scores), at, kept)
    ensures Answers(documents, scores, at, AnswerOf(kept))
  {
    ZipIs(documents, scores);
  }

  lemma AnswerIsTop(documents: seq<Document>, scores: seq<real>, threshold: real, k: nat, kReranker: nat)
    ensures
      match HybridSearch(documents, scores, threshold, k, kReranker)
      case Reranked(kept) =>
        exists at :: IsTop(documents, scores, threshold, Min(k, kReranker), at)
                     && Answers(documents, scores, at, AnswerOf(kept))
      case VectorFallback => true
    ensures HybridSearch(documents, scores, threshold, k, kReranker) == VectorFallback <==>
            k < kReranker
            && (k == 0 || forall p :: 0 <= p < |documents| && p < |scores| ==> !Good(threshold, scores[p]))
  {
    hide IsTop, Answers, HybridSearch, AnswerOf;
    HybridIsOneCut(documents, scores, threshold, k, kReranker);
    FallsBackIff(documents, scores, threshold, k, kReranker);
    ZipIs(documents, scores);
    var at := TopAt(documents, scores, threshold, Min(k, kReranker));
    PicksAnswer(documents, scores, at,
                Take(SortDescending(Passing(Zip(documents, scores), threshold), Score), Min(k, kReranker)));
    assert forall p :: 0 <= p < |documents| && p < |scores| ==> Zip(documents, scores)[p] in Zip(documents, scores);
  }

  /** Sorting the compressor's output again, and cutting twice, amounts to one cut of one sort. */
  lemma HybridIsOneCut(documents: seq<Document>, scores: seq<real>, threshold: real, k: nat, kReranker: nat)
    ensures
      var passing := Passing(Zip(documents, scores), threshold);
      HybridSearch(documents, scores, threshold, k, kReranker)
      == if k < kReranker && (k == 0 || passing == []) then VectorFallback
         else Reranked(Take(SortDescending(passing, Score), Min(k, kReranker)))
  {
    var sorted := SortDescending(Passing(Zip(documents, scores), threshold), Score);
    SortIsStable(Passing(Zip(documents, scores), threshold), Score);
    TakeKeepsOrder(sorted, kReranker);
    SortedIsFixed(Take(sorted, kReranker), Score);
  }

  /** The reranked result holds as many documents as the limits and the threshold allow, best
    * first, all of them scored documents that pass, and nothing better is left out.
    */
  lemma RerankGuarantee(documents: seq<Document>, scores: seq<real>, threshold: real, k: nat, kReranker: nat)
    requires HybridSearch(documents, scores, threshold, k, kReranker).Reranked?
    ensures
      var kept := HybridSearch(documents, scores, threshold, k, kReranker).kept;
      var all := Zip(documents, scores);
      && |kept| == Min(|Passing(all, threshold)|, Min(k, kReranker))
      && Descending(kept, Score)
      && (forall x :: x in kept ==> x in all && Passes(x, threshold))
      && forall x, y :: x in all && Passes(x, threshold) && x !in kept && y in kept ==> x.score <= y.score
  {
    var all := Zip(documents, scores);
    var passing := Passing(all, threshold);
    var sorted := SortDescending(passing, Score);
    HybridIsOneCut(documents, scores, threshold, k, kReranker);
    SortIsStable(passing, Score);
    SortMembers(passing, Score);
    PassingMembers(all, threshold);
    var n := Min(k, kReranker);
    TakeKeepsOrder(sorted, n);
    var kept := Take(sorted, n);
    forall x | x in kept
      ensures x in sorted
    {
    }
    forall x, y | x in all && Passes(x, threshold) && x !in kept && y in kept
      ensures x.score <= y.score
    {
      assert x in sorted;
      LeftBehind(sorted, n, x, y);
    }
  }

  lemma LeftBehind(sorted: seq<Scored>, n: int, x: Scored, y: Scored)
    requires Descending(sorted, Score) && n >= 0
    requires x in sorted && x !in Take(sorted, n) && y in Take(sorted, n)
    ensures x.score <= y.score
  {
    var i :| 0 <= i < |sorted| && sorted[i] == x;
    var j :| 0 <= j < |Take(sorted, n)| && Take(sorted, n)[j] == y;
    assert sorted == Take(sorted, n) + sorted[|Take(sorted, n)|..];
    assert Score(sorted[j]) >= Score(sorted[i]) || i < j;
  }

  /** The rerank guarantee applies unless the reranker keeps more than k and either k is zero or nothing
    * passes the threshold: the empty cut is then answered by an unfiltered vector search.
    */
  lemma FallsBackIff(documents: seq<Document>, scores: seq<real>, threshold: real, k: nat, kReranker: nat)
    ensures HybridSearch(documents, scores, threshold, k, kReranker) == VectorFallback
            <==> k < kReranker && (k == 0 || forall x :: x in Zip(documents, scores) ==> !Passes(x, threshold))
  {
    var all := Zip(documents, scores);
    HybridIsOneCut(documents, scores, threshold, k, kReranker);
    PassingMembers(all, threshold);
    var passing := Passing(all, threshold);
    assert passing == [] <==> forall x :: x !in passing by {
      if passing != [] {
        assert passing[0] in passing;
      }
    }
  }

  /** How many of n entries Python's slice keeps: a negative number counts from the end. */
  function CutLength(n: nat, k: int): nat {
    if k >= n then n else if k >= 0 then k else if n + k >= 0 then n + k else 0
  }

  /** For any two settings, negative ones included, only the number of passing documents counts. */
  lemma FallsBackByLength(documents: seq<Document>, scores: seq<real>, threshold: real, k: int, kReranker: int)
    ensures
      var passing := Passing(Zip(documents, scores), threshold);
      HybridSearch(documents, scores, threshold, k, kReranker) == VectorFallback
      <==> k < kReranker && CutLength(CutLength(|passing|, kReranker), k) == 0
  {
    var sorted := SortDescending(Passing(Zip(documents, scores), threshold), Score);
    assert |Take(sorted, kReranker)| == CutLength(|sorted|, kReranker);
  }

  /** One document below the threshold is enough; when k is zero, so is none at all, or one above it. */
  lemma FallbackHappens()
    ensures HybridSearch([Document("d", map[])], [0.1], 0.9, 1, 2) == VectorFallback
    ensures HybridSearch([Document("d", map[])], [0.1], 0.9, 2, 2) == Reranked([])
    ensures HybridSearch([], [], 0.9, 0, 2) == VectorFallback
    ensures HybridSearch([Document("d", map[])], [0.95], 0.9, 0, 2) == VectorFallback
  {
    var d := Document("d", map[]);
    assert Zip([d], [0.1]) == [Scored(d, 0.1)];
    assert Passing([Scored(d, 0.1)], 0.9) == [];
    FallsBackIff([d], [0.95], 0.9, 0, 2);
  }
}
