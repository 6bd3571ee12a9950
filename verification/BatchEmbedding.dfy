/** backend/open_webui/retrieval/utils.py: embedding a list of texts in batches, with
  * adaptive splitting of the batches a provider finds too large.
  */
module BatchEmbedding {
  import opened Collections
  import opened Sorting
  import opened Wrappers

  /** What one call to the provider does. */
  datatype Reply<V> = Vectors(vectors: seq<V>) | NoVectors | BatchTooLarge | Raised

  /** The provider's answer to its n-th call made for a batch. It may change its mind
    * from one call to the next.
    */
  type Provider<!T, V> = (nat, seq<T>) -> Reply<V>

  /** How `_call_with_batch_split` ends. */
  datatype Split<V> = Done(vectors: seq<V>) | Nothing | ChunkTooLarge | Failed

  /** Returns the outcome and the number of calls made so far. */
  function CallWithBatchSplit<T, V>(texts: seq<T>, provider: Provider<T, V>, calls: nat): (Split<V>, nat)
    decreases |texts|
  {
    match provider(calls, texts)
    case Vectors(vs) => (Done(vs), calls + 1)
    case NoVectors => (Nothing, calls + 1)
    case Raised => (Failed, calls + 1)
    case BatchTooLarge =>
      if |texts| <= 1 then (ChunkTooLarge, calls + 1)
      else
        var mid := |texts| / 2;
        var (left, n) := CallWithBatchSplit(texts[..mid], provider, calls + 1);
        if left.ChunkTooLarge? || left.Failed? then (left, n)
        else
          var (right, n') := CallWithBatchSplit(texts[mid..], provider, n);
          if right.ChunkTooLarge? || right.Failed? then (right, n')
          else if left.Nothing? || right.Nothing? then (Failed, n')  // None + list
          else (Done(left.vectors + right.vectors), n')
  }

  function Map<T, V>(f: T -> V, xs: seq<T>): seq<V> {
    seq(|xs|, i requires 0 <= i < |xs| => f(xs[i]))
  }

  /** Whenever the provider returns vectors, they embed the batch text by text. */
  ghost predicate Pointwise<T(!new), V(!new)>(provider: Provider<T, V>, embed: T -> V) {
    forall n, batch :: provider(n, batch).Vectors? ==> provider(n, batch).vectors == Map(embed, batch)
  }

  lemma {:induction false} SplitIsPointwise<T(!new), V(!new)>(
    texts: seq<T>, provider: Provider<T, V>, calls: nat, embed: T -> V
  )
    requires Pointwise(provider, embed)
    requires CallWithBatchSplit(texts, provider, calls).0.Done?
    ensures CallWithBatchSplit(texts, provider, calls).0.vectors == Map(embed, texts)
    decreases |texts|
  {
    if provider(calls, texts).BatchTooLarge? {
      var mid := |texts| / 2;
      var n := CallWithBatchSplit(texts[..mid], provider, calls + 1).1;
      SplitIsPointwise(texts[..mid], provider, calls + 1, embed);
      SplitIsPointwise(texts[mid..], provider, n, embed);
      assert Map(embed, texts) == Map(embed, texts[..mid]) + Map(embed, texts[mid..]);
    }
  }

  /** A batch of n texts costs between one and 2n - 1 calls (one for the empty batch). */
  lemma {:induction false} SplitCallBound<T, V>(texts: seq<T>, provider: Provider<T, V>, calls: nat)
    ensures
      var made := CallWithBatchSplit(texts, provider, calls).1 - calls;
      1 <= made && (texts != [] ==> made <= 2 * |texts| - 1) && (texts == [] ==> made == 1)
    decreases |texts|
  {
    if provider(calls, texts).BatchTooLarge? && |texts| > 1 {
      var mid := |texts| / 2;
      SplitCallBound(texts[..mid], provider, calls + 1);
      SplitCallBound(texts[mid..], provider, CallWithBatchSplit(texts[..mid], provider, calls + 1).1);
    }
  }

  /** The bound is reached by a provider that takes single texts only. */
  lemma {:induction false} SplitCallBoundIsTight<T, V>(texts: seq<T>, provider: Provider<T, V>, calls: nat)
    requires texts != []
    requires forall n: nat, b: seq<T> {:trigger provider(n, b)} ::
               if |b| == 1 then provider(n, b).Vectors? else provider(n, b).BatchTooLarge?
    ensures CallWithBatchSplit(texts, provider, calls).0.Done?
    ensures CallWithBatchSplit(texts, provider, calls).1 - calls == 2 * |texts| - 1
    decreases |texts|
  {
    var reply := provider(calls, texts);
    if |texts| > 1 {
      var mid := |texts| / 2;
      SplitCallBoundIsTight(texts[..mid], provider, calls + 1);
      SplitCallBoundIsTight(texts[mid..], provider, CallWithBatchSplit(texts[..mid], provider, calls + 1).1);
    }
  }

  /** `ChunkTooLargeError` blames a text (or an empty batch) the provider really did reject on its own. */
  lemma {:induction false} ChunkTooLargeIsGenuine<T, V>(texts: seq<T>, provider: Provider<T, V>, calls: nat)
    returns (call: nat, lo: nat, hi: nat)
    requires CallWithBatchSplit(texts, provider, calls).0.ChunkTooLarge?
    ensures lo <= hi <= |texts| && hi - lo == (if texts == [] then 0 else 1)
    ensures calls <= call < CallWithBatchSplit(texts, provider, calls).1
    ensures provider(call, texts[lo..hi]).BatchTooLarge?
    decreases |texts|
  {
    if |texts| <= 1 {
      call, lo, hi := calls, 0, |texts|;
      assert texts[..hi] == texts;
    } else {
      var mid := |texts| / 2;
      var (left, n) := CallWithBatchSplit(texts[..mid], provider, calls + 1);
      if left.ChunkTooLarge? {
        call, lo, hi := ChunkTooLargeIsGenuine(texts[..mid], provider, calls + 1);
        PrefixSlice(texts, mid, lo, hi);
      } else {
        SplitCallBound(texts[..mid], provider, calls + 1);
        call, lo, hi := ChunkTooLargeIsGenuine(texts[mid..], provider, n);
        SuffixSlice(texts, mid, lo, hi);
        lo, hi := mid + lo, mid + hi;
      }
    }
  }

  /** A batch is cut in the middle: if its halves are taken, one rejection costs two more calls. */
  lemma HalvesSuffice<T, V>(texts: seq<T>, provider: Provider<T, V>, calls: nat)
    requires |texts| >= 2 && provider(calls, texts).BatchTooLarge?
    requires forall n: nat, b: seq<T> {:trigger provider(n, b)} ::
               |b| <= (|texts| + 1) / 2 ==> provider(n, b).Vectors?
    ensures CallWithBatchSplit(texts, provider, calls).0.Done?
    ensures CallWithBatchSplit(texts, provider, calls).1 == calls + 3
  {
    var mid := |texts| / 2;
    assert provider(calls + 1, texts[..mid]).Vectors? && provider(calls + 2, texts[mid..]).Vectors?;
  }

  /** Every other failure is one the provider reported in the run, for some stretch of the texts. */
  lemma {:induction false} FailureIsGenuine<T, V>(texts: seq<T>, provider: Provider<T, V>, calls: nat)
    returns (call: nat, lo: nat, hi: nat)
    requires var split := CallWithBatchSplit(texts, provider, calls).0; split.Failed? || split.Nothing?
    ensures lo <= hi <= |texts| && calls <= call < CallWithBatchSplit(texts, provider, calls).1
    ensures provider(call, texts[lo..hi]).Raised? || provider(call, texts[lo..hi]).NoVectors?
    decreases |texts|
  {
    if !provider(calls, texts).BatchTooLarge? {
      call, lo, hi := calls, 0, |texts|;
      assert texts[..hi] == texts;
    } else {
      var mid := |texts| / 2;
      var (left, n) := CallWithBatchSplit(texts[..mid], provider, calls + 1);
      SplitCallBound(texts[..mid], provider, calls + 1);
      if left.Failed? || left.Nothing? {
        call, lo, hi := FailureIsGenuine(texts[..mid], provider, calls + 1);
        PrefixSlice(texts, mid, lo, hi);
        SplitCallBound(texts[mid..], provider, n);
      } else {
        call, lo, hi := FailureIsGenuine(texts[mid..], provider, n);
        SuffixSlice(texts, mid, lo, hi);
        lo, hi := mid + lo, mid + hi;
      }
    }
  }

  /** A provider that takes every single text and otherwise fails only by size never fails a batch. */
  lemma {:induction false} SplitSucceeds<T, V>(texts: seq<T>, provider: Provider<T, V>, calls: nat)
    requires forall n: nat, b: seq<T> {:trigger provider(n, b)} ::
               provider(n, b).Vectors? || (provider(n, b).BatchTooLarge? && |b| > 1)
    ensures CallWithBatchSplit(texts, provider, calls).0.Done?
    decreases |texts|
  {
    var reply := provider(calls, texts);
    if reply.BatchTooLarge? {
      var mid := |texts| / 2;
      SplitSucceeds(texts[..mid], provider, calls + 1);
      SplitSucceeds(texts[mid..], provider, CallWithBatchSplit(texts[..mid], provider, calls + 1).1);
    }
  }

  // ---------- generate_multiple ----------

  datatype EmbedError =
    | ChunkTooLargeError
    | BatchError(start: nat)  // the RuntimeError naming the batch
    | ZeroStep                // range() refuses a zero step

  datatype Batch<T> = Batch(start: nat, texts: seq<T>)

  datatype Finished<V> = Finished(start: nat, vectors: seq<V>)

  /** The batches `range(i, len(texts), size)` enumerates. */
  function BatchesFrom<T>(texts: seq<T>, size: int, i: nat): seq<Batch<T>>
    requires size > 0
    decreases |texts| - i
  {
    if i >= |texts| then []
    else if i + size >= |texts| then [Batch(i, texts[i..])]
    else [Batch(i, texts[i..i + size])] + BatchesFrom(texts, size, i + size)
  }

  /** A negative step enumerates nothing. */
  function Batches<T>(texts: seq<T>, size: int): Result<seq<Batch<T>>, EmbedError> {
    if size == 0 then Err(ZeroStep)
    else if size < 0 then Ok([])
    else Ok(BatchesFrom(texts, size, 0))
  }

  function RunBatch<T, V>(batch: Batch<T>, providers: nat -> Provider<T, V>): Result<Finished<V>, EmbedError> {
    match CallWithBatchSplit(batch.texts, providers(batch.start), 0).0
    case Done(vs) => Ok(Finished(batch.start, vs))
    case ChunkTooLarge => Err(ChunkTooLargeError)
    case _ => Err(BatchError(batch.start))
  }

  /** The batches taken one after another: the first error, or every result. */
  function RunAll<T, V>(
    batches: seq<Batch<T>>, providers: nat -> Provider<T, V>
  ): (r: Result<seq<Finished<V>>, EmbedError>)
    ensures r.Ok? ==>
              |r.value| == |batches|
              && forall i :: 0 <= i < |batches| ==> RunBatch(batches[i], providers) == Ok(r.value[i])
  {
    if batches == [] then Ok([])
    else
      match RunBatch(batches[0], providers)
      case Err(e) => Err(e)
      case Ok(first) =>
        match RunAll(batches[1..], providers)
        case Err(e) => Err(e)
        case Ok(rest) => Ok([first] + rest)
  }

  function Concat<V>(results: seq<Finished<V>>): seq<V> {
    if results == [] then [] else results[0].vectors + Concat(results[1..])
  }

  function Generate<T, V>(texts: seq<T>, size: int, providers: nat -> Provider<T, V>): Result<seq<V>, EmbedError> {
    match Batches(texts, size)
    case Err(e) => Err(e)
    case Ok(batches) =>
      match RunAll(batches, providers)
      case Err(e) => Err(e)
      case Ok(results) => Ok(Concat(results))
  }

  /** Sorting by start is sorting by its negation, descending. */
  function NegatedStart<V>(f: Finished<V>): real {
    -(f.start as real)
  }

  predicate StartsAscend<T>(batches: seq<Batch<T>>, lo: int) {
    && (forall a :: 0 <= a < |batches| ==> lo <= batches[a].start)
    && (forall a, b :: 0 <= a < b < |batches| ==> batches[a].start < batches[b].start)
  }

  lemma {:induction false} BatchesAscend<T>(texts: seq<T>, size: int, i: nat)
    requires size > 0
    ensures StartsAscend(BatchesFrom(texts, size, i), i)
    decreases |texts| - i
  {
    if i < |texts| {
      hide BatchesFrom;
      var next := FirstBatch(texts, size, i);
      BatchesAscend(texts, size, next);
    }
  }

  lemma FinishedInOrder<T, V>(
    batches: seq<Batch<T>>, providers: nat -> Provider<T, V>, results: seq<Finished<V>>, i: nat, j: nat
  )
    requires RunAll(batches, providers) == Ok(results) && StartsAscend(batches, 0) && i < j < |results|
    ensures results[i].start < results[j].start
  {
    hide RunAll, CallWithBatchSplit;
    assert RunBatch(batches[i], providers) == Ok(results[i]);
    assert RunBatch(batches[j], providers) == Ok(results[j]);
  }

  /** `executor.map`'s results are in order already, so sorting them changes nothing. */
  lemma SortingResultsIsIdle<T, V>(
    texts: seq<T>, size: int, batches: seq<Batch<T>>, providers: nat -> Provider<T, V>, results: seq<Finished<V>>
  )
    requires Batches(texts, size) == Ok(batches) && RunAll(batches, providers) == Ok(results)
    ensures SortDescending(results, NegatedStart) == results
  {
    if size > 0 {
      BatchesAscend(texts, size, 0);
    }
    forall i, j | 0 <= i < j < |results|
      ensures NegatedStart(results[i]) >= NegatedStart(results[j])
    {
      FinishedInOrder(batches, providers, results, i, j);
    }
    SortedIsFixed(results, NegatedStart);
  }

  /** Every index below `n`, at least once: the order in which `n` workers finish, or more than that. */
  ghost predicate IsOrder(order: seq<nat>, n: nat) {
    && (forall i :: 0 <= i < |order| ==> order[i] < n)
    && (forall b :: 0 <= b < n ==> b in order)
  }

  lemma {:induction false} RunAllStopsAt<T, V>(batches: seq<Batch<T>>, providers: nat -> Provider<T, V>, i: nat)
    requires i < |batches| && RunBatch(batches[i], providers).Err?
    requires forall j :: 0 <= j < i ==> RunBatch(batches[j], providers).Ok?
    ensures RunAll(batches, providers) == Err(RunBatch(batches[i], providers).error)
  {
    if i > 0 {
      assert forall j :: 0 <= j < i - 1 ==> batches[1..][j] == batches[j + 1];
      assert batches[1..][i - 1] == batches[i];
      RunAllStopsAt(batches[1..], providers, i - 1);
    }
  }

  lemma {:induction false} RunAllFinishes<T, V>(
    batches: seq<Batch<T>>, providers: nat -> Provider<T, V>, results: seq<Finished<V>>
  )
    requires |results| == |batches|
    requires forall j :: 0 <= j < |batches| ==> RunBatch(batches[j], providers) == Ok(results[j])
    ensures RunAll(batches, providers) == Ok(results)
  {
    if batches != [] {
      assert forall j :: 0 <= j < |batches| - 1 ==> batches[1..][j] == batches[j + 1];
      RunAllFinishes(batches[1..], providers, results[1..]);
      assert results == [results[0]] + results[1..];
    }
  }

  /** The thread pool: batches finish in the given order, `executor.map` hands their results
    * over in submission order and raises the first error it meets there.
    */
  method RunPool<T, V>(batches: seq<Batch<T>>, providers: nat -> Provider<T, V>, order: seq<nat>)
    returns (r: Result<seq<Finished<V>>, EmbedError>)
    requires IsOrder(order, |batches|)
    ensures r == RunAll(batches, providers)
  {
    var slots := new Option<Result<Finished<V>, EmbedError>>[|batches|](_ => None);
    for done := 0 to |order|
      invariant forall i :: 0 <= i < |batches| && i in order[..done] ==>
                              slots[i] == Some(RunBatch(batches[i], providers))
    {
      slots[order[done]] := Some(RunBatch(batches[order[done]], providers));
    }
    assert order[..|order|] == order;
    var results: seq<Finished<V>> := [];
    for i := 0 to |batches|
      invariant |results| == i
      invariant forall j :: 0 <= j < i ==> RunBatch(batches[j], providers) == Ok(results[j])
    {
      match slots[i].value {
        case Err(e) =>
          RunAllStopsAt(batches, providers, i);
          return Err(e);
        case Ok(finished) =>
          results := results + [finished];
      }
    }
    RunAllFinishes(batches, providers, results);
    r := Ok(results);
  }

  /** Without the pool: one batch after the other, up to the first error. */
  method RunInTurn<T, V>(batches: seq<Batch<T>>, providers: nat -> Provider<T, V>)
    returns (r: Result<seq<Finished<V>>, EmbedError>)
    ensures r == RunAll(batches, providers)
  {
    var results: seq<Finished<V>> := [];
    for i := 0 to |batches|
      invariant |results| == i
      invariant forall j :: 0 <= j < i ==> RunBatch(batches[j], providers) == Ok(results[j])
    {
      match RunBatch(batches[i], providers) {
        case Err(e) =>
          RunAllStopsAt(batches, providers, i);
          return Err(e);
        case Ok(finished) =>
          results := results + [finished];
      }
    }
    RunAllFinishes(batches, providers, results);
    r := Ok(results);
  }

  method Extend<V>(results: seq<Finished<V>>) returns (embeddings: seq<V>)
    ensures embeddings == Concat(results)
  {
    embeddings := [];
    for i := 0 to |results|
      invariant embeddings + Concat(results[i..]) == Concat(results)
    {
      assert results[i..][1..] == results[i + 1..];
      assert embeddings + (results[i].vectors + Concat(results[i + 1..]))
             == (embeddings + results[i].vectors) + Concat(results[i + 1..]);
      embeddings := embeddings + results[i].vectors;
    }
    assert embeddings == embeddings + Concat(results[|results|..]);
  }

  /** `generate_multiple` on a list. */
  method GenerateMultiple<T, V>(
    texts: seq<T>, size: int, enableAsync: bool, providers: nat -> Provider<T, V>, order: seq<nat>
  )
    returns (r: Result<seq<V>, EmbedError>)
    requires Batches(texts, size).Ok? ==> IsOrder(order, |Batches(texts, size).value|)
    ensures r == Generate(texts, size, providers)
  {
    if size == 0 {
      return Err(ZeroStep);
    }
    var batches := Batches(texts, size).value;
    var outcome;
    if enableAsync && |batches| > 1 {
      outcome := RunPool(batches, providers, order);
      if outcome.Ok? {
        SortingResultsIsIdle(texts, size, batches, providers, outcome.value);
        outcome := Ok(SortDescending(outcome.value, NegatedStart));
      }
    } else {
      outcome := RunInTurn(batches, providers);
    }
    match outcome {
      case Err(e) =>
        r := Err(e);
      case Ok(results) =>
        var embeddings := Extend(results);
        r := Ok(embeddings);
    }
  }

  lemma FirstBatch<T>(texts: seq<T>, size: int, i: nat) returns (next: nat)
    requires size > 0 && i < |texts|
    ensures i < next <= |texts|
    ensures var batches := BatchesFrom(texts, size, i);
      batches != [] && batches[0] == Batch(i, texts[i..next]) && batches[1..] == BatchesFrom(texts, size, next)
  {
    next := if i + size >= |texts| then |texts| else i + size;
  }

  lemma FirstResult<T, V>(batches: seq<Batch<T>>, providers: nat -> Provider<T, V>, results: seq<Finished<V>>)
    requires batches != [] && RunAll(batches, providers) == Ok(results)
    ensures results != [] && RunBatch(batches[0], providers) == Ok(results[0])
    ensures RunAll(batches[1..], providers) == Ok(results[1..])
  {
    hide RunBatch;
  }

  lemma BatchIsPointwise<T(!new), V(!new)>(
    batch: Batch<T>, providers: nat -> Provider<T, V>, embed: T -> V, finished: Finished<V>
  )
    requires Pointwise(providers(batch.start), embed) && RunBatch(batch, providers) == Ok(finished)
    ensures finished.vectors == Map(embed, batch.texts)
  {
    hide CallWithBatchSplit, Pointwise;
    SplitIsPointwise(batch.texts, providers(batch.start), 0, embed);
  }

  lemma MapSplit<T, V>(f: T -> V, a: seq<T>, b: seq<T>)
    ensures Map(f, a + b) == Map(f, a) + Map(f, b)
  {
  }

  lemma {:induction false} ConcatIsPointwise<T(!new), V(!new)>(
    texts: seq<T>, size: int, i: nat, providers: nat -> Provider<T, V>, embed: T -> V, results: seq<Finished<V>>
  )
    requires size > 0 && i <= |texts|
    requires forall b :: Pointwise(providers(b), embed)
    requires RunAll(BatchesFrom(texts, size, i), providers) == Ok(results)
    ensures Concat(results) == Map(embed, texts[i..])
    decreases |texts| - i
  {
    hide RunBatch, Pointwise, Map, CallWithBatchSplit;
    if i < |texts| {
      hide RunAll, BatchesFrom;
      var next := FirstBatch(texts, size, i);
      var batches := BatchesFrom(texts, size, i);
      FirstResult(batches, providers, results);
      BatchIsPointwise(batches[0], providers, embed, results[0]);
      ConcatIsPointwise(texts, size, next, providers, embed, results[1..]);
      MapSplit(embed, texts[i..next], texts[next..]);
      assert texts[i..] == texts[i..next] + texts[next..];
    } else {
      NothingToMap(embed);
      assert texts[i..] == [];
    }
  }

  lemma NothingToMap<T, V>(f: T -> V)
    ensures Map(f, []) == []
  {
  }

  /** A normal return is the pointwise embedding in input order exactly when the batch size
    * is positive or there is nothing to embed: a negative size returns no vectors at all.
    */
  lemma GenerateIsPointwiseIff<T(!new), V(!new)>(
    texts: seq<T>, size: int, providers: nat -> Provider<T, V>, embed: T -> V
  )
    requires forall b :: Pointwise(providers(b), embed)
    requires Generate(texts, size, providers).Ok?
    ensures Generate(texts, size, providers).value == Map(embed, texts) <==> size > 0 || texts == []
  {
    if size > 0 {
      ConcatIsPointwise(texts, size, 0, providers, embed, RunAll(Batches(texts, size).value, providers).value);
      assert texts[0..] == texts;
    }
  }

  /** If every single text is accepted and the provider otherwise rejects by size only,
    * a positive batch size always ends in a normal return.
    */
  lemma GenerateSucceeds<T(!new), V(!new)>(texts: seq<T>, size: int, providers: nat -> Provider<T, V>)
    requires size > 0
    requires forall i: nat, n: nat, b: seq<T> {:trigger providers(i)(n, b)} ::
               providers(i)(n, b).Vectors? || (providers(i)(n, b).BatchTooLarge? && |b| > 1)
    ensures Generate(texts, size, providers).Ok?
  {
    var batches := Batches(texts, size).value;
    if RunAll(batches, providers).Err? {
      var i := FirstError(batches, providers);
      SplitSucceeds(batches[i].texts, providers(batches[i].start), 0);
    }
  }

  /** `start` is some number of steps on from `i`. */
  predicate StepsFrom(i: nat, size: int, start: nat)
    requires size > 0
    decreases start - i
  {
    i == start || (i + size <= start && StepsFrom(i + size, size, start))
  }

  /** The text of the batch that starts there. */
  function BatchText<T>(texts: seq<T>, size: int, start: nat): seq<T>
    requires size > 0 && start <= |texts|
  {
    if start + size >= |texts| then texts[start..] else texts[start..start + size]
  }

  function Outcome<T, V>(texts: seq<T>, size: int, start: nat, providers: nat -> Provider<T, V>): Split<V>
    requires size > 0 && start <= |texts|
  {
    CallWithBatchSplit(BatchText(texts, size, start), providers(start), 0).0
  }

  lemma {:induction false} RunFailsAt<T, V>(texts: seq<T>, size: int, i: nat, providers: nat -> Provider<T, V>)
    returns (start: nat)
    requires size > 0 && RunAll(BatchesFrom(texts, size, i), providers).Err?
    ensures i <= start < |texts| && StepsFrom(i, size, start)
    ensures !Outcome(texts, size, start, providers).Done?
    ensures RunAll(BatchesFrom(texts, size, i), providers).error
            == if Outcome(texts, size, start, providers).ChunkTooLarge? then ChunkTooLargeError else BatchError(start)
    ensures forall s: nat :: i <= s < start && StepsFrom(i, size, s) ==> Outcome(texts, size, s, providers).Done?
    decreases |texts| - i
  {
    hide CallWithBatchSplit;
    var batches := BatchesFrom(texts, size, i);
    assert batches[0] == Batch(i, BatchText(texts, size, i));
    if RunBatch(batches[0], providers).Err? {
      start := i;
    } else {
      assert batches[1..] == BatchesFrom(texts, size, i + size);
      start := RunFailsAt(texts, size, i + size, providers);
    }
  }

  /** An error is that of the first batch that fails, batches starting every `size` texts: that a text is too
    * large, or else the batch's start.
    */
  lemma GenerateFailsAt<T, V>(texts: seq<T>, size: int, providers: nat -> Provider<T, V>) returns (start: nat)
    requires Generate(texts, size, providers).Err?
    ensures size == 0 <==> Generate(texts, size, providers).error == ZeroStep
    ensures size >= 0
    ensures size > 0 ==>
              && start < |texts| && StepsFrom(0, size, start)
              && !Outcome(texts, size, start, providers).Done?
              && Generate(texts, size, providers).error
                 == (if Outcome(texts, size, start, providers).ChunkTooLarge? then ChunkTooLargeError
                     else BatchError(start))
              && forall s: nat :: s < start && StepsFrom(0, size, s) ==> Outcome(texts, size, s, providers).Done?
  {
    hide Outcome, StepsFrom;
    start := 0;
    if size > 0 {
      start := RunFailsAt(texts, size, 0, providers);
    }
  }

  lemma {:induction false} FirstError<T, V>(batches: seq<Batch<T>>, providers: nat -> Provider<T, V>) returns (i: nat)
    requires RunAll(batches, providers).Err?
    ensures i < |batches| && RunBatch(batches[i], providers).Err?
  {
    if RunBatch(batches[0], providers).Err? {
      i := 0;
    } else {
      var j := FirstError(batches[1..], providers);
      i := j + 1;
    }
  }
}
