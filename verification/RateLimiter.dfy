/** The fixed-window rate limiter of backend/open_webui/external_api/router.py. */
module RateLimiter {
  import opened Wrappers

  /** A request that reached the limiter: the client, the limit in force and the clock's reading. */
  datatype Request = Request(client: string, limit: int, time: real)

  /** The minute a reading of the clock falls in. */
  function Minute(time: real): int {
    (time / 60.0).Floor
  }

  /** Counted in this bucket.  A limit that is not positive is no limit, and is not counted. */
  predicate Metered(r: Request, client: string, minute: int) {
    r.client == client && r.limit > 0 && Minute(r.time) == minute
  }

  function Counted(h: seq<Request>, client: string, minute: int): nat {
    if h == [] then 0
    else Counted(h[..|h| - 1], client, minute) + if Metered(h[|h| - 1], client, minute) then 1 else 0
  }

  /** The verdict on a request after this history: refused ones count as well. */
  predicate Admits(h: seq<Request>, r: Request) {
    r.limit <= 0 || Counted(h, r.client, Minute(r.time)) + 1 <= r.limit
  }

  /** How many requests of a client in one minute were let through. */
  function AdmittedIn(h: seq<Request>, client: string, minute: int): nat {
    if h == [] then 0
    else
      var init, last := h[..|h| - 1], h[|h| - 1];
      AdmittedIn(init, client, minute) + if Metered(last, client, minute) && Admits(init, last) then 1 else 0
  }

  /** How many were let through at readings in the closed minute that starts at `from`. */
  function AdmittedWithin(h: seq<Request>, client: string, from: real): nat {
    if h == [] then 0
    else
      var init, last := h[..|h| - 1], h[|h| - 1];
      AdmittedWithin(init, client, from)
      + if last.client == client && from <= last.time <= from + 60.0 && Admits(init, last) then 1 else 0
  }

  predicate FixedLimit(h: seq<Request>, client: string, limit: int) {
    forall r :: r in h && r.client == client ==> r.limit == limit
  }

  /** Per client and minute, exactly the first `limit` requests are let through. */
  lemma {:induction false} BucketAdmits(h: seq<Request>, client: string, limit: int, minute: int)
    requires limit > 0 && FixedLimit(h, client, limit)
    ensures AdmittedIn(h, client, minute)
            == if Counted(h, client, minute) < limit then Counted(h, client, minute) else limit
  {
    if h != [] {
      var init, last := h[..|h| - 1], h[|h| - 1];
      assert last in h;
      assert FixedLimit(init, client, limit);
      BucketAdmits(init, client, limit, minute);
    }
  }

  lemma {:induction false} WindowIsTwoMinutes(h: seq<Request>, client: string, limit: int, from: real)
    requires limit > 0 && FixedLimit(h, client, limit)
    ensures AdmittedWithin(h, client, from)
            <= AdmittedIn(h, client, Minute(from)) + AdmittedIn(h, client, Minute(from) + 1)
  {
    if h != [] {
      var init, last := h[..|h| - 1], h[|h| - 1];
      assert last in h;
      assert FixedLimit(init, client, limit);
      WindowIsTwoMinutes(init, client, limit, from);
    }
  }

  /** Any 60-second window, wherever it starts, sees at most twice the limit.  The readings need not
    * come in order.
    */
  lemma SlidingWindowBound(h: seq<Request>, client: string, limit: int, from: real)
    requires limit > 0 && FixedLimit(h, client, limit)
    ensures AdmittedWithin(h, client, from) <= 2 * limit
  {
    WindowIsTwoMinutes(h, client, limit, from);
    BucketAdmits(h, client, limit, Minute(from));
    BucketAdmits(h, client, limit, Minute(from) + 1);
  }

  function Burst(client: string, limit: int, time: real, n: nat): seq<Request> {
    if n == 0 then [] else Burst(client, limit, time, n - 1) + [Request(client, limit, time)]
  }

  lemma Appended(h: seq<Request>, r: Request, client: string, from: real, minute: int)
    ensures Counted(h + [r], client, minute) == Counted(h, client, minute) + if Metered(r, client, minute) then 1 else 0
    ensures AdmittedWithin(h + [r], client, from)
            == AdmittedWithin(h, client, from)
               + if r.client == client && from <= r.time <= from + 60.0 && Admits(h, r) then 1 else 0
  {
    assert (h + [r])[..|h + [r]| - 1] == h;
  }

  lemma {:induction false} BurstAfter(before: seq<Request>, client: string, limit: int, time: real, n: nat, from: real)
    requires n <= limit && 0 < limit && from <= time <= from + 60.0
    requires Counted(before, client, Minute(time)) == 0
    ensures var h := before + Burst(client, limit, time, n);
      && AdmittedWithin(h, client, from) == AdmittedWithin(before, client, from) + n
      && Counted(h, client, Minute(time)) == n
      && forall m :: m != Minute(time) ==> Counted(h, client, m) == Counted(before, client, m)
  {
    hide Counted, AdmittedWithin, Minute;
    var burst := Burst(client, limit, time, n);
    if n == 0 {
      assert before + burst == before;
    } else {
      var init, r := before + Burst(client, limit, time, n - 1), Request(client, limit, time);
      assert before + burst == init + [r];
      BurstAfter(before, client, limit, time, n - 1, from);
      forall m
        ensures Counted(before + burst, client, m) == Counted(init, client, m) + if Metered(r, client, m) then 1 else 0
      {
        Appended(init, r, client, from, m);
      }
      Appended(init, r, client, from, Minute(time));
    }
  }

  /** The bound is reached for every limit, within one second around a full minute. */
  lemma SlidingWindowBoundIsTight(client: string, limit: int)
    requires limit > 0
    ensures
      var h := Burst(client, limit, 59.0, limit) + Burst(client, limit, 60.0, limit);
      FixedLimit(h, client, limit) && AdmittedWithin(h, client, 59.0) == 2 * limit
  {
    var first := Burst(client, limit, 59.0, limit);
    BurstLimits(client, limit, 59.0, limit);
    BurstLimits(client, limit, 60.0, limit);
    assert [] + first == first;
    assert Minute(59.0) == 0 && Minute(60.0) == 1;
    BurstAfter([], client, limit, 59.0, limit, 59.0);
    BurstAfter(first, client, limit, 60.0, limit, 59.0);
  }

  lemma {:induction false} BurstLimits(client: string, limit: int, time: real, n: nat)
    ensures FixedLimit(Burst(client, limit, time, n), client, limit)
  {
    if n > 0 {
      BurstLimits(client, limit, time, n - 1);
    }
  }

  /** The requests of one client. */
  function Only(h: seq<Request>, client: string): seq<Request> {
    if h == [] then []
    else Only(h[..|h| - 1], client) + if h[|h| - 1].client == client then [h[|h| - 1]] else []
  }

  lemma {:induction false} CountedAlone(h: seq<Request>, client: string, minute: int)
    ensures Counted(Only(h, client), client, minute) == Counted(h, client, minute)
  {
    if h != [] {
      var init, last := h[..|h| - 1], h[|h| - 1];
      CountedAlone(init, client, minute);
      if last.client == client {
        assert Only(h, client)[..|Only(h, client)| - 1] == Only(init, client);
      } else {
        assert Only(h, client) == Only(init, client) + [] == Only(init, client);
      }
    }
  }

  /** Without a limit everything passes, and nothing of it is counted. */
  lemma NoLimitIsNone(h: seq<Request>, r: Request, later: Request)
    requires r.limit <= 0
    ensures Admits(h, r) && (Admits(h + [r], later) <==> Admits(h, later))
  {
    CountNext(h, r, later.client, Minute(later.time));
  }

  /** No client's verdicts depend on what others ask. */
  lemma ClientsAreIndependent(h: seq<Request>, g: seq<Request>, r: Request)
    requires Only(h, r.client) == Only(g, r.client)
    ensures Admits(h, r) <==> Admits(g, r)
  {
    CountedAlone(h, r.client, Minute(r.time));
    CountedAlone(g, r.client, Minute(r.time));
  }

  lemma CountNext(h: seq<Request>, r: Request, client: string, minute: int)
    ensures Counted(h + [r], client, minute)
            == Counted(h, client, minute) + if Metered(r, client, minute) then 1 else 0
  {
    assert (h + [r])[..|h|] == h;
  }

  class Limiter {
    var bucket: map<(string, int), int>
    /** Every request seen so far. */
    ghost var history: seq<Request>

    /** The buckets hold the counts of the history, and no zero. */
    ghost predicate Valid()
      reads this
    {
      forall c, m :: BucketIs(bucket, history, c, m)
    }

    constructor ()
      ensures Valid() && history == []
    {
      bucket, history := map[], [];
    }

    /** The limiter inside `_authenticate_gateway_request`. */
    method Admit(client: string, rpmLimit: Option<int>, defaultRpm: int, now: real) returns (admitted: bool)
      requires Valid()
      modifies this
      ensures Valid()
      ensures history == old(history)
                         + [Request(client, match rpmLimit case Some(n) => n case None => defaultRpm, now)]
      ensures admitted <==> Admits(old(history), history[|history| - 1])
    {
      hide Counted, Minute;
      var limit := match rpmLimit case Some(n) => n case None => defaultRpm;
      ghost var r := Request(client, limit, now);
      admitted := true;
      if limit > 0 {
        var key := (client, Minute(now));
        assert BucketIs(bucket, history, client, Minute(now));
        var current := (if key in bucket then bucket[key] else 0) + 1;
        bucket := bucket[key := current];
        if current > limit {
          admitted := false;
        }
      }
      history := history + [r];
      forall c, m
        ensures BucketIs(bucket, history, c, m)
      {
        assert BucketIs(old(bucket), old(history), c, m);
        CountNext(old(history), r, c, m);
      }
    }
  }

  predicate BucketIs(bucket: map<(string, int), int>, h: seq<Request>, c: string, m: int) {
    (if (c, m) in bucket then bucket[(c, m)] else 0) == Counted(h, c, m)
  }
}
