/**
 * The stats-enrichment pipeline of src/github/stars.ts:
 * `fetchRepoStatsWithCache`, `processBatch` and `fetchBatchWithRetry`.
 *
 * A call deduplicates the references by `owner/name` key, answers the keys
 * whose cache row is fresh straight from the cache, cuts the rest into
 * batches, and runs every batch through a retry loop with capped doubling
 * backoff. Each successful response is written into the results and through
 * to the cache; afterwards (after success or failure alike) every key of
 * the batch still missing from the results takes the cached row, however
 * old. A batch failure is swallowed.
 *
 * The remote client is the queue `outcomes` of scripted answers, consumed
 * one per call as the tests' fake clients do (`responses.shift()`); an
 * empty queue answers with a failure, as the fake's "Missing mock response".
 * Batches run one after another, in the order the limiter starts them.
 */
module Stars {
  import opened Wrappers
  import opened GitHubUrl
  import opened StatStore
  import Limiter

  const DefaultBatchSize := 25
  const DefaultConcurrency := 3
  const DefaultRetries := 2
  const DefaultRetryDelayMs := 500
  const DefaultMaxRetryDelayMs := 4000
  const DefaultCacheMaxAgeSeconds := 60 * 60

  /** `lastCommitAt?: string | null`: left out, null, or a timestamp. */
  datatype CommitTime = Undefined | Null | At(iso: string)

  datatype RepoStats = RepoStats(stars: int, lastCommitAt: CommitTime)

  datatype RateLimitInfo = RateLimitInfo(remaining: int, resetAt: string, cost: Option<int>)

  datatype BatchResponse = BatchResponse(stats: map<string, RepoStats>, rateLimit: Option<RateLimitInfo>)

  /** One answer of the remote client: it rejects, or it responds. */
  datatype ClientOutcome = Throws | Responds(response: BatchResponse)

  /** `RepoStatsFetchOptions`: every field optional. */
  datatype FetchOptions = FetchOptions(
    batchSize: Option<int>,
    concurrency: Option<int>,
    retries: Option<int>,
    retryDelayMs: Option<int>,
    maxRetryDelayMs: Option<int>,
    logRateLimit: Option<bool>,
    cacheMaxAgeSeconds: Option<int>)

  /** The options a batch runs with, defaults filled in. */
  datatype RetryOptions = RetryOptions(retries: int, retryDelayMs: int, maxRetryDelayMs: int)

  function RetryOptionsOf(o: FetchOptions): RetryOptions {
    RetryOptions(o.retries.GetOr(DefaultRetries), o.retryDelayMs.GetOr(DefaultRetryDelayMs),
                 o.maxRetryDelayMs.GetOr(DefaultMaxRetryDelayMs))
  }

  function MaxAgeOf(o: FetchOptions): int { o.cacheMaxAgeSeconds.GetOr(DefaultCacheMaxAgeSeconds) }
  function BatchSizeOf(o: FetchOptions): int { o.batchSize.GetOr(DefaultBatchSize) }
  function ConcurrencyOf(o: FetchOptions): int { o.concurrency.GetOr(DefaultConcurrency) }

  const NoOptions := FetchOptions(None, None, None, None, None, None, None)

  /** With no options: batches of 25, 3 at a time, 2 retries from 500 ms doubling up to 4000 ms, one hour of freshness. */
  lemma DefaultOptions()
    ensures BatchSizeOf(NoOptions) == 25 && ConcurrencyOf(NoOptions) == 3
    ensures RetryOptionsOf(NoOptions) == RetryOptions(2, 500, 4000)
    ensures MaxAgeOf(NoOptions) == 3600
    ensures NoOptions.logRateLimit.GetOr(true)
  {
  }

  // ---------------------------------------------------------------------
  // Cache rows and stats
  // ---------------------------------------------------------------------

  /** `lastCommitAt ?? null` as stored in the cache. */
  function Stored(c: CommitTime): Option<string> {
    if c.At? then Some(c.iso) else None
  }

  /** The stats a cache row stands for. */
  function FromEntry(e: CacheEntry): RepoStats {
    RepoStats(e.stars, if e.lastCommitAt.Some? then At(e.lastCommitAt.value) else Null)
  }

  /** The row written for freshly fetched stats. */
  function ToEntry(s: RepoStats, now: int): CacheEntry {
    CacheEntry(s.stars, Stored(s.lastCommitAt), now)
  }

  /** A row read back from the cache gives the stars and commit time that were fetched, with undefined read as null. */
  lemma WriteThenReadBack(s: RepoStats, now: int)
    ensures FromEntry(ToEntry(s, now)).stars == s.stars
    ensures FromEntry(ToEntry(s, now)).lastCommitAt == (if s.lastCommitAt.At? then s.lastCommitAt else Null)
  {
  }

  /** A row answers a key without a fetch when the cache is enabled and the row is at most `maxAge` seconds old. */
  predicate IsFresh(rows: map<string, CacheEntry>, key: string, now: int, maxAge: int) {
    maxAge > 0 && key in rows && now - rows[key].updatedAt <= maxAge
  }

  // ---------------------------------------------------------------------
  // Deduplication and batching
  // ---------------------------------------------------------------------

  predicate Distinct<T(==)>(s: seq<T>) {
    forall i, j :: 0 <= i < j < |s| ==> s[i] != s[j]
  }

  function Keys(refs: seq<RepoRef>): (ks: seq<string>)
    ensures |ks| == |refs| && forall i :: 0 <= i < |refs| ==> ks[i] == RepoKey(refs[i])
  {
    if refs == [] then [] else Keys(refs[..|refs| - 1]) + [RepoKey(refs[|refs| - 1])]
  }

  function KeySet(refs: seq<RepoRef>): set<string> {
    set r | r in refs :: RepoKey(r)
  }

  /** The keys of `unique`, a JavaScript Map: each key once, in the order it was first seen. */
  function DedupKeys(repos: seq<RepoRef>): (keys: seq<string>)
    ensures Distinct(keys)
    ensures forall k :: k in keys <==> k in KeySet(repos)
  {
    if repos == [] then []
    else
      var d := DedupKeys(repos[..|repos| - 1]);
      var k := RepoKey(repos[|repos| - 1]);
      assert forall r :: r in repos <==> r in repos[..|repos| - 1] || r == repos[|repos| - 1];
      if k in d then d else d + [k]
  }

  /** The values of `unique`: for each key, the last reference with that key (`Map.set` overwrites). */
  function Unique(repos: seq<RepoRef>): (u: map<string, RepoRef>)
    ensures u.Keys == KeySet(repos)
    ensures forall k :: k in u ==> RepoKey(u[k]) == k && u[k] in repos
  {
    if repos == [] then map[]
    else
      var last := repos[|repos| - 1];
      assert forall r :: r in repos <==> r in repos[..|repos| - 1] || r == last;
      Unique(repos[..|repos| - 1])[RepoKey(last) := last]
  }

  /** The cache hits of the first loop. */
  function FreshStats(keys: seq<string>, rows: map<string, CacheEntry>, now: int, maxAge: int): map<string, RepoStats> {
    map k | k in keys && IsFresh(rows, k, now, maxAge) :: FromEntry(rows[k])
  }

  /** `toFetch`: the references whose key is not fresh, in key order. */
  function ToFetch(keys: seq<string>, unique: map<string, RepoRef>, rows: map<string, CacheEntry>, now: int, maxAge: int)
    : seq<RepoRef>
    requires forall k :: k in keys ==> k in unique
  {
    if keys == [] then []
    else
      var k := keys[|keys| - 1];
      ToFetch(keys[..|keys| - 1], unique, rows, now, maxAge) + (if IsFresh(rows, k, now, maxAge) then [] else [unique[k]])
  }

  /** The fetched keys are exactly the keys that are not fresh, each once, in first-seen order. */
  lemma ToFetchKeys(keys: seq<string>, unique: map<string, RepoRef>, rows: map<string, CacheEntry>, now: int, maxAge: int)
    requires forall k :: k in keys ==> k in unique && RepoKey(unique[k]) == k
    requires Distinct(keys)
    ensures var f := ToFetch(keys, unique, rows, now, maxAge);
            && Distinct(Keys(f))
            && (forall k :: k in KeySet(f) <==> k in keys && !IsFresh(rows, k, now, maxAge))
  {
    ToFetchKeySet(keys, unique, rows, now, maxAge);
    ToFetchDistinct(keys, unique, rows, now, maxAge);
  }

  /** The last reference of a fetch list built over one more key. */
  lemma ToFetchSnoc(keys: seq<string>, unique: map<string, RepoRef>, rows: map<string, CacheEntry>, now: int, maxAge: int)
    requires keys != [] && forall k :: k in keys ==> k in unique && RepoKey(unique[k]) == k
    ensures var k := keys[|keys| - 1];
            var f0 := ToFetch(keys[..|keys| - 1], unique, rows, now, maxAge);
            var f := ToFetch(keys, unique, rows, now, maxAge);
            && (IsFresh(rows, k, now, maxAge) ==> f == f0)
            && (!IsFresh(rows, k, now, maxAge) ==> f == f0 + [unique[k]] && RepoKey(unique[k]) == k)
  {
  }

  lemma {:induction false} ToFetchKeySet(keys: seq<string>, unique: map<string, RepoRef>, rows: map<string, CacheEntry>, now: int, maxAge: int)
    requires forall k :: k in keys ==> k in unique && RepoKey(unique[k]) == k
    ensures forall k :: k in KeySet(ToFetch(keys, unique, rows, now, maxAge)) <==> k in keys && !IsFresh(rows, k, now, maxAge)
  {
    if keys != [] {
      var init := keys[..|keys| - 1];
      var k := keys[|keys| - 1];
      ToFetchKeySet(init, unique, rows, now, maxAge);
      ToFetchSnoc(keys, unique, rows, now, maxAge);
      var f0 := ToFetch(init, unique, rows, now, maxAge);
      if !IsFresh(rows, k, now, maxAge) {
        KeySetAppend(f0, [unique[k]]);
        assert KeySet([unique[k]]) == {k};
      }
      assert keys == init + [k];
    }
  }

  lemma {:induction false} ToFetchDistinct(keys: seq<string>, unique: map<string, RepoRef>, rows: map<string, CacheEntry>, now: int, maxAge: int)
    requires forall k :: k in keys ==> k in unique && RepoKey(unique[k]) == k
    requires Distinct(keys)
    ensures Distinct(Keys(ToFetch(keys, unique, rows, now, maxAge)))
  {
    if keys != [] {
      var init := keys[..|keys| - 1];
      var k := keys[|keys| - 1];
      ToFetchDistinct(init, unique, rows, now, maxAge);
      ToFetchSnoc(keys, unique, rows, now, maxAge);
      if !IsFresh(rows, k, now, maxAge) {
        var f0 := ToFetch(init, unique, rows, now, maxAge);
        ToFetchKeySet(init, unique, rows, now, maxAge);
        DistinctInit(keys);
        assert k !in KeySet(f0);
        KeysSnoc(f0, unique[k]);
        KeysInKeySet(f0);
        DistinctSnoc(Keys(f0), k);
      }
    }
  }

  /** The last key is new to the keys before it. */
  lemma DistinctInit(keys: seq<string>)
    requires keys != [] && Distinct(keys)
    ensures keys[|keys| - 1] !in keys[..|keys| - 1]
  {
  }

  lemma KeysInKeySet(refs: seq<RepoRef>)
    ensures forall m :: 0 <= m < |Keys(refs)| ==> Keys(refs)[m] in KeySet(refs)
  {
    forall m | 0 <= m < |Keys(refs)| ensures Keys(refs)[m] in KeySet(refs) {
      assert refs[m] in refs;
    }
  }

  lemma DistinctSnoc<T>(s: seq<T>, x: T)
    requires Distinct(s) && x !in s
    ensures Distinct(s + [x])
  {
  }

  /** One more reference adds its key at the end. */
  lemma KeysSnoc(refs: seq<RepoRef>, r: RepoRef)
    ensures Keys(refs + [r]) == Keys(refs) + [RepoKey(r)]
  {
    assert (refs + [r])[..|refs|] == refs;
  }

  /** `chunkArray(items, size)`: contiguous, order-preserving pieces of at most `size` elements. */
  function Chunks<T>(s: seq<T>, size: nat): (c: seq<seq<T>>)
    requires size > 0
    ensures forall i :: 0 <= i < |c| ==> 1 <= |c[i]| <= size
    decreases |s|
  {
    if s == [] then []
    else if |s| <= size then [s]
    else [s[..size]] + Chunks(s[size..], size)
  }

  function Flatten<T>(c: seq<seq<T>>): seq<T> {
    if c == [] then [] else Flatten(c[..|c| - 1]) + c[|c| - 1]
  }

  lemma {:induction false} FlattenCons<T>(x: seq<T>, c: seq<seq<T>>)
    ensures Flatten([x] + c) == x + Flatten(c)
  {
    if c != [] {
      FlattenCons(x, c[..|c| - 1]);
      assert ([x] + c)[..|c|] == [x] + c[..|c| - 1];
    }
  }

  lemma {:induction false} FlattenAppend<T>(a: seq<seq<T>>, b: seq<seq<T>>)
    ensures Flatten(a + b) == Flatten(a) + Flatten(b)
    decreases |b|
  {
    if b != [] {
      FlattenAppend(a, b[..|b| - 1]);
      assert (a + b)[..|a + b| - 1] == a + b[..|b| - 1];
    } else {
      assert a + b == a;
    }
  }

  /** Chunking loses, adds and reorders nothing: the pieces put back together are the input. */
  lemma {:induction false} ChunksFlatten<T>(s: seq<T>, size: nat)
    requires size > 0
    ensures Flatten(Chunks(s, size)) == s
    decreases |s|
  {
    if s != [] {
      if |s| <= size {
        assert Chunks(s, size) == [s];
        assert Flatten([s]) == Flatten([] + [s]);
      } else {
        ChunksFlatten(s[size..], size);
        FlattenCons(s[..size], Chunks(s[size..], size));
        assert s[..size] + s[size..] == s;
      }
    }
  }

  /** Every piece is a contiguous slice of the input. */
  lemma ChunkIsSlice<T>(s: seq<T>, size: nat, i: nat)
    requires size > 0 && i < |Chunks(s, size)|
    ensures i * size < |s|
    ensures Chunks(s, size)[i] == s[i * size .. if (i + 1) * size <= |s| then (i + 1) * size else |s|]
  {
    TimesIsProduct(i, size);
    assert (i + 1) * size == i * size + size;
    ChunkAt(s, size, i);
  }

  /** `i` pieces of `size`, added up one at a time. */
  function Times(i: nat, size: nat): nat {
    if i == 0 then 0 else Times(i - 1, size) + size
  }

  lemma {:induction false} TimesIsProduct(i: nat, size: nat)
    ensures Times(i, size) == i * size
  {
    if i > 0 {
      TimesIsProduct(i - 1, size);
      assert i * size == (i - 1) * size + size;
    }
  }

  /** Where a piece starting at `lo` ends: `size` on, or at the end of the input. */
  function PieceEnd(lo: nat, size: nat, n: nat): nat {
    if lo + size <= n then lo + size else n
  }

  /** The piece at `i` starts `i` pieces of `size` in. */
  lemma {:induction false} ChunkAt<T>(s: seq<T>, size: nat, i: nat)
    requires size > 0 && i < |Chunks(s, size)|
    ensures Times(i, size) < |s|
    ensures Times(i, size) <= PieceEnd(Times(i, size), size, |s|) <= |s|
    ensures Chunks(s, size)[i] == s[Times(i, size)..PieceEnd(Times(i, size), size, |s|)]
    decreases |s|
  {
    if i == 0 {
      assert Times(0, size) == 0;
    } else {
      assert |s| > size;
      var rest := s[size..];
      assert Chunks(s, size)[i] == Chunks(rest, size)[i - 1];
      ChunkAt(rest, size, i - 1);
      ChunkShift(s, size, Times(i - 1, size), Chunks(rest, size)[i - 1]);
    }
  }

  /** A piece of the input after its first `size` elements is a piece of the input, `size` further on. */
  lemma ChunkShift<T>(s: seq<T>, size: nat, lo: nat, c: seq<T>)
    requires size < |s| && lo < |s| - size
    requires c == s[size..][lo..PieceEnd(lo, size, |s| - size)]
    ensures c == s[size + lo..PieceEnd(size + lo, size, |s|)]
  {
    var hi := PieceEnd(lo, size, |s| - size);
    assert size + hi == PieceEnd(size + lo, size, |s|);
    assert s[size..][lo..hi] == s[size + lo..size + hi];
  }

  lemma {:induction false} MulMonotone(a: nat, b: nat, c: nat)
    requires a <= b
    ensures a * c <= b * c
    decreases b - a
  {
    if a < b {
      MulMonotone(a + 1, b, c);
      assert (a + 1) * c == a * c + c;
    }
  }

  /** Two different places in pieces of at most `size` elements are different places of the input. */
  lemma SlicePositionsDiffer(size: nat, i: nat, j: nat, x: nat, y: nat)
    requires x < size && y < size && (i, x) != (j, y)
    ensures i * size + x != j * size + y
  {
    if i < j {
      MulMonotone(i + 1, j, size);
      assert (i + 1) * size == i * size + size;
    } else if j < i {
      MulMonotone(j + 1, i, size);
      assert (j + 1) * size == j * size + size;
    }
  }

  /** Element `x` of piece `i` is element `i * size + x` of the input. */
  lemma ChunkElement<T>(s: seq<T>, size: nat, i: nat, x: nat)
    requires size > 0 && i < |Chunks(s, size)| && x < |Chunks(s, size)[i]|
    ensures i * size + x < |s| && Chunks(s, size)[i][x] == s[i * size + x]
  {
    ChunkIsSlice(s, size, i);
  }

  /** Two different places in the pieces are two different places of the input. */
  lemma ChunkPositions<T>(s: seq<T>, size: nat, i: nat, x: nat, j: nat, y: nat) returns (p: nat, q: nat)
    requires size > 0 && i < |Chunks(s, size)| && j < |Chunks(s, size)|
    requires x < |Chunks(s, size)[i]| && y < |Chunks(s, size)[j]|
    requires (i, x) != (j, y)
    ensures p < |s| && q < |s| && p != q
    ensures Chunks(s, size)[i][x] == s[p] && Chunks(s, size)[j][y] == s[q]
  {
    ChunkElement(s, size, i, x);
    ChunkElement(s, size, j, y);
    SlicePositionsDiffer(size, i, j, x, y);
    p, q := i * size + x, j * size + y;
  }

  /** With duplicate-free keys, no key is in two batches, nor twice in one. */
  lemma BatchesDisjoint(fetch: seq<RepoRef>, size: nat, i: nat, j: nat, x: nat, y: nat)
    requires size > 0 && Distinct(Keys(fetch))
    requires i < |Chunks(fetch, size)| && j < |Chunks(fetch, size)|
    requires x < |Chunks(fetch, size)[i]| && y < |Chunks(fetch, size)[j]|
    requires (i, x) != (j, y)
    ensures RepoKey(Chunks(fetch, size)[i][x]) != RepoKey(Chunks(fetch, size)[j][y])
  {
    var p, q := ChunkPositions(fetch, size, i, x, j, y);
    var ks := Keys(fetch);
    assert ks[p] != ks[q];
  }

  // ---------------------------------------------------------------------
  // Retry schedule
  // ---------------------------------------------------------------------

  function Min(a: int, b: int): int { if a <= b then a else b }

  /** The delays slept by `count` failed attempts: `retryDelayMs` first, then doubling, capped at `maxRetryDelayMs`. */
  function Backoff(delay: int, cap: int, count: nat): (d: seq<int>)
    ensures |d| == count
    decreases count
  {
    if count == 0 then [] else [delay] + Backoff(Min(delay * 2, cap), cap, count - 1)
  }

  function Pow2(n: nat): nat { if n == 0 then 1 else 2 * Pow2(n - 1) }

  /** Closed form of the schedule: the i-th delay after the first is min(first * 2^i, cap). */
  lemma {:induction false} BackoffClosedForm(delay: int, cap: int, count: nat, i: nat)
    requires 0 <= delay && 0 <= cap && i < count
    ensures Backoff(delay, cap, count)[i] == if i == 0 then delay else Min(delay * Pow2(i), cap)
    decreases i
  {
    if i > 0 {
      var next := Min(delay * 2, cap);
      assert Backoff(delay, cap, count)[i] == Backoff(next, cap, count - 1)[i - 1];
      BackoffClosedForm(next, cap, count - 1, i - 1);
      if i > 1 {
        CappedDoubling(delay, cap, i - 1);
      }
    }
  }

  /** Doubling then capping, followed by `k` more doublings and a cap, is `k + 1` doublings and a cap. */
  lemma CappedDoubling(delay: int, cap: int, k: nat)
    requires 0 <= delay && 0 <= cap && k >= 1
    ensures Min(Min(delay * 2, cap) * Pow2(k), cap) == Min(delay * Pow2(k + 1), cap)
  {
    var p := Pow2(k);
    assert Pow2(k + 1) == 2 * p;
    Pow2Positive(k);
    if delay * 2 <= cap {
      MulAssoc(delay, 2, p);
    } else {
      MulAtLeast(cap, p);
      MulAtLeast2(delay * 2, cap, p);
      MulAssoc(delay, 2, p);
    }
  }

  lemma MulAssoc(a: int, b: int, c: int)
    ensures (a * b) * c == a * (b * c)
  {
  }

  lemma MulAtLeast(a: int, p: int)
    requires a >= 0 && p >= 1
    ensures a * p >= a
  {
  }

  lemma MulAtLeast2(a: int, b: int, p: int)
    requires a >= b && p >= 1
    ensures a * p >= b * p
  {
  }

  lemma {:induction false} Pow2Positive(n: nat)
    ensures Pow2(n) >= 1
  {
    if n > 0 { Pow2Positive(n - 1); }
  }

  /** No delay exceeds the larger of the initial delay and the cap; all but the first stay within the cap. */
  lemma {:induction false} BackoffBounded(delay: int, cap: int, count: nat)
    ensures forall i :: 0 <= i < count ==> Backoff(delay, cap, count)[i] <= if delay <= cap then cap else delay
    ensures forall i :: 1 <= i < count ==> Backoff(delay, cap, count)[i] <= cap
    decreases count
  {
    if count > 0 {
      BackoffBounded(Min(delay * 2, cap), cap, count - 1);
    }
  }

  /** How many times a batch may be sent: the first attempt plus `retries` more (just one when retries is negative). */
  function MaxCalls(retries: int): nat {
    if retries < 0 then 1 else retries + 1
  }

  /** The client's next answer; an exhausted script answers with a failure. */
  function Head(q: seq<ClientOutcome>): ClientOutcome {
    if q == [] then Throws else q[0]
  }

  function Drop(q: seq<ClientOutcome>, n: nat): seq<ClientOutcome> {
    if n >= |q| then [] else q[n..]
  }

  lemma DropShift(q: seq<ClientOutcome>, i: nat)
    requires i >= 1
    ensures Drop(Drop(q, 1), i - 1) == Drop(q, i)
  {
  }

  lemma DropDrop(q: seq<ClientOutcome>, a: nat)
    ensures Drop(Drop(q, a), 1) == Drop(q, a + 1)
  {
  }

  /**
   * What the retry loop gets from the client answers `q` when it may call
   * at most `left` more times: how many calls it makes, and the response it
   * returns (None: it rethrows the last failure).
   */
  function Attempt(q: seq<ClientOutcome>, left: nat): (nat, Option<BatchResponse>)
    requires left >= 1
    decreases left
  {
    if Head(q).Responds? then (1, Some(Head(q).response))
    else if left == 1 then (1, None)
    else
      var next := Attempt(Drop(q, 1), left - 1);
      (next.0 + 1, next.1)
  }

  /**
   * The retry loop stops at the first response, or after `left` failures:
   * every call before the last one failed, the last one decides the
   * outcome, and giving up takes every allowed call.
   */
  lemma {:induction false} AttemptSpec(q: seq<ClientOutcome>, left: nat)
    requires left >= 1
    ensures var (n, r) := Attempt(q, left);
            && 1 <= n <= left
            && (forall i :: 0 <= i < n - 1 ==> Head(Drop(q, i)).Throws?)
            && (r.Some? <==> Head(Drop(q, n - 1)).Responds?)
            && (r.Some? ==> r.value == Head(Drop(q, n - 1)).response)
            && (r.None? ==> n == left)
    decreases left
  {
    if Head(q).Throws? && left > 1 {
      var q1 := Drop(q, 1);
      AttemptSpec(q1, left - 1);
      var n := Attempt(q, left).0;
      assert n == Attempt(q1, left - 1).0 + 1 && Attempt(q, left).1 == Attempt(q1, left - 1).1;
      forall i | 0 <= i < n - 1 ensures Head(Drop(q, i)).Throws? {
        if i > 0 {
          DropShift(q, i);
        } else {
          assert Drop(q, 0) == q;
        }
      }
      DropShift(q, n - 1);
    } else {
      assert Drop(q, 0) == q;
    }
  }


  /** A script that answers every call with a response makes every batch succeed at the first call. */
  lemma AttemptFirstResponse(q: seq<ClientOutcome>, left: nat)
    requires left >= 1 && Head(q).Responds?
    ensures Attempt(q, left) == (1, Some(Head(q).response))
  {
  }

  /** The calls, answers and leftover script of a run of `k` batches, each given `left` calls. */
  datatype Schedule = Schedule(counts: seq<nat>, answers: seq<Option<BatchResponse>>, rest: seq<ClientOutcome>)

  function RunSchedule(q: seq<ClientOutcome>, k: nat, left: nat): (s: Schedule)
    requires left >= 1
    ensures |s.counts| == k && |s.answers| == k
  {
    if k == 0 then Schedule([], [], q)
    else
      var prev := RunSchedule(q, k - 1, left);
      var step := Attempt(prev.rest, left);
      Schedule(prev.counts + [step.0], prev.answers + [step.1], Drop(prev.rest, step.0))
  }

  /** Every batch of a run is sent at least once and at most `left` times. */
  lemma {:induction false} ScheduleBounds(q: seq<ClientOutcome>, k: nat, left: nat)
    requires left >= 1
    ensures forall i :: 0 <= i < k ==> 1 <= RunSchedule(q, k, left).counts[i] <= left
  {
    if k > 0 {
      ScheduleBounds(q, k - 1, left);
      AttemptSpec(RunSchedule(q, k - 1, left).rest, left);
    }
  }

  function Sum(xs: seq<nat>): nat {
    if xs == [] then 0 else Sum(xs[..|xs| - 1]) + xs[|xs| - 1]
  }

  /** A run makes exactly as many client calls as its batches took attempts. */
  lemma {:induction false} SentLogLength(batches: seq<seq<RepoRef>>, counts: seq<nat>)
    requires |batches| == |counts|
    ensures |SentLog(batches, counts)| == Sum(counts)
  {
    if batches != [] {
      SentLogLength(batches[..|batches| - 1], counts[..|counts| - 1]);
    }
  }

  lemma MulPred(k: nat, m: nat)
    requires k >= 1
    ensures k * m == (k - 1) * m + m
  {
  }

  /** So a run of `k` batches makes at most `k * (retries + 1)` calls. */
  lemma {:induction false} ScheduleCallsBounded(q: seq<ClientOutcome>, k: nat, left: nat)
    requires left >= 1
    ensures Sum(RunSchedule(q, k, left).counts) <= k * left
  {
    if k > 0 {
      ScheduleCallsBounded(q, k - 1, left);
      var prev := RunSchedule(q, k - 1, left);
      var n := Attempt(prev.rest, left).0;
      assert n <= left by {
        AttemptSpec(prev.rest, left);
      }
      var c := prev.counts + [n];
      assert RunSchedule(q, k, left).counts == c;
      assert c[..k - 1] == prev.counts;
      MulPred(k, left);
    }
  }

  /** The stats of the answers that were responses, in order. */
  function Successes(answers: seq<Option<BatchResponse>>): seq<map<string, RepoStats>> {
    if answers == [] then []
    else
      var last := answers[|answers| - 1];
      Successes(answers[..|answers| - 1]) + (if last.Some? then [last.value.stats] else [])
  }

  function Copies<T>(x: T, n: nat): (s: seq<T>)
    ensures |s| == n && forall i :: 0 <= i < n ==> s[i] == x
  {
    if n == 0 then [] else Copies(x, n - 1) + [x]
  }

  /** The client calls made by a run of batches, batch `i` sent `counts[i]` times in a row. */
  function SentLog(batches: seq<seq<RepoRef>>, counts: seq<nat>): seq<seq<RepoRef>>
    requires |batches| == |counts|
  {
    if batches == [] then []
    else SentLog(batches[..|batches| - 1], counts[..|counts| - 1]) + Copies(batches[|batches| - 1], counts[|counts| - 1])
  }

  /** The delays one batch sleeps when it takes `calls` calls: one after each failed call but the last. */
  function Sleeps(opts: RetryOptions, calls: nat): seq<int> {
    if calls == 0 then [] else Backoff(opts.retryDelayMs, opts.maxRetryDelayMs, calls - 1)
  }

  /** The delays slept by a run of batches, batch `i` having taken `counts[i]` calls. */
  function SleepLog(counts: seq<nat>, opts: RetryOptions): seq<int> {
    if counts == [] then [] else SleepLog(counts[..|counts| - 1], opts) + Sleeps(opts, counts[|counts| - 1])
  }

  lemma SleepLogSnoc(counts: seq<nat>, c: nat, opts: RetryOptions)
    ensures SleepLog(counts + [c], opts) == SleepLog(counts, opts) + Sleeps(opts, c)
  {
    assert (counts + [c])[..|counts|] == counts;
  }

  /** A run sleeps once between each two calls of the same batch, and never between batches. */
  lemma {:induction false} SleepLogLength(counts: seq<nat>, opts: RetryOptions)
    requires forall i :: 0 <= i < |counts| ==> counts[i] >= 1
    ensures |SleepLog(counts, opts)| + |counts| == Sum(counts)
  {
    if counts != [] {
      SleepLogLength(counts[..|counts| - 1], opts);
    }
  }

  /** With a first delay no larger than the cap, no delay a run sleeps is above the cap. */
  lemma {:induction false} SleepLogBounded(counts: seq<nat>, opts: RetryOptions)
    requires opts.retryDelayMs <= opts.maxRetryDelayMs
    ensures forall i :: 0 <= i < |SleepLog(counts, opts)| ==> SleepLog(counts, opts)[i] <= opts.maxRetryDelayMs
  {
    if counts != [] {
      var init := counts[..|counts| - 1];
      SleepLogBounded(init, opts);
      var c := counts[|counts| - 1];
      if c > 0 {
        BackoffBounded(opts.retryDelayMs, opts.maxRetryDelayMs, c - 1);
      }
    }
  }

  // ---------------------------------------------------------------------
  // Merging responses
  // ---------------------------------------------------------------------

  /** `processBatch`'s write-through of one response: each returned key gets a new row stamped `now`. */
  function WriteThrough(rows: map<string, CacheEntry>, stats: map<string, RepoStats>, now: int): map<string, CacheEntry> {
    map k | k in rows.Keys + stats.Keys :: if k in stats then ToEntry(stats[k], now) else rows[k]
  }

  /** The cache after a sequence of successful responses, oldest first. */
  function WriteThroughAll(rows: map<string, CacheEntry>, rs: seq<map<string, RepoStats>>, now: int): map<string, CacheEntry> {
    if rs == [] then rows else WriteThrough(WriteThroughAll(rows, rs[..|rs| - 1], now), rs[|rs| - 1], now)
  }

  function Returned(rs: seq<map<string, RepoStats>>): set<string> {
    if rs == [] then {} else Returned(rs[..|rs| - 1]) + rs[|rs| - 1].Keys
  }

  /** The stats the latest response holding `k` gave for it. */
  function LastReturned(rs: seq<map<string, RepoStats>>, k: string): RepoStats
    requires k in Returned(rs)
  {
    if k in rs[|rs| - 1] then rs[|rs| - 1][k] else LastReturned(rs[..|rs| - 1], k)
  }

  /** After the write-throughs, a key's row comes from the latest response holding it, else it is the old row. */
  lemma {:induction false} WriteThroughAllAt(rows: map<string, CacheEntry>, rs: seq<map<string, RepoStats>>, now: int, k: string)
    ensures k in WriteThroughAll(rows, rs, now) <==> k in rows || k in Returned(rs)
    ensures k in Returned(rs) ==> WriteThroughAll(rows, rs, now)[k] == ToEntry(LastReturned(rs, k), now)
    ensures k !in Returned(rs) && k in rows ==> WriteThroughAll(rows, rs, now)[k] == rows[k]
  {
    if rs != [] {
      WriteThroughAllAt(rows, rs[..|rs| - 1], now, k);
    }
  }

  /**
   * The results a run returns: a key returned by some response carries the
   * latest such response's stats; otherwise a fresh key carries its cached
   * stats; otherwise a fetched key with a row before the run carries that
   * row, however old; every other key is absent.
   */
  function Merged(hits: map<string, RepoStats>, rs: seq<map<string, RepoStats>>, fetched: set<string>,
                  rows: map<string, CacheEntry>): map<string, RepoStats>
  {
    map k | k in hits.Keys + Returned(rs) + (fetched * rows.Keys) ::
      if k in Returned(rs) then LastReturned(rs, k)
      else if k in hits then hits[k]
      else FromEntry(rows[k])
  }

  /** `finally`: every key of the batch still missing takes its cached row, whatever its age. */
  function Fallback(results: map<string, RepoStats>, batch: seq<RepoRef>, rows: map<string, CacheEntry>)
    : map<string, RepoStats>
  {
    map k | k in results.Keys + (KeySet(batch) * rows.Keys) :: if k in results then results[k] else FromEntry(rows[k])
  }

  /** Filling one more reference: its key takes the cached row exactly when it is still missing and cached. */
  lemma FallbackStep(results: map<string, RepoStats>, prefix: seq<RepoRef>, r: RepoRef, rows: map<string, CacheEntry>)
    ensures var f := Fallback(results, prefix, rows);
            var k := RepoKey(r);
            Fallback(results, prefix + [r], rows) == if k !in f && k in rows then f[k := FromEntry(rows[k])] else f
  {
    KeySetAppend(prefix, [r]);
    assert KeySet([r]) == {RepoKey(r)};
    var f := Fallback(results, prefix, rows);
    var g := Fallback(results, prefix + [r], rows);
    var key := RepoKey(r);
    var want := if key !in f && key in rows then f[key := FromEntry(rows[key])] else f;
    forall k ensures (k in g <==> k in want) && (k in g ==> g[k] == want[k]) {
    }
  }

  /**
   * One batch keeps the run's results and cache in step with Merged and
   * WriteThroughAll, whether it succeeds (`resp` holds its stats) or fails.
   */
  lemma MergeStep(hits: map<string, RepoStats>, rs: seq<map<string, RepoStats>>, done: set<string>,
                  rows: map<string, CacheEntry>, now: int, batch: seq<RepoRef>, resp: Option<map<string, RepoStats>>)
    requires hits.Keys !! KeySet(batch)
    ensures var rs' := if resp.Some? then rs + [resp.value] else rs;
            var before := Merged(hits, rs, done, rows);
            var cache := WriteThroughAll(rows, rs', now);
            var after := if resp.Some? then Fallback(before + resp.value, batch, cache) else Fallback(before, batch, cache);
            after == Merged(hits, rs', done + KeySet(batch), rows)
  {
    var rs' := if resp.Some? then rs + [resp.value] else rs;
    var before := Merged(hits, rs, done, rows);
    var cache := WriteThroughAll(rows, rs', now);
    var mid := if resp.Some? then before + resp.value else before;
    var after := Fallback(mid, batch, cache);
    var want := Merged(hits, rs', done + KeySet(batch), rows);
    if resp.Some? {
      assert rs'[..|rs'| - 1] == rs;
    }
    assert Returned(rs') == Returned(rs) + (if resp.Some? then resp.value.Keys else {});
    forall k | k in Returned(rs) && (resp.None? || k !in resp.value)
      ensures LastReturned(rs', k) == LastReturned(rs, k)
    {
    }
    forall k ensures (k in after <==> k in want) && (k in after ==> after[k] == want[k]) {
      WriteThroughAllAt(rows, rs', now, k);
    }
    assert after == want;
  }

  // ---------------------------------------------------------------------
  // The pipeline
  // ---------------------------------------------------------------------

  function Range(a: nat, b: nat): (s: seq<nat>)
    ensures |s| == if a <= b then b - a else 0
    ensures forall i :: 0 <= i < |s| ==> s[i] == a + i
    decreases b - a
  {
    if a >= b then [] else [a] + Range(a + 1, b)
  }


  lemma {:induction false} BackoffStep(delay: int, cap: int, k: nat)
    ensures Backoff(delay, cap, k + 1) == Backoff(delay, cap, k) + [Backoff(delay, cap, k + 1)[k]]
    ensures Backoff(delay, cap, k + 2)[k + 1] == Min(Backoff(delay, cap, k + 1)[k] * 2, cap)
    decreases k
  {
    if k > 0 {
      BackoffStep(Min(delay * 2, cap), cap, k - 1);
    }
  }

  lemma KeySetAppend(a: seq<RepoRef>, b: seq<RepoRef>)
    ensures KeySet(a + b) == KeySet(a) + KeySet(b)
  {
    assert forall r :: r in a + b <==> r in a || r in b;
  }

  /** The keys a run answers from the cache without asking the client. */
  function HitsOf(repos: seq<RepoRef>, rows: map<string, CacheEntry>, now: int, maxAge: int): map<string, RepoStats> {
    FreshStats(DedupKeys(repos), rows, now, maxAge)
  }

  /** The references a run sends to the client, before batching. */
  function FetchList(repos: seq<RepoRef>, rows: map<string, CacheEntry>, now: int, maxAge: int): seq<RepoRef> {
    ToFetch(DedupKeys(repos), Unique(repos), rows, now, maxAge)
  }

  /**
   * Every requested key is either answered from the cache or sent, never
   * both, and a sent key is sent once: deduplication happens before any
   * request.
   */
  lemma HitsAndFetchPartition(repos: seq<RepoRef>, rows: map<string, CacheEntry>, now: int, maxAge: int)
    ensures Distinct(Keys(FetchList(repos, rows, now, maxAge)))
    ensures HitsOf(repos, rows, now, maxAge).Keys !! KeySet(FetchList(repos, rows, now, maxAge))
    ensures HitsOf(repos, rows, now, maxAge).Keys + KeySet(FetchList(repos, rows, now, maxAge)) == KeySet(repos)
    ensures forall k :: k in KeySet(FetchList(repos, rows, now, maxAge)) ==> !IsFresh(rows, k, now, maxAge)
  {
    ToFetchKeys(DedupKeys(repos), Unique(repos), rows, now, maxAge);
  }

  /** With the cache disabled (max age 0 or less) nothing is answered from it up front and every key is sent. */
  lemma CacheDisabledFetchesAll(repos: seq<RepoRef>, rows: map<string, CacheEntry>, now: int, maxAge: int)
    requires maxAge <= 0
    ensures HitsOf(repos, rows, now, maxAge) == map[]
    ensures KeySet(FetchList(repos, rows, now, maxAge)) == KeySet(repos)
  {
    HitsAndFetchPartition(repos, rows, now, maxAge);
  }

  /** Every batch holds only references of the list it was cut from. */
  lemma ChunkWithin<T>(s: seq<T>, size: nat, b: nat)
    requires size > 0 && b < |Chunks(s, size)|
    ensures forall r :: r in Chunks(s, size)[b] ==> r in s
  {
    forall r | r in Chunks(s, size)[b] ensures r in s {
      var x :| 0 <= x < |Chunks(s, size)[b]| && Chunks(s, size)[b][x] == r;
      ChunkElement(s, size, b, x);
    }
  }

  /** The keys of each batch of a run are disjoint from the cache hits. */
  lemma BatchKeysNotHits(repos: seq<RepoRef>, rows: map<string, CacheEntry>, now: int, maxAge: int,
                         size: nat, b: nat)
    requires size > 0 && b < |Chunks(FetchList(repos, rows, now, maxAge), size)|
    ensures HitsOf(repos, rows, now, maxAge).Keys !! KeySet(Chunks(FetchList(repos, rows, now, maxAge), size)[b])
  {
    var fetch := FetchList(repos, rows, now, maxAge);
    HitsAndFetchPartition(repos, rows, now, maxAge);
    ChunkWithin(fetch, size, b);
    assert KeySet(Chunks(fetch, size)[b]) <= KeySet(fetch);
  }

  /** Keys kept out of a list stay out of each of its batches. */
  lemma BatchesAvoid(s: seq<RepoRef>, size: nat, keys: set<string>)
    requires size > 0 && keys !! KeySet(s)
    ensures forall b :: 0 <= b < |Chunks(s, size)| ==> keys !! KeySet(Chunks(s, size)[b])
  {
    forall b | 0 <= b < |Chunks(s, size)| ensures keys !! KeySet(Chunks(s, size)[b]) {
      ChunkWithin(s, size, b);
      assert KeySet(Chunks(s, size)[b]) <= KeySet(s);
    }
  }

  /** A set of task ids given as a range. */
  function Span(a: nat, b: nat): set<nat> {
    set k | k in Range(a, b)
  }

  /** The limiter after tasks `0 .. t-1` were submitted and none settled: the first `limit` run, the rest wait. */
  ghost predicate SubmittedInOrder(limiter: Limiter.Limiter, t: nat)
    reads limiter
  {
    && limiter.Valid()
    && limiter.submitted == Range(0, t)
    && limiter.active == Min(t, limiter.limit)
    && limiter.queue == Range(Min(t, limiter.limit), t)
    && limiter.running == Span(0, Min(t, limiter.limit))
  }

  /** Task `t` is submitted. */
  method SubmitNext(limiter: Limiter.Limiter, t: nat)
    requires SubmittedInOrder(limiter, t)
    modifies limiter
    ensures SubmittedInOrder(limiter, t + 1)
  {
    SubmitShape(t, limiter.limit);
    limiter.Submit(t);
  }

  /** The submitted log, queue and running set of SubmittedInOrder for `t` and `t + 1`. */
  lemma SubmitShape(t: nat, lim: int)
    requires 0 < lim
    ensures Range(0, t + 1) == Range(0, t) + [t] && t !in Range(0, t)
    ensures t < lim ==> Min(t + 1, lim) == t + 1 && Range(Min(t + 1, lim), t + 1) == []
                        && Span(0, Min(t + 1, lim)) == Span(0, Min(t, lim)) + {t}
    ensures t >= lim ==> Min(t + 1, lim) == lim && Range(Min(t + 1, lim), t + 1) == Range(Min(t, lim), t) + [t]
  {
    RangeSnoc(0, t);
    if t < lim {
      SpanSnoc(0, t);
    } else {
      RangeSnoc(lim, t);
    }
  }

  /** A sequence that opens with `p` is `p` and the rest. */
  lemma PrefixAndRest<T>(s: seq<T>, p: seq<T>)
    requires |p| <= |s| && s[..|p|] == p
    ensures s == p + s[|p|..]
  {
    assert s == s[..|p|] + s[|p|..];
  }

  lemma RangeSnoc(a: nat, b: nat)
    requires a <= b
    ensures Range(a, b + 1) == Range(a, b) + [b]
  {
  }

  lemma RangeTail(a: nat, b: nat)
    requires a < b
    ensures Range(a, b)[0] == a && Range(a, b)[1..] == Range(a + 1, b)
  {
  }

  lemma SpanSnoc(a: nat, b: nat)
    requires a <= b
    ensures Span(a, b + 1) == Span(a, b) + {b}
  {
    RangeSnoc(a, b);
  }

  lemma SpanShift(a: nat, b: nat)
    requires a < b
    ensures a in Span(a, b)
    ensures Span(a + 1, b) == Span(a, b) - {a}
    ensures Span(a + 1, b + 1) == Span(a, b) - {a} + {b}
  {
    InSpan(a, b, a);
    SpanDrop(a, b);
    SpanSlide(a, b);
  }

  lemma SpanDrop(a: nat, b: nat)
    ensures Span(a + 1, b) == Span(a, b) - {a}
  {
    forall k ensures k in Span(a + 1, b) <==> k in Span(a, b) - {a} {
      InSpan(a + 1, b, k);
      InSpan(a, b, k);
    }
  }

  lemma SpanSlide(a: nat, b: nat)
    requires a < b
    ensures Span(a + 1, b + 1) == Span(a, b) - {a} + {b}
  {
    forall k ensures k in Span(a + 1, b + 1) <==> k in Span(a, b) - {a} + {b} {
      InSpan(a + 1, b + 1, k);
      InSpan(a, b, k);
    }
  }

  /** The ids of a span are those from `a` up to, not including, `b`. */
  lemma InSpan(a: nat, b: nat, k: nat)
    ensures k in Span(a, b) <==> a <= k < b
  {
    var r := Range(a, b);
    if a <= k < b {
      assert r[k - a] == k;
    }
  }

  /**
   * The limiter while `n` batches run in submission order and the first `b`
   * have settled: the next `limit` of them run, the rest wait in order.
   */
  ghost predicate InOrder(limiter: Limiter.Limiter, b: nat, n: nat)
    reads limiter
  {
    && limiter.Valid()
    && limiter.queue == Range(Min(n, b + limiter.limit), n)
    && limiter.running == Span(b, Min(n, b + limiter.limit))
  }

  method SettleInOrder(limiter: Limiter.Limiter, b: nat, n: nat)
    requires b < n && InOrder(limiter, b, n)
    modifies limiter
    ensures InOrder(limiter, b + 1, n)
  {
    SettleOldest(limiter, b, n);
  }

  /**
   * Task `b`, the oldest running one, settles: the limiter frees its slot
   * and starts the next queued batch, if any.
   */
  method SettleOldest(limiter: Limiter.Limiter, b: nat, n: nat)
    requires limiter.Valid() && b < n
    requires limiter.queue == Range(Min(n, b + limiter.limit), n)
    requires limiter.running == Span(b, Min(n, b + limiter.limit))
    modifies limiter
    ensures limiter.Valid()
    ensures limiter.queue == Range(Min(n, b + 1 + limiter.limit), n)
    ensures limiter.running == Span(b + 1, Min(n, b + 1 + limiter.limit))
  {
    SettleShape(limiter.queue, limiter.running, b, n, limiter.limit);
    limiter.Settle(b, Limiter.Fulfilled);
  }

  /** The queue and running set of `InOrder` before and after the oldest task settles. */
  lemma SettleShape(q0: seq<nat>, r0: set<nat>, b: nat, n: nat, lim: int)
    requires b < n && 0 < lim
    requires q0 == Range(Min(n, b + lim), n) && r0 == Span(b, Min(n, b + lim))
    ensures b in r0
    ensures q0 == [] ==> Range(Min(n, b + 1 + lim), n) == [] && Span(b + 1, Min(n, b + 1 + lim)) == r0 - {b}
    ensures q0 != [] ==> q0[1..] == Range(Min(n, b + 1 + lim), n) && Span(b + 1, Min(n, b + 1 + lim)) == r0 - {b} + {q0[0]}
  {
    var hi := Min(n, b + lim);
    SpanShift(b, hi);
    if b + lim < n {
      RangeTail(hi, n);
    }
  }

  lemma SentLogSnoc(batches: seq<seq<RepoRef>>, counts: seq<nat>, b: nat, c: nat)
    requires b < |batches| && |counts| == b
    ensures SentLog(batches[..b + 1], counts + [c]) == SentLog(batches[..b], counts) + Copies(batches[b], c)
  {
    assert batches[..b + 1][..b] == batches[..b];
    assert (counts + [c])[..b] == counts;
  }

  lemma WriteThroughAllSnoc(rows: map<string, CacheEntry>, rs: seq<map<string, RepoStats>>,
                            stats: map<string, RepoStats>, now: int)
    ensures WriteThroughAll(rows, rs + [stats], now) == WriteThrough(WriteThroughAll(rows, rs, now), stats, now)
  {
    assert (rs + [stats])[..|rs|] == rs;
  }

  lemma FlattenSnoc(batches: seq<seq<RepoRef>>, b: nat)
    requires b < |batches|
    ensures KeySet(Flatten(batches[..b + 1])) == KeySet(Flatten(batches[..b])) + KeySet(batches[b])
  {
    assert batches[..b + 1][..b] == batches[..b];
    KeySetAppend(Flatten(batches[..b]), batches[b]);
  }

  /** `for (const repo of repos) unique.set(repoKey(repo), repo)`: the keys in first-seen order and the last reference per key. */
  method DedupRefs(repos: seq<RepoRef>) returns (order: seq<string>, unique: map<string, RepoRef>)
    ensures order == DedupKeys(repos) && unique == Unique(repos)
    ensures Distinct(order) && forall k :: k in order <==> k in unique
  {
    order := [];
    unique := map[];
    var i := 0;
    while i < |repos|
      invariant 0 <= i <= |repos|
      invariant order == DedupKeys(repos[..i]) && unique == Unique(repos[..i])
    {
      assert repos[..i + 1][..i] == repos[..i];
      var key := RepoKey(repos[i]);
      if key !in order {
        order := order + [key];
      }
      unique := unique[key := repos[i]];
      i := i + 1;
    }
    assert repos[..i] == repos;
  }

  /** Ghost snapshot of a pipeline's logs, script and cache. */
  datatype Snapshot = Snapshot(received: seq<map<string, RepoStats>>, attempts: seq<nat>, sent: seq<seq<RepoRef>>,
                               slept: seq<int>, outcomes: seq<ClientOutcome>, rows: map<string, CacheEntry>)

  /**
   * A run from snapshot `start` to snapshot `cur` after its first `b`
   * batches: the client was called and answered as RunSchedule says, the
   * cache holds every response written through, and the results are Merged
   * over them.
   */
  ghost predicate ProgressAt(batches: seq<seq<RepoRef>>, b: nat, hits: map<string, RepoStats>, opts: RetryOptions,
                             now: int, results: map<string, RepoStats>, start: Snapshot, cur: Snapshot)
  {
    && b <= |batches|
    && LogsAt(batches, b, opts, start, cur)
    && CacheAt(batches, b, hits, opts, now, results, start, cur)
  }

  /** The client's calls and answers of the first `b` batches, as RunSchedule says. */
  ghost predicate LogsAt(batches: seq<seq<RepoRef>>, b: nat, opts: RetryOptions, start: Snapshot, cur: Snapshot)
    requires b <= |batches|
  {
    && |start.received| <= |cur.received| && cur.received[..|start.received|] == start.received
    && |start.attempts| <= |cur.attempts| && cur.attempts[..|start.attempts|] == start.attempts
    && var sch := RunSchedule(start.outcomes, b, MaxCalls(opts.retries));
    && cur.attempts[|start.attempts|..] == sch.counts
    && cur.received[|start.received|..] == Successes(sch.answers)
    && cur.outcomes == sch.rest
    && cur.sent == start.sent + SentLog(batches[..b], sch.counts)
    && cur.slept == start.slept + SleepLog(sch.counts, opts)
  }

  /** The cache and the results after the first `b` batches: every success written through, the results Merged. */
  ghost predicate CacheAt(batches: seq<seq<RepoRef>>, b: nat, hits: map<string, RepoStats>, opts: RetryOptions,
                          now: int, results: map<string, RepoStats>, start: Snapshot, cur: Snapshot)
    requires b <= |batches|
  {
    var rs := Successes(RunSchedule(start.outcomes, b, MaxCalls(opts.retries)).answers);
    && cur.rows == WriteThroughAll(start.rows, rs, now)
    && results == Merged(hits, rs, KeySet(Flatten(batches[..b])), start.rows)
  }

  /** What one `processBatch` of `batch` does, from snapshot `s0` and `results` to `s1` and `results'`. */
  ghost predicate Processed(batch: seq<RepoRef>, opts: RetryOptions, now: int,
                            results: map<string, RepoStats>, results': map<string, RepoStats>, s0: Snapshot, s1: Snapshot)
  {
    CallsMade(batch, opts, s0, s1) && ResponseMerged(batch, opts, now, results, results', s0, s1)
  }

  /** The client calls of one batch: one Attempt on the script, logged. */
  ghost predicate CallsMade(batch: seq<RepoRef>, opts: RetryOptions, s0: Snapshot, s1: Snapshot) {
    && |s1.attempts| == |s0.attempts| + 1 && s1.attempts[..|s0.attempts|] == s0.attempts
    && var step := Attempt(s0.outcomes, MaxCalls(opts.retries));
    && s1.attempts[|s1.attempts| - 1] == step.0
    && s1.sent == s0.sent + Copies(batch, step.0)
    && s1.slept == s0.slept + Sleeps(opts, step.0)
    && s1.outcomes == Drop(s0.outcomes, step.0)
    && (step.1.None? ==> s1.received == s0.received)
    && (step.1.Some? ==> s1.received == s0.received + [step.1.value.stats])
  }

  /** The response of one batch, if any, written through to the cache, and the batch's keys filled in. */
  ghost predicate ResponseMerged(batch: seq<RepoRef>, opts: RetryOptions, now: int,
                                 results: map<string, RepoStats>, results': map<string, RepoStats>, s0: Snapshot, s1: Snapshot)
  {
    var step := Attempt(s0.outcomes, MaxCalls(opts.retries));
    && (step.1.None? ==> s1.rows == s0.rows && results' == Fallback(results, batch, s1.rows))
    && (step.1.Some? ==>
          && s1.rows == WriteThrough(s0.rows, step.1.value.stats, now)
          && results' == Fallback(results + step.1.value.stats, batch, s1.rows))
  }

  /** A log that grew by one entry since `p` was its prefix: what follows `p` grew by that entry. */
  lemma LogSnoc<T>(p: seq<T>, l0: seq<T>, l1: seq<T>, tail: seq<T>, x: T)
    requires |p| <= |l0| && l0[..|p|] == p && l0[|p|..] == tail
    requires l1 == l0 + [x]
    ensures |p| <= |l1| && l1[..|p|] == p && l1[|p|..] == tail + [x]
  {
    assert l1[..|p|] == l0[..|p|];
    assert l1[|p|..] == l0[|p|..] + [x];
  }

  /** The schedule of one more batch: the previous one and one more Attempt on what is left of the script. */
  lemma RunScheduleSnoc(q: seq<ClientOutcome>, b: nat, left: nat)
    requires left >= 1
    ensures var sch := RunSchedule(q, b, left);
            var step := Attempt(sch.rest, left);
            var sch' := RunSchedule(q, b + 1, left);
            && sch'.counts == sch.counts + [step.0] && sch'.answers == sch.answers + [step.1]
            && sch'.rest == Drop(sch.rest, step.0)
            && Successes(sch'.answers) == if step.1.Some? then Successes(sch.answers) + [step.1.value.stats] else Successes(sch.answers)
  {
    var sch := RunSchedule(q, b, left);
    var step := Attempt(sch.rest, left);
    assert (sch.answers + [step.1])[..|sch.answers|] == sch.answers;
  }

  /** One more batch processed keeps the run in step with RunSchedule and Merged. */
  lemma ProgressStep(batches: seq<seq<RepoRef>>, b: nat, hits: map<string, RepoStats>, opts: RetryOptions, now: int,
                     results: map<string, RepoStats>, results': map<string, RepoStats>, start: Snapshot, s0: Snapshot, s1: Snapshot)
    requires b < |batches| && hits.Keys !! KeySet(batches[b])
    requires ProgressAt(batches, b, hits, opts, now, results, start, s0)
    requires Processed(batches[b], opts, now, results, results', s0, s1)
    ensures ProgressAt(batches, b + 1, hits, opts, now, results', start, s1)
  {
    LogsStep(batches, b, opts, start, s0, s1);
    CacheAtStep(batches, b, hits, opts, now, results, results', start, s0, s1);
  }

  lemma LogsStep(batches: seq<seq<RepoRef>>, b: nat, opts: RetryOptions, start: Snapshot, s0: Snapshot, s1: Snapshot)
    requires b < |batches|
    requires LogsAt(batches, b, opts, start, s0)
    requires CallsMade(batches[b], opts, s0, s1)
    ensures LogsAt(batches, b + 1, opts, start, s1)
  {
    var left := MaxCalls(opts.retries);
    var sch := RunSchedule(start.outcomes, b, left);
    var step := Attempt(sch.rest, left);
    RunScheduleSnoc(start.outcomes, b, left);
    LastEntry(start.attempts, s0.attempts, s1.attempts, sch.counts, step.0);
    SentLogSnoc(batches, sch.counts, b, step.0);
    SleptStep(start.slept, s0.slept, s1.slept, sch.counts, step.0, opts);
    if step.1.Some? {
      LogSnoc(start.received, s0.received, s1.received, Successes(sch.answers), step.1.value.stats);
    }
  }

  /** The sleep log after one more batch that took `c` calls. */
  lemma SleptStep(p: seq<int>, l0: seq<int>, l1: seq<int>, counts: seq<nat>, c: nat, opts: RetryOptions)
    requires l0 == p + SleepLog(counts, opts) && l1 == l0 + Sleeps(opts, c)
    ensures l1 == p + SleepLog(counts + [c], opts)
  {
    SleepLogSnoc(counts, c, opts);
    AppendStep(p, l0, l1, SleepLog(counts, opts), Sleeps(opts, c), SleepLog(counts + [c], opts));
  }

  /** A log `p + a` extended by `b` is `p` followed by `a + b`. */
  lemma AppendStep<T>(p: seq<T>, l0: seq<T>, l1: seq<T>, a: seq<T>, b: seq<T>, ab: seq<T>)
    requires l0 == p + a && l1 == l0 + b && ab == a + b
    ensures l1 == p + ab
  {
    assert (p + a) + b == p + (a + b);
  }

  /** A log that grew by the entry `x`, stated as a prefix and a last element. */
  lemma LastEntry<T>(p: seq<T>, l0: seq<T>, l1: seq<T>, tail: seq<T>, x: T)
    requires |p| <= |l0| && l0[..|p|] == p && l0[|p|..] == tail
    requires |l1| == |l0| + 1 && l1[..|l0|] == l0 && l1[|l1| - 1] == x
    ensures |p| <= |l1| && l1[..|p|] == p && l1[|p|..] == tail + [x]
  {
    assert l1 == l1[..|l0|] + [l1[|l1| - 1]];
    LogSnoc(p, l0, l1, tail, x);
  }

  lemma CacheAtStep(batches: seq<seq<RepoRef>>, b: nat, hits: map<string, RepoStats>, opts: RetryOptions, now: int,
                    results: map<string, RepoStats>, results': map<string, RepoStats>, start: Snapshot, s0: Snapshot, s1: Snapshot)
    requires b < |batches| && hits.Keys !! KeySet(batches[b])
    requires s0.outcomes == RunSchedule(start.outcomes, b, MaxCalls(opts.retries)).rest
    requires CacheAt(batches, b, hits, opts, now, results, start, s0)
    requires ResponseMerged(batches[b], opts, now, results, results', s0, s1)
    ensures CacheAt(batches, b + 1, hits, opts, now, results', start, s1)
  {
    var left := MaxCalls(opts.retries);
    var sch := RunSchedule(start.outcomes, b, left);
    var step := Attempt(sch.rest, left);
    RunScheduleSnoc(start.outcomes, b, left);
    var resp: Option<map<string, RepoStats>> := if step.1.Some? then Some(step.1.value.stats) else None;
    CacheStep(batches, b, hits, now, Successes(sch.answers), start.rows, s0.rows, s1.rows, results, results', resp);
  }

  /** The cache and the results after one more batch, given how `processBatch` changed them. */
  lemma CacheStep(batches: seq<seq<RepoRef>>, b: nat, hits: map<string, RepoStats>, now: int,
                  rs: seq<map<string, RepoStats>>, rows: map<string, CacheEntry>,
                  rows0: map<string, CacheEntry>, rows1: map<string, CacheEntry>,
                  results: map<string, RepoStats>, results': map<string, RepoStats>, resp: Option<map<string, RepoStats>>)
    requires b < |batches| && hits.Keys !! KeySet(batches[b])
    requires rows0 == WriteThroughAll(rows, rs, now)
    requires results == Merged(hits, rs, KeySet(Flatten(batches[..b])), rows)
    requires resp.None? ==> rows1 == rows0 && results' == Fallback(results, batches[b], rows1)
    requires resp.Some? ==> rows1 == WriteThrough(rows0, resp.value, now) && results' == Fallback(results + resp.value, batches[b], rows1)
    ensures var rs' := if resp.Some? then rs + [resp.value] else rs;
            && rows1 == WriteThroughAll(rows, rs', now)
            && results' == Merged(hits, rs', KeySet(Flatten(batches[..b + 1])), rows)
  {
    if resp.Some? {
      WriteThroughAllSnoc(rows, rs, resp.value, now);
    }
    MergeStep(hits, rs, KeySet(Flatten(batches[..b])), rows, now, batches[b], resp);
    FlattenSnoc(batches, b);
  }

  class StatsPipeline {
    /** The star cache the pipeline reads and writes through to. */
    const store: Store
    /** `Math.floor(Date.now() / 1000)`, read once when a run starts. */
    const now: int
    /** The remote client's remaining scripted answers, in call order. */
    var outcomes: seq<ClientOutcome>

    /** Every batch handed to the client, one entry per call (the fake client's `batches`). */
    var sent: seq<seq<RepoRef>>
    /** Every backoff delay slept. */
    ghost var slept: seq<int>
    /** How many client calls each processed batch took. */
    ghost var attempts: seq<nat>
    /** The stats of every successful response, in order. */
    ghost var received: seq<map<string, RepoStats>>

    constructor (store: Store, now: int, outcomes: seq<ClientOutcome>)
      ensures this.store == store && this.now == now && this.outcomes == outcomes
      ensures sent == [] && slept == [] && attempts == [] && received == []
    {
      this.store := store;
      this.now := now;
      this.outcomes := outcomes;
      sent := [];
      slept := [];
      attempts := [];
      received := [];
    }

    /** One call of `client.fetchRepoStatsBatch(batch)`. */
    method CallClient(batch: seq<RepoRef>) returns (o: ClientOutcome)
      modifies this
      ensures o == Head(old(outcomes)) && outcomes == Drop(old(outcomes), 1)
      ensures sent == old(sent) + [batch]
      ensures slept == old(slept) && attempts == old(attempts) && received == old(received)
    {
      o := Head(outcomes);
      outcomes := Drop(outcomes, 1);
      sent := sent + [batch];
    }

    /**
     * `fetchBatchWithRetry`: call the client until it responds, sleeping the
     * backoff delay after each failure, and give up (None: the error is
     * rethrown) once the failure count exceeds `retries`.
     */
    method FetchBatchWithRetry(batch: seq<RepoRef>, opts: RetryOptions) returns (r: Option<BatchResponse>)
      modifies this
      ensures |old(sent)| < |sent|
      ensures var n := |sent| - |old(sent)|;
              && (n, r) == Attempt(old(outcomes), MaxCalls(opts.retries))
              && sent == old(sent) + Copies(batch, n)
              && outcomes == Drop(old(outcomes), n)
              && slept == old(slept) + Backoff(opts.retryDelayMs, opts.maxRetryDelayMs, n - 1)
      ensures attempts == old(attempts) && received == old(received)
    {
      var attempt := 0;
      var delay := opts.retryDelayMs;
      ghost var limit := MaxCalls(opts.retries);
      while true
        invariant 0 <= attempt < limit
        invariant |sent| == |old(sent)| + attempt
        invariant sent == old(sent) + Copies(batch, attempt)
        invariant outcomes == Drop(old(outcomes), attempt)
        invariant var rest := Attempt(outcomes, limit - attempt);
                  Attempt(old(outcomes), limit) == (attempt + rest.0, rest.1)
        invariant slept == old(slept) + Backoff(opts.retryDelayMs, opts.maxRetryDelayMs, attempt)
        invariant delay == Backoff(opts.retryDelayMs, opts.maxRetryDelayMs, attempt + 1)[attempt]
        invariant attempts == old(attempts) && received == old(received)
        decreases limit - attempt
      {
        var o := CallClient(batch);
        DropDrop(old(outcomes), attempt);
        if o.Responds? {
          return Some(o.response);
        }
        attempt := attempt + 1;
        if attempt > opts.retries {
          return None;
        }
        BackoffStep(opts.retryDelayMs, opts.maxRetryDelayMs, attempt - 1);
        slept := slept + [delay];
        delay := Min(delay * 2, opts.maxRetryDelayMs);
      }
    }

    /** The `try` body after a response: each returned key goes into the results and, stamped `now`, into the cache. */
    method WriteResponse(stats: map<string, RepoStats>, results: map<string, RepoStats>)
      returns (results': map<string, RepoStats>)
      modifies store
      ensures results' == results + stats
      ensures store.rows == WriteThrough(old(store.rows), stats, now)
    {
      results' := results;
      var remaining := stats.Keys;
      ghost var done: set<string> := {};
      while remaining != {}
        invariant remaining + done == stats.Keys && remaining !! done
        invariant results'.Keys == results.Keys + done
        invariant forall k :: k in results' ==> results'[k] == if k in done then stats[k] else results[k]
        invariant store.rows.Keys == old(store.rows).Keys + done
        invariant forall k :: k in store.rows ==>
                    store.rows[k] == if k in done then ToEntry(stats[k], now) else old(store.rows)[k]
        decreases remaining
      {
        var key :| key in remaining;
        results' := results'[key := stats[key]];
        store.Set(key, stats[key].stars, Stored(stats[key].lastCommitAt), now);
        remaining := remaining - {key};
        done := done + {key};
      }
    }

    /** The `finally` block: each key of the batch still missing takes the cached row, if there is one. */
    method FillFromCache(batch: seq<RepoRef>, results: map<string, RepoStats>) returns (results': map<string, RepoStats>)
      ensures results' == Fallback(results, batch, store.rows)
    {
      results' := results;
      var i := 0;
      while i < |batch|
        invariant 0 <= i <= |batch|
        invariant results' == Fallback(results, batch[..i], store.rows)
      {
        var key := RepoKey(batch[i]);
        assert batch[..i + 1] == batch[..i] + [batch[i]];
        FallbackStep(results, batch[..i], batch[i], store.rows);
        if key !in results' {
          var cached := store.GetEntry(key);
          if cached.Some? {
            results' := results'[key := FromEntry(cached.value)];
          }
        }
        i := i + 1;
      }
      assert batch[..i] == batch;
    }

    /**
     * `processBatch`: fetch with retry; on a response write it into the
     * results and through to the cache; then fill the batch's missing keys
     * from the cache. A failure is swallowed: it only leaves the response
     * out.
     */
    method ProcessBatch(batch: seq<RepoRef>, results: map<string, RepoStats>, opts: RetryOptions)
      returns (results': map<string, RepoStats>)
      modifies this, store
      ensures |attempts| == |old(attempts)| + 1 && attempts[..|old(attempts)|] == old(attempts)
      ensures var step := Attempt(old(outcomes), MaxCalls(opts.retries));
              && attempts[|attempts| - 1] == step.0
              && sent == old(sent) + Copies(batch, step.0)
              && slept == old(slept) + Sleeps(opts, step.0)
              && outcomes == Drop(old(outcomes), step.0)
              && (received == old(received) <==> step.1.None?)
              && (step.1.Some? ==> received == old(received) + [step.1.value.stats])
      ensures received == old(received) ==>
                store.rows == old(store.rows) && results' == Fallback(results, batch, store.rows)
      ensures received != old(received) ==>
                && |received| == |old(received)| + 1
                && received == old(received) + [received[|old(received)|]]
                && store.rows == WriteThrough(old(store.rows), received[|old(received)|], now)
                && results' == Fallback(results + received[|old(received)|], batch, store.rows)
    {
      var sent0 := |sent|;
      var response := FetchBatchWithRetry(batch, opts);
      attempts := attempts + [|sent| - sent0];
      var merged := results;
      if response.Some? {
        merged := WriteResponse(response.value.stats, results);
        received := received + [response.value.stats];
      }
      results' := FillFromCache(batch, merged);
    }

    /** `tasks = batches.map(batch => limiter(...))`: every batch submitted, the first `limit` started. */
    method SubmitAll(limiter: Limiter.Limiter, n: nat)
      requires limiter.Valid() && limiter.submitted == []
      modifies limiter
      ensures InOrder(limiter, 0, n)
    {
      assert limiter.started == [];
      assert Span(0, 0) == {};
      var t := 0;
      while t < n
        invariant 0 <= t <= n
        invariant SubmittedInOrder(limiter, t)
      {
        SubmitNext(limiter, t);
        t := t + 1;
      }
    }

    /** `createLimiter(concurrency)`, then one task per batch submitted to it. */
    method StartLimiter(concurrency: int, n: nat) returns (r: Result<Limiter.Limiter, string>)
      ensures r.Err? <==> concurrency <= 0
      ensures r.Err? ==> r.error == Limiter.LimitError
      ensures r.Ok? ==> fresh(r.value) && InOrder(r.value, 0, n)
    {
      r := Limiter.CreateLimiter(concurrency);
      if r.Ok? {
        SubmitAll(r.value, n);
      }
    }

    /** The pipeline's logs, script and cache as they are now. */
    ghost function Snap(): Snapshot
      reads this, store
    {
      Snapshot(received, attempts, sent, slept, outcomes, store.rows)
    }

    /** ProgressAt, from `start` to the pipeline as it is now. */
    ghost predicate Progress(batches: seq<seq<RepoRef>>, b: nat, hits: map<string, RepoStats>, opts: RetryOptions,
                             results: map<string, RepoStats>, start: Snapshot)
      reads this, store
    {
      ProgressAt(batches, b, hits, opts, now, results, start, Snap())
    }

    /** Body of the limiter task of batch `b`: `processBatch` on it, with the results gathered so far. */
    method RunOne(batches: seq<seq<RepoRef>>, b: nat, hits: map<string, RepoStats>, opts: RetryOptions,
                  results: map<string, RepoStats>, ghost start: Snapshot)
      returns (results': map<string, RepoStats>)
      requires b < |batches| && hits.Keys !! KeySet(batches[b])
      requires Progress(batches, b, hits, opts, results, start)
      modifies this, store
      ensures Progress(batches, b + 1, hits, opts, results', start)
    {
      ghost var s0 := Snap();
      results' := ProcessBatch(batches[b], results, opts);
      assert Processed(batches[b], opts, now, results, results', s0, Snap());
      ProgressStep(batches, b, hits, opts, now, results, results', start, s0, Snap());
    }

    /**
     * `await Promise.all(tasks)`: the batches run in the order the limiter
     * starts them, each settling before the next is processed.
     */
    method RunBatches(batches: seq<seq<RepoRef>>, hits: map<string, RepoStats>, opts: RetryOptions,
                      limiter: Limiter.Limiter)
      returns (results: map<string, RepoStats>)
      requires InOrder(limiter, 0, |batches|)
      requires forall b :: 0 <= b < |batches| ==> hits.Keys !! KeySet(batches[b])
      modifies this, store, limiter
      ensures var sch := RunSchedule(old(outcomes), |batches|, MaxCalls(opts.retries));
              var rs := Successes(sch.answers);
              && attempts == old(attempts) + sch.counts
              && received == old(received) + rs
              && outcomes == sch.rest
              && sent == old(sent) + SentLog(batches, sch.counts)
              && slept == old(slept) + SleepLog(sch.counts, opts)
              && store.rows == WriteThroughAll(old(store.rows), rs, now)
              && results == Merged(hits, rs, KeySet(Flatten(batches)), old(store.rows))
    {
      ghost var start := Snap();
      results := RunInOrder(batches, hits, opts, limiter);
      ProgressDone(batches, hits, opts, results, start);
    }

    /** The loop behind RunBatches: one task after another, each settled before the next. */
    method RunInOrder(batches: seq<seq<RepoRef>>, hits: map<string, RepoStats>, opts: RetryOptions,
                      limiter: Limiter.Limiter)
      returns (results: map<string, RepoStats>)
      requires InOrder(limiter, 0, |batches|)
      requires forall b :: 0 <= b < |batches| ==> hits.Keys !! KeySet(batches[b])
      modifies this, store, limiter
      ensures Progress(batches, |batches|, hits, opts, results, old(Snap()))
    {
      var n := |batches|;
      ghost var start := Snap();
      results := hits;
      ProgressStart(batches, hits, opts, start);
      var b := 0;
      while b < n
        invariant 0 <= b <= n
        invariant InOrder(limiter, b, n)
        invariant Progress(batches, b, hits, opts, results, start)
      {
        results := RunAndSettle(batches, b, hits, opts, results, start, limiter);
        b := b + 1;
      }
    }

    /** Batch `b`'s task runs, then settles. */
    method RunAndSettle(batches: seq<seq<RepoRef>>, b: nat, hits: map<string, RepoStats>, opts: RetryOptions,
                        results: map<string, RepoStats>, ghost start: Snapshot, limiter: Limiter.Limiter)
      returns (results': map<string, RepoStats>)
      requires b < |batches| && hits.Keys !! KeySet(batches[b])
      requires InOrder(limiter, b, |batches|)
      requires Progress(batches, b, hits, opts, results, start)
      modifies this, store, limiter
      ensures InOrder(limiter, b + 1, |batches|)
      ensures Progress(batches, b + 1, hits, opts, results', start)
    {
      results' := RunOne(batches, b, hits, opts, results, start);
      SettleInOrder(limiter, b, |batches|);
    }

    /** Before the first batch nothing has been sent, received or merged beyond the cache hits. */
    lemma ProgressStart(batches: seq<seq<RepoRef>>, hits: map<string, RepoStats>, opts: RetryOptions, start: Snapshot)
      requires start == Snap()
      ensures Progress(batches, 0, hits, opts, hits, start)
    {
      assert received[|start.received|..] == [];
      assert attempts[|start.attempts|..] == [];
      assert batches[..0] == [];
      assert Merged(hits, [], {}, start.rows) == hits;
    }

    /** A run that got through all its batches, stated without the snapshot slicing. */
    lemma ProgressDone(batches: seq<seq<RepoRef>>, hits: map<string, RepoStats>, opts: RetryOptions,
                       results: map<string, RepoStats>, start: Snapshot)
      requires Progress(batches, |batches|, hits, opts, results, start)
      ensures var sch := RunSchedule(start.outcomes, |batches|, MaxCalls(opts.retries));
              var rs := Successes(sch.answers);
              && attempts == start.attempts + sch.counts
              && received == start.received + rs
              && outcomes == sch.rest
              && sent == start.sent + SentLog(batches, sch.counts)
              && slept == start.slept + SleepLog(sch.counts, opts)
              && store.rows == WriteThroughAll(start.rows, rs, now)
              && results == Merged(hits, rs, KeySet(Flatten(batches)), start.rows)
    {
      assert batches[..|batches|] == batches;
      PrefixAndRest(attempts, start.attempts);
      PrefixAndRest(received, start.received);
    }

    /** The first loop over `unique`: fresh rows answer their key, every other reference is queued for fetching. */
    method SplitFresh(order: seq<string>, unique: map<string, RepoRef>, maxAge: int)
      returns (results: map<string, RepoStats>, toFetch: seq<RepoRef>)
      requires forall k :: k in order ==> k in unique
      ensures results == FreshStats(order, store.rows, now, maxAge)
      ensures toFetch == ToFetch(order, unique, store.rows, now, maxAge)
    {
      results := map[];
      toFetch := [];
      var j := 0;
      while j < |order|
        invariant 0 <= j <= |order|
        invariant results == FreshStats(order[..j], store.rows, now, maxAge)
        invariant toFetch == ToFetch(order[..j], unique, store.rows, now, maxAge)
      {
        var key := order[j];
        assert order[..j + 1][..j] == order[..j] && order[..j + 1][j] == key;
        assert forall k :: k in order[..j + 1] <==> k in order[..j] || k == key;
        var hit := false;
        if maxAge > 0 {
          var cached := store.GetEntry(key);
          if cached.Some? && now - cached.value.updatedAt <= maxAge {
            results := results[key := FromEntry(cached.value)];
            hit := true;
          }
        }
        if !hit {
          toFetch := toFetch + [unique[key]];
        }
        j := j + 1;
      }
      assert order[..j] == order;
    }

    /**
     * The part of `fetchRepoStatsWithCache` after the cache lookups, when
     * something is left to fetch: create the limiter, cut the batches and
     * run them all.
     */
    method FetchStale(toFetch: seq<RepoRef>, hits: map<string, RepoStats>, options: FetchOptions)
      returns (r: Result<map<string, RepoStats>, string>)
      requires BatchSizeOf(options) > 0 && hits.Keys !! KeySet(toFetch)
      modifies this, store
      ensures ConcurrencyOf(options) <= 0 ==>
                && r == Err(Limiter.LimitError)
                && sent == old(sent) && outcomes == old(outcomes) && store.rows == old(store.rows)
                && slept == old(slept) && attempts == old(attempts) && received == old(received)
      ensures ConcurrencyOf(options) > 0 ==>
                var batches := Chunks(toFetch, BatchSizeOf(options));
                var sch := RunSchedule(old(outcomes), |batches|, MaxCalls(RetryOptionsOf(options).retries));
                var rs := Successes(sch.answers);
                && attempts == old(attempts) + sch.counts
                && received == old(received) + rs
                && outcomes == sch.rest
                && sent == old(sent) + SentLog(batches, sch.counts)
                && slept == old(slept) + SleepLog(sch.counts, RetryOptionsOf(options))
                && store.rows == WriteThroughAll(old(store.rows), rs, now)
                && r == Ok(Merged(hits, rs, KeySet(toFetch), old(store.rows)))
    {
      var batches := Chunks(toFetch, BatchSizeOf(options));
      var created := StartLimiter(ConcurrencyOf(options), |batches|);
      if created.Err? {
        return Err(created.error);
      }
      var limiter := created.value;
      BatchesAvoid(toFetch, BatchSizeOf(options), hits.Keys);
      ChunksFlatten(toFetch, BatchSizeOf(options));
      var results := RunBatches(batches, hits, RetryOptionsOf(options), limiter);
      return Ok(results);
    }

    /**
     * `fetchRepoStatsWithCache`: dedup, answer fresh keys from the cache,
     * then run the remaining references in batches through the limiter.
     * Only an invalid concurrency is reported as an error, and only when
     * something has to be fetched.
     */
    method FetchRepoStatsWithCache(repos: seq<RepoRef>, options: FetchOptions)
      returns (r: Result<map<string, RepoStats>, string>)
      requires BatchSizeOf(options) > 0
      modifies this, store
      ensures var hits := HitsOf(repos, old(store.rows), now, MaxAgeOf(options));
              var fetch := FetchList(repos, old(store.rows), now, MaxAgeOf(options));
              && (fetch == [] ==> r == Ok(hits))
              && (fetch == [] || ConcurrencyOf(options) <= 0 ==>
                    && sent == old(sent) && outcomes == old(outcomes) && store.rows == old(store.rows)
                    && slept == old(slept) && attempts == old(attempts) && received == old(received))
              && (fetch != [] && ConcurrencyOf(options) <= 0 ==> r == Err(Limiter.LimitError))
              && (fetch != [] && ConcurrencyOf(options) > 0 ==>
                    var batches := Chunks(fetch, BatchSizeOf(options));
                    var sch := RunSchedule(old(outcomes), |batches|, MaxCalls(RetryOptionsOf(options).retries));
                    var rs := Successes(sch.answers);
                    && attempts == old(attempts) + sch.counts
                    && received == old(received) + rs
                    && outcomes == sch.rest
                    && sent == old(sent) + SentLog(batches, sch.counts)
                    && slept == old(slept) + SleepLog(sch.counts, RetryOptionsOf(options))
                    && store.rows == WriteThroughAll(old(store.rows), rs, now)
                    && r == Ok(Merged(hits, rs, KeySet(fetch), old(store.rows))))
    {
      var order, unique := DedupRefs(repos);
      var maxAge := MaxAgeOf(options);
      var hits, toFetch := SplitFresh(order, unique, maxAge);
      if |toFetch| == 0 {
        return Ok(hits);
      }
      HitsAndFetchPartition(repos, store.rows, now, maxAge);
      r := FetchStale(toFetch, hits, options);
    }
  }
}
