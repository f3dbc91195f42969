/**
 * The two runs of test/stars.test.ts, and a third showing a stale row
 * answering for a batch whose fetch failed. The fake client's scripted
 * answers become the pipeline's `outcomes`.
 */
module StarsExamples {
  import opened Wrappers
  import opened GitHubUrl
  import opened StatStore
  import opened Stars

  const RepoOne := RepoRef("example", "repo-one")
  const RepoTwo := RepoRef("example", "repo-two")
  const Now := 1700000000

  lemma KeysDiffer()
    ensures RepoKey(RepoOne) != RepoKey(RepoTwo)
  {
    assert RepoKey(RepoOne)[15] != RepoKey(RepoTwo)[15];
  }

  lemma DedupTwo()
    ensures DedupKeys([RepoOne, RepoTwo]) == [RepoKey(RepoOne), RepoKey(RepoTwo)]
    ensures Unique([RepoOne, RepoTwo]) == map[RepoKey(RepoOne) := RepoOne, RepoKey(RepoTwo) := RepoTwo]
  {
    KeysDiffer();
    assert [RepoOne, RepoTwo][..1] == [RepoOne];
    assert [RepoOne][..0] == [];
    assert DedupKeys([RepoOne]) == [RepoKey(RepoOne)];
  }

  /**
   * What FetchRepoStatsWithCache promises about a run that fetches: the
   * calls the client received and the result, from the rows and the script
   * the run starts with.
   */
  ghost predicate Outcome(repos: seq<RepoRef>, options: FetchOptions, rows: map<string, CacheEntry>, script: seq<ClientOutcome>,
                          r: Result<map<string, RepoStats>, string>, calls: seq<seq<RepoRef>>)
    requires BatchSizeOf(options) > 0
  {
    var hits := HitsOf(repos, rows, Now, MaxAgeOf(options));
    var fetch := FetchList(repos, rows, Now, MaxAgeOf(options));
    fetch != [] && ConcurrencyOf(options) > 0 ==>
      var batches := Chunks(fetch, BatchSizeOf(options));
      var sch := RunSchedule(script, |batches|, MaxCalls(RetryOptionsOf(options).retries));
      && calls == SentLog(batches, sch.counts)
      && r == Ok(Merged(hits, Successes(sch.answers), KeySet(fetch), rows))
  }

  /** Outcome for a run that sends the single reference `x`, with the options' values spelled out. */
  lemma OutcomeOfOne(repos: seq<RepoRef>, options: FetchOptions, rows: map<string, CacheEntry>, script: seq<ClientOutcome>,
                     r: Result<map<string, RepoStats>, string>, calls: seq<seq<RepoRef>>, x: RepoRef, age: int, left: nat)
    requires BatchSizeOf(options) > 0 && ConcurrencyOf(options) > 0
    requires MaxAgeOf(options) == age && MaxCalls(RetryOptionsOf(options).retries) == left
    requires FetchList(repos, rows, Now, age) == [x]
    requires Outcome(repos, options, rows, script, r, calls)
    ensures var a := Attempt(script, left);
            var rs := if a.1.Some? then [a.1.value.stats] else [];
            && calls == Copies([x], a.0)
            && r == Ok(Merged(HitsOf(repos, rows, Now, age), rs, {RepoKey(x)}, rows))
  {
    var size := BatchSizeOf(options);
    assert Chunks([x], size) == [[x]];
    OneBatch([x], script, left);
    assert KeySet([x]) == {RepoKey(x)};
  }

  /** A run of one batch: the calls and the answers of a single retry loop. */
  lemma OneBatch(batch: seq<RepoRef>, q: seq<ClientOutcome>, left: nat)
    requires left >= 1
    ensures var a := Attempt(q, left);
            var sch := RunSchedule(q, 1, left);
            && SentLog([batch], sch.counts) == Copies(batch, a.0)
            && Successes(sch.answers) == if a.1.Some? then [a.1.value.stats] else []
  {
    var a := Attempt(q, left);
    assert RunSchedule(q, 0, left) == Schedule([], [], q);
    var sch := RunSchedule(q, 1, left);
    assert sch.counts == [a.0] && sch.answers == [a.1];
    assert [batch][..0] == [] && [a.0][..0] == [];
    assert sch.answers[..0] == [];
  }

  /** The two references, one of them fresh: only the other is fetched. */
  lemma OneOfTwoFetched(rows: map<string, CacheEntry>, fetched: RepoRef, cached: RepoRef)
    requires {fetched, cached} == {RepoOne, RepoTwo} && fetched != cached
    requires RepoKey(fetched) !in rows && IsFresh(rows, RepoKey(cached), Now, 3600)
    ensures FetchList([RepoOne, RepoTwo], rows, Now, 3600) == [fetched]
  {
    DedupTwo();
    var k1, k2 := RepoKey(RepoOne), RepoKey(RepoTwo);
    var u := Unique([RepoOne, RepoTwo]);
    assert [k1, k2][..1] == [k1];
    assert [k1][..0] == [];
    assert ToFetch([k1], u, rows, Now, 3600) == (if IsFresh(rows, k1, Now, 3600) then [] else [RepoOne]);
  }

  /** A single reference without a fresh row is fetched. */
  lemma OneFetched(rows: map<string, CacheEntry>)
    requires !IsFresh(rows, RepoKey(RepoOne), Now, 3600)
    ensures FetchList([RepoOne], rows, Now, 3600) == [RepoOne]
  {
    assert [RepoOne][..0] == [];
    assert DedupKeys([RepoOne]) == [RepoKey(RepoOne)];
    var u := Unique([RepoOne]);
    assert u == map[RepoKey(RepoOne) := RepoOne];
    assert [RepoKey(RepoOne)][..0] == [];
    assert ToFetch([RepoKey(RepoOne)], u, rows, Now, 3600) == ToFetch([], u, rows, Now, 3600) + [RepoOne];
  }

  /** Two calls with the same one-reference batch. */
  lemma CopiesTwice(x: RepoRef)
    ensures Copies([x], 2) == [[x], [x]]
  {
  }

  /** The options of "retries and falls back to cache": batches of 2, one at a time, two calls, one hour. */
  lemma RetryOptionsUsed(options: FetchOptions)
    requires options == FetchOptions(Some(2), Some(1), Some(1), Some(1), Some(1), Some(false), None)
    ensures BatchSizeOf(options) == 2 && ConcurrencyOf(options) == 1
    ensures MaxAgeOf(options) == 3600 && MaxCalls(RetryOptionsOf(options).retries) == 2
  {
  }

  /** The retry of "retries and falls back to cache": a failure, then 10 stars on the second call. */
  lemma RetryAttempt(stats: map<string, RepoStats>, script: seq<ClientOutcome>)
    requires script == [Throws, Responds(BatchResponse(stats, None))]
    ensures Attempt(script, 2) == (2, Some(BatchResponse(stats, None)))
  {
    assert Drop(script, 1) == [Responds(BatchResponse(stats, None))];
  }

  /** The merge behind "retries and falls back to cache": the fetched 10 and the cached 99. */
  lemma RetryMerge(rows: map<string, CacheEntry>, stats: map<string, RepoStats>)
    requires rows == map[RepoKey(RepoTwo) := CacheEntry(99, None, Now)]
    requires stats == map[RepoKey(RepoOne) := RepoStats(10, At("2024-01-01T00:00:00Z"))]
    ensures var m := Merged(HitsOf([RepoOne, RepoTwo], rows, Now, 3600), [stats], {RepoKey(RepoOne)}, rows);
            && RepoKey(RepoOne) in m && m[RepoKey(RepoOne)].stars == 10
            && RepoKey(RepoTwo) in m && m[RepoKey(RepoTwo)].stars == 99
  {
    KeysDiffer();
    var rs := [stats];
    assert Returned(rs) == {RepoKey(RepoOne)} by {
      assert rs[..0] == [];
    }
    var hits := HitsOf([RepoOne, RepoTwo], rows, Now, 3600);
    DedupTwo();
    assert RepoKey(RepoTwo) in hits && hits[RepoKey(RepoTwo)].stars == 99;
  }

  /** The outcome of the run "retries and falls back to cache". */
  lemma RetryOutcome(rows: map<string, CacheEntry>, stats: map<string, RepoStats>, script: seq<ClientOutcome>,
                     options: FetchOptions, r: Result<map<string, RepoStats>, string>, calls: seq<seq<RepoRef>>)
    requires rows == map[RepoKey(RepoTwo) := CacheEntry(99, None, Now)]
    requires stats == map[RepoKey(RepoOne) := RepoStats(10, At("2024-01-01T00:00:00Z"))]
    requires script == [Throws, Responds(BatchResponse(stats, None))]
    requires options == FetchOptions(Some(2), Some(1), Some(1), Some(1), Some(1), Some(false), None)
    requires Outcome([RepoOne, RepoTwo], options, rows, script, r, calls)
    ensures calls == [[RepoOne], [RepoOne]]
    ensures r.Ok? && RepoKey(RepoOne) in r.value && RepoKey(RepoTwo) in r.value
    ensures r.value[RepoKey(RepoOne)].stars == 10 && r.value[RepoKey(RepoTwo)].stars == 99
  {
    KeysDiffer();
    RetryOptionsUsed(options);
    OneOfTwoFetched(rows, RepoOne, RepoTwo);
    OutcomeOfOne([RepoOne, RepoTwo], options, rows, script, r, calls, RepoOne, 3600, 2);
    RetryAttempt(stats, script);
    CopiesTwice(RepoOne);
    RetryMerge(rows, stats);
  }

  /**
   * "retries and falls back to cache": repo-two's row is fresh, so only
   * repo-one is sent; the first call fails, the retry answers 10 stars.
   * Two calls in all; repo-one has 10 stars and repo-two the cached 99.
   */
  method RetriesThenUsesCache() returns (result: Result<map<string, RepoStats>, string>, calls: seq<seq<RepoRef>>)
    ensures calls == [[RepoOne], [RepoOne]]
    ensures result.Ok? && RepoKey(RepoOne) in result.value && RepoKey(RepoTwo) in result.value
    ensures result.value[RepoKey(RepoOne)].stars == 10 && result.value[RepoKey(RepoTwo)].stars == 99
  {
    var store := new Store();
    store.Set(RepoKey(RepoTwo), 99, None, Now);
    var stats := map[RepoKey(RepoOne) := RepoStats(10, At("2024-01-01T00:00:00Z"))];
    var script := [Throws, Responds(BatchResponse(stats, None))];
    var pipeline := new StatsPipeline(store, Now, script);
    var options := FetchOptions(Some(2), Some(1), Some(1), Some(1), Some(1), Some(false), None);
    ghost var rows := store.rows;
    result := pipeline.FetchRepoStatsWithCache([RepoOne, RepoTwo], options);
    calls := pipeline.sent;
    assert Outcome([RepoOne, RepoTwo], options, rows, script, result, calls);
    RetryOutcome(rows, stats, script, options, result, calls);
  }

  /** The merge behind "uses fresh cache entries": the cached 123 and the fetched 10. */
  lemma FreshMerge(rows: map<string, CacheEntry>, stats: map<string, RepoStats>)
    requires rows == map[RepoKey(RepoOne) := CacheEntry(123, None, Now)]
    requires stats == map[RepoKey(RepoTwo) := RepoStats(10, At("2024-02-02T00:00:00Z"))]
    ensures var m := Merged(HitsOf([RepoOne, RepoTwo], rows, Now, 3600), [stats], {RepoKey(RepoTwo)}, rows);
            && RepoKey(RepoOne) in m && m[RepoKey(RepoOne)].stars == 123
            && RepoKey(RepoTwo) in m && m[RepoKey(RepoTwo)].stars == 10
  {
    KeysDiffer();
    var rs := [stats];
    assert Returned(rs) == {RepoKey(RepoTwo)} by {
      assert rs[..0] == [];
    }
    var hits := HitsOf([RepoOne, RepoTwo], rows, Now, 3600);
    DedupTwo();
    assert RepoKey(RepoOne) in hits && hits[RepoKey(RepoOne)].stars == 123;
  }

  /** The options of "uses fresh cache entries": batches of 2, one at a time, no retry, one hour. */
  lemma FreshOptionsUsed(options: FetchOptions)
    requires options == FetchOptions(Some(2), Some(1), Some(0), None, None, Some(false), Some(3600))
    ensures BatchSizeOf(options) == 2 && ConcurrencyOf(options) == 1
    ensures MaxAgeOf(options) == 3600 && MaxCalls(RetryOptionsOf(options).retries) == 1
  {
  }

  /** A single allowed call that is answered: one call, that answer. */
  lemma FirstAttempt(stats: map<string, RepoStats>, script: seq<ClientOutcome>)
    requires script == [Responds(BatchResponse(stats, None))]
    ensures Attempt(script, 1) == (1, Some(BatchResponse(stats, None)))
    ensures Copies([RepoTwo], 1) == [[RepoTwo]]
  {
  }

  /** The outcome of the run "uses fresh cache entries". */
  lemma FreshOutcome(rows: map<string, CacheEntry>, stats: map<string, RepoStats>, script: seq<ClientOutcome>,
                     options: FetchOptions, r: Result<map<string, RepoStats>, string>, calls: seq<seq<RepoRef>>)
    requires rows == map[RepoKey(RepoOne) := CacheEntry(123, None, Now)]
    requires stats == map[RepoKey(RepoTwo) := RepoStats(10, At("2024-02-02T00:00:00Z"))]
    requires script == [Responds(BatchResponse(stats, None))]
    requires options == FetchOptions(Some(2), Some(1), Some(0), None, None, Some(false), Some(3600))
    requires Outcome([RepoOne, RepoTwo], options, rows, script, r, calls)
    ensures calls == [[RepoTwo]]
    ensures r.Ok? && RepoKey(RepoOne) in r.value && RepoKey(RepoTwo) in r.value
    ensures r.value[RepoKey(RepoOne)].stars == 123 && r.value[RepoKey(RepoTwo)].stars == 10
  {
    KeysDiffer();
    FreshOptionsUsed(options);
    OneOfTwoFetched(rows, RepoTwo, RepoOne);
    OutcomeOfOne([RepoOne, RepoTwo], options, rows, script, r, calls, RepoTwo, 3600, 1);
    FirstAttempt(stats, script);
    FreshMerge(rows, stats);
  }

  /**
   * "uses fresh cache entries": repo-one's row is fresh, so the one call
   * carries repo-two alone; repo-one keeps 123 and repo-two gets 10.
   */
  method UsesFreshCacheEntries() returns (result: Result<map<string, RepoStats>, string>, calls: seq<seq<RepoRef>>)
    ensures calls == [[RepoTwo]]
    ensures result.Ok? && RepoKey(RepoOne) in result.value && RepoKey(RepoTwo) in result.value
    ensures result.value[RepoKey(RepoOne)].stars == 123 && result.value[RepoKey(RepoTwo)].stars == 10
  {
    var store := new Store();
    store.Set(RepoKey(RepoOne), 123, None, Now);
    var stats := map[RepoKey(RepoTwo) := RepoStats(10, At("2024-02-02T00:00:00Z"))];
    var script := [Responds(BatchResponse(stats, None))];
    var pipeline := new StatsPipeline(store, Now, script);
    var options := FetchOptions(Some(2), Some(1), Some(0), None, None, Some(false), Some(3600));
    ghost var rows := store.rows;
    result := pipeline.FetchRepoStatsWithCache([RepoOne, RepoTwo], options);
    calls := pipeline.sent;
    assert Outcome([RepoOne, RepoTwo], options, rows, script, result, calls);
    FreshOutcome(rows, stats, script, options, result, calls);
  }

  /** The merge behind a failed batch answered by a stale row: no hits, no responses, the row of the batch's key. */
  lemma StaleMerge(rows: map<string, CacheEntry>)
    requires rows == map[RepoKey(RepoOne) := CacheEntry(7, None, Now - 7200)]
    ensures Merged(HitsOf([RepoOne], rows, Now, 3600), [], {RepoKey(RepoOne)}, rows) == map[RepoKey(RepoOne) := RepoStats(7, Null)]
  {
    assert DedupKeys([RepoOne]) == [RepoKey(RepoOne)] by {
      assert [RepoOne][..0] == [];
    }
    assert HitsOf([RepoOne], rows, Now, 3600) == map[];
  }

  /** The options of the stale-row run: the default batch size, concurrency and hour; one retry, so two calls. */
  lemma StaleOptionsUsed(options: FetchOptions)
    requires options == FetchOptions(None, None, Some(1), Some(1), Some(1), None, None)
    ensures BatchSizeOf(options) == 25 && ConcurrencyOf(options) == 3
    ensures MaxAgeOf(options) == 3600 && MaxCalls(RetryOptionsOf(options).retries) == 2
  {
  }

  /** With no scripted answer both calls fail. */
  lemma FailedAttempt()
    ensures Attempt([], 2) == (2, None)
  {
  }

  /** The outcome of a failed batch answered by a stale row. */
  lemma StaleOutcome(rows: map<string, CacheEntry>, options: FetchOptions,
                     r: Result<map<string, RepoStats>, string>, calls: seq<seq<RepoRef>>)
    requires rows == map[RepoKey(RepoOne) := CacheEntry(7, None, Now - 7200)]
    requires options == FetchOptions(None, None, Some(1), Some(1), Some(1), None, None)
    requires Outcome([RepoOne], options, rows, [], r, calls)
    ensures calls == [[RepoOne], [RepoOne]]
    ensures r.Ok? && r.value == map[RepoKey(RepoOne) := RepoStats(7, Null)]
  {
    StaleOptionsUsed(options);
    OneFetched(rows);
    OutcomeOfOne([RepoOne], options, rows, [], r, calls, RepoOne, 3600, 2);
    FailedAttempt();
    CopiesTwice(RepoOne);
    StaleMerge(rows);
  }

  /**
   * A row two hours old is stale under the one-hour default, so repo-one is
   * fetched; both allowed calls fail, and the stale row still answers.
   */
  method StaleRowAnswersFailedBatch() returns (result: Result<map<string, RepoStats>, string>, calls: seq<seq<RepoRef>>)
    ensures calls == [[RepoOne], [RepoOne]]
    ensures result.Ok? && result.value == map[RepoKey(RepoOne) := RepoStats(7, Null)]
  {
    var store := new Store();
    store.Set(RepoKey(RepoOne), 7, None, Now - 7200);
    var pipeline := new StatsPipeline(store, Now, []);
    var options := FetchOptions(None, None, Some(1), Some(1), Some(1), None, None);
    ghost var rows := store.rows;
    result := pipeline.FetchRepoStatsWithCache([RepoOne], options);
    calls := pipeline.sent;
    assert Outcome([RepoOne], options, rows, [], result, calls);
    StaleOutcome(rows, options, result, calls);
  }
}
