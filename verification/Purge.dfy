/** Bounded deletes of stale rows, and the chain of jobs that repeats them while a batch comes back full. */
module Purge {

  function StaleKeys<K, V>(rows: map<K, V>, isStale: (V, int) -> bool, before: int): set<K> {
    set k | k in rows && isStale(rows[k], before)
  }

  /** What is stale stays stale. */
  ghost predicate StaysStale<V(!new)>(isStale: (V, int) -> bool) {
    forall v: V, t: int, u: int :: t <= u && isStale(v, t) ==> isStale(v, u)
  }

  /** Exactly `min(limit, stale)` keys, all of them stale. */
  ghost predicate IsBatch<K, V>(rows: map<K, V>, isStale: (V, int) -> bool, before: int, limit: nat, purged: set<K>) {
    var stale := StaleKeys(rows, isStale, before);
    purged <= stale && |purged| == if |stale| < limit then |stale| else limit
  }

  method DeleteStale<K(==), V>(rows: map<K, V>, isStale: (V, int) -> bool, before: int, limit: nat)
    returns (left: map<K, V>, deleted: nat, ghost purged: set<K>)
    ensures IsBatch(rows, isStale, before, limit, purged) && deleted == |purged| && left == rows - purged
  {
    var stale := StaleKeys(rows, isStale, before);
    left, deleted, purged := rows, 0, {};
    assert left == rows - purged;
    while deleted < limit && stale != {}
      invariant purged <= StaleKeys(rows, isStale, before) && stale == StaleKeys(rows, isStale, before) - purged
      invariant |purged| == deleted <= limit && |stale| == |StaleKeys(rows, isStale, before)| - deleted
      invariant left == rows - purged
      decreases stale
    {
      var k :| k in stale;
      left := left - {k};
      stale, purged, deleted := stale - {k}, purged + {k}, deleted + 1;
      assert rows - purged == left;
    }
  }

  lemma Rest<K>(all: set<K>, some: set<K>)
    requires some <= all
    ensures |all - some| == |all| - |some|
    ensures |some| == |all| ==> some == all
  {
    assert all == some + (all - some);
  }

  // ---------------------------------------------------------------------------------------------
  // The chain
  // ---------------------------------------------------------------------------------------------

  predicate Advances(clock: nat -> int, n: nat) {
    clock(n) <= clock(n + 1)
  }

  /** The clock readings of the jobs of one chain: each at or after the one before. */
  ghost predicate Ticks(clock: nat -> int) {
    forall n: nat :: Advances(clock, n)
  }

  /** What that many full batches delete. */
  function Total(batches: nat, limit: nat): nat {
    if batches == 0 then 0 else Total(batches - 1, limit) + limit
  }

  lemma {:induction false} TotalIsProduct(batches: nat, limit: nat)
    ensures Total(batches, limit) == batches * limit
  {
    if batches > 0 {
      TotalIsProduct(batches - 1, limit);
    }
  }

  /** Where a chain stands after `jobs` jobs that deleted `gone`, `last` of it in the last batch. */
  ghost predicate Purged<K, V>(rows: map<K, V>, isStale: (V, int) -> bool, clock: nat -> int, limit: nat, jobs: nat, gone: set<K>, last: nat)
    requires jobs > 0
  {
    && gone <= StaleKeys(rows, isStale, clock(jobs - 1))
    && last <= limit && |gone| == Total(jobs - 1, limit) + last
    && (last < limit ==> gone == StaleKeys(rows, isStale, clock(jobs - 1)))
  }

  lemma FirstJob<K, V>(rows: map<K, V>, isStale: (V, int) -> bool, clock: nat -> int, limit: nat, purged: set<K>)
    requires IsBatch(rows, isStale, clock(0), limit, purged)
    ensures Purged(rows, isStale, clock, limit, 1, purged, |purged|)
  {
    Rest(StaleKeys(rows, isStale, clock(0)), purged);
  }

  lemma FewerLeft<K>(all: set<K>, gone: set<K>, purged: set<K>)
    requires purged <= all - gone
    ensures |all - (gone + purged)| == |all - gone| - |purged|
  {
    Rest(all - gone, purged);
    assert all - (gone + purged) == (all - gone) - purged;
  }

  /** A full batch enqueues one more job, which goes on where the last one stopped, at a later time. */
  lemma NextJob<K, V(!new)>(rows: map<K, V>, isStale: (V, int) -> bool, clock: nat -> int, limit: nat, jobs: nat, gone: set<K>, purged: set<K>)
    requires StaysStale(isStale) && jobs > 0 && Advances(clock, jobs - 1) && Purged(rows, isStale, clock, limit, jobs, gone, limit)
    requires IsBatch(rows - gone, isStale, clock(jobs), limit, purged)
    ensures Purged(rows, isStale, clock, limit, jobs + 1, gone + purged, |purged|)
    ensures |gone + purged| == |gone| + |purged| && |rows.Keys - (gone + purged)| == |rows.Keys - gone| - |purged|
  {
    FewerLeft(rows.Keys, gone, purged);
    var stale := StaleKeys(rows, isStale, clock(jobs));
    assert StaleKeys(rows - gone, isStale, clock(jobs)) == stale - gone;
    Rest(stale - gone, purged);
    assert gone !! purged;
  }

  /** When a chain has ended, exactly what was stale at its last reading of the clock is gone, and that fixes the number of jobs. */
  lemma ChainEnds<K, V>(rows: map<K, V>, isStale: (V, int) -> bool, clock: nat -> int, limit: nat, jobs: nat, gone: set<K>, last: nat)
    requires limit > 0 && jobs > 0 && Purged(rows, isStale, clock, limit, jobs, gone, last) && last < limit
    ensures gone == StaleKeys(rows, isStale, clock(jobs - 1)) && StaleKeys(rows - gone, isStale, clock(jobs - 1)) == {}
    ensures jobs == |gone| / limit + 1
  {
    TotalIsProduct(jobs - 1, limit);
    Quotient(jobs - 1, limit, last);
  }

  lemma Quotient(n: nat, limit: nat, last: nat)
    requires last < limit
    ensures (n * limit + last) / limit == n
  {
    var q := (n * limit + last) / limit;
    if q < n {
      Multiples(q + 1, n, limit);
    } else if q > n {
      Multiples(n + 1, q, limit);
    }
  }

  lemma Multiples(m: nat, n: nat, limit: nat)
    requires m <= n
    ensures m * limit <= n * limit
  {}

  /** The same for rows that are deleted: `left` are what the jobs so far have left. */
  ghost predicate InChain<K, V>(rows: map<K, V>, left: map<K, V>, isStale: (V, int) -> bool, clock: nat -> int, limit: nat,
                                jobs: nat, gone: set<K>, last: nat)
    requires jobs > 0
  {
    left == rows - gone && Purged(rows, isStale, clock, limit, jobs, gone, last)
  }

  /** A chain of that many jobs has deleted exactly what was stale at its last reading of the clock. */
  ghost predicate Finished<K, V>(rows: map<K, V>, left: map<K, V>, isStale: (V, int) -> bool, clock: nat -> int, limit: nat, jobs: nat, total: nat)
    requires limit > 0 && jobs > 0
  {
    var stale := StaleKeys(rows, isStale, clock(jobs - 1));
    && left == rows - stale && StaleKeys(left, isStale, clock(jobs - 1)) == {}
    && total == |stale| && jobs == total / limit + 1
  }

  lemma ChainStarts<K, V>(rows: map<K, V>, isStale: (V, int) -> bool, clock: nat -> int, limit: nat, purged: set<K>)
    requires IsBatch(rows, isStale, clock(0), limit, purged)
    ensures InChain(rows, rows - purged, isStale, clock, limit, 1, purged, |purged|)
    ensures |purged| <= |rows|
  {
    FirstJob(rows, isStale, clock, limit, purged);
    Rest(rows.Keys, purged);
  }

  lemma ChainGoesOn<K, V(!new)>(rows: map<K, V>, left: map<K, V>, isStale: (V, int) -> bool, clock: nat -> int, limit: nat,
                                jobs: nat, gone: set<K>, purged: set<K>)
    requires StaysStale(isStale) && jobs > 0 && Advances(clock, jobs - 1) && InChain(rows, left, isStale, clock, limit, jobs, gone, limit)
    requires IsBatch(left, isStale, clock(jobs), limit, purged)
    ensures InChain(rows, left - purged, isStale, clock, limit, jobs + 1, gone + purged, |purged|)
    ensures |gone + purged| == |gone| + |purged| <= |rows|
  {
    NextJob(rows, isStale, clock, limit, jobs, gone, purged);
    RemovedTogether(rows, gone, purged);
    Rest(rows.Keys, gone + purged);
  }

  lemma RemovedTogether<K, V>(rows: map<K, V>, gone: set<K>, purged: set<K>)
    ensures rows - gone - purged == rows - (gone + purged)
  {}

  lemma ChainStops<K, V>(rows: map<K, V>, left: map<K, V>, isStale: (V, int) -> bool, clock: nat -> int, limit: nat,
                         jobs: nat, gone: set<K>, last: nat)
    requires limit > 0 && jobs > 0 && InChain(rows, left, isStale, clock, limit, jobs, gone, last) && last < limit
    ensures Finished(rows, left, isStale, clock, limit, jobs, |gone|)
  {
    ChainEnds(rows, isStale, clock, limit, jobs, gone, last);
  }
}
