/** The relay, the event processor and the table they share, as the worker process runs them. */
module OutboxWorker {
  import opened Wrappers
  import opened EventBus
  import opened Outbox
  import opened Purge

  function PendingIds(rows: Table): set<RowId> {
    set id | id in rows && rows[id].status == Pending
  }

  function StaleIds(rows: Table, olderThan: int): set<RowId> {
    set id | id in rows && IsStale(rows, id, olderThan)
  }

  function CreatedAt(rows: Table): map<RowId, int> {
    map id | id in PendingIds(rows) :: rows[id].createdAt
  }

  function UpdatedAt(rows: Table, olderThan: int): map<RowId, int> {
    map id | id in StaleIds(rows, olderThan) :: rows[id].updatedAt
  }

  predicate Ascending(keys: map<RowId, int>, ids: seq<RowId>) {
    forall i, j :: 0 <= i < j < |ids| ==> ids[i] in keys && ids[j] in keys && keys[ids[i]] <= keys[ids[j]]
  }

  predicate AllBelow(keys: map<RowId, int>, low: set<RowId>, high: set<RowId>) {
    forall c, id :: c in low && id in high && c in keys && id in keys ==> keys[c] <= keys[id]
  }

  /** What `ORDER BY key ASC LIMIT limit` returns: the `limit` smallest, in order, ties in any order. */
  predicate FirstBy(keys: map<RowId, int>, limit: nat, chosen: seq<RowId>) {
    && |chosen| <= limit
    && Distinct(chosen)
    && ToSet(chosen) <= keys.Keys
    && (|chosen| < limit ==> ToSet(chosen) == keys.Keys)
    && Ascending(keys, chosen)
    && AllBelow(keys, ToSet(chosen), keys.Keys - ToSet(chosen))
  }

  method SmallestOf(keys: map<RowId, int>, candidates: set<RowId>) returns (smallest: RowId)
    requires candidates != {} && candidates <= keys.Keys
    ensures smallest in candidates
    ensures forall id :: id in candidates ==> keys[smallest] <= keys[id]
  {
    smallest :| smallest in candidates;
    var rest := candidates - {smallest};
    while rest != {}
      invariant smallest in candidates && rest <= candidates
      invariant forall id :: id in candidates - rest ==> keys[smallest] <= keys[id]
    {
      var id :| id in rest;
      if keys[id] < keys[smallest] {
        smallest := id;
      }
      rest := rest - {id};
    }
  }

  /** The loop stands for the database's evaluation of `ORDER BY ... LIMIT`. */
  method SelectOrdered(keys: map<RowId, int>, limit: nat) returns (chosen: seq<RowId>)
    ensures FirstBy(keys, limit, chosen)
  {
    chosen := [];
    while |chosen| < limit && keys.Keys - ToSet(chosen) != {}
      invariant FirstBy(keys, |chosen|, chosen) && |chosen| <= limit
      decreases keys.Keys - ToSet(chosen)
    {
      var smallest := SmallestOf(keys, keys.Keys - ToSet(chosen));
      assert ToSet([smallest]) == {smallest};
      FirstThenNext(keys, chosen, 1, [smallest]);
      chosen := chosen + [smallest];
      assert smallest in ToSet(chosen);
    }
    assert |chosen| < limit ==> ToSet(chosen) == keys.Keys by {
      if |chosen| < limit {
        assert forall id :: id in keys.Keys && id !in ToSet(chosen) ==> id in keys.Keys - ToSet(chosen);
      }
    }
  }

  lemma ToSetJoins(a: seq<RowId>, b: seq<RowId>)
    ensures ToSet(a + b) == ToSet(a) + ToSet(b)
    ensures forall id :: id in a <==> id in ToSet(a)
  {}

  /** Taking the first few and then the first few of the rest is taking the first few. */
  lemma FirstThenNext(keys: map<RowId, int>, first: seq<RowId>, limit: nat, next: seq<RowId>)
    requires FirstBy(keys, |first|, first) && FirstBy(keys - ToSet(first), limit, next)
    ensures FirstBy(keys, |first| + limit, first + next)
  {
    ToSetJoins(first, next);
    ToSetJoins(next, first);
    var all := first + next;
    forall i, j | 0 <= i < j < |all|
      ensures all[i] != all[j] && all[i] in keys && all[j] in keys && keys[all[i]] <= keys[all[j]]
    {
      assert all[i] in ToSet(all) && all[j] in ToSet(all);
      if i < |first| <= j {
        assert all[i] in ToSet(first) && all[j] in ToSet(next);
      }
    }
    assert keys.Keys - ToSet(all) <= keys.Keys - ToSet(first);
  }

  class OutboxTable {
    var rows: Table
    var now: int

    constructor (rows: Table, now: int)
      ensures this.rows == rows && this.now == now
    {
      this.rows, this.now := rows, now;
    }

    method ClaimBatch(batchSize: nat) returns (claimed: seq<RowId>)
      modifies this
      ensures FirstBy(CreatedAt(old(rows)), batchSize, claimed)
      ensures rows == ClaimRows(old(rows), ToSet(claimed), now) && now == old(now)
      ensures forall id :: id in claimed ==>
                id in old(rows) && id in rows && rows[id] == old(rows)[id].(status := Processing, updatedAt := now)
    {
      claimed := SelectOrdered(CreatedAt(rows), batchSize);
      assert forall id :: id in claimed <==> id in ToSet(claimed);
      if claimed == [] {
        assert ClaimRows(rows, ToSet(claimed), now) == rows;
        return;
      }
      rows := ClaimRows(rows, ToSet(claimed), now);
    }

    method FindById(id: RowId) returns (row: Option<Row>)
      ensures row == if id in rows then Some(rows[id]) else None
    {
      row := if id in rows then Some(rows[id]) else None;
    }

    method Complete(id: RowId)
      modifies this
      ensures rows == CompleteRow(old(rows), id, now) && now == old(now)
    {
      if id in rows && rows[id].status == Processing {
        rows := rows[id := rows[id].(status := Processed, updatedAt := now, processedAt := Some(now))];
      }
    }

    method Fail(id: RowId)
      modifies this
      ensures rows == FailRow(old(rows), id, now) && now == old(now)
    {
      if id in rows && rows[id].status == Processing {
        rows := rows[id := rows[id].(status := Failed, updatedAt := now, attemptCount := rows[id].attemptCount + 1)];
      }
    }

    /** Resets the `limit` longest-waiting stale rows; `count` is the `COUNT(*)` of the statement. */
    method ReclaimStaleProcessing(olderThan: int, limit: nat) returns (count: nat)
      modifies this
      ensures now == old(now)
      ensures exists stale :: FirstBy(UpdatedAt(old(rows), olderThan), limit, stale) && |stale| == count && rows == ReclaimRows(old(rows), ToSet(stale), now)
    {
      var stale := SelectOrdered(UpdatedAt(rows, olderThan), limit);
      rows := ReclaimRows(rows, ToSet(stale), now);
      count := |stale|;
    }
  }

  lemma {:induction false} DistinctSize(ids: seq<RowId>)
    requires Distinct(ids)
    ensures |ToSet(ids)| == |ids|
  {
    if ids != [] {
      var init, last := ids[..|ids| - 1], ids[|ids| - 1];
      DistinctSize(init);
      assert ToSet(ids) == ToSet(init) + {last};
    }
  }

  /** One reclaim resets exactly `min(limit, stale)` rows, so a short batch means that nothing stale is left. */
  lemma ReclaimCounts(rows: Table, olderThan: int, limit: nat, stale: seq<RowId>, now: int)
    requires FirstBy(UpdatedAt(rows, olderThan), limit, stale)
    ensures
      var before, after := StaleIds(rows, olderThan), StaleIds(ReclaimRows(rows, ToSet(stale), now), olderThan);
      && after == before - ToSet(stale)
      && |after| == |before| - |stale|
      && |stale| == (if |before| < limit then |before| else limit)
  {
    var before := StaleIds(rows, olderThan);
    assert UpdatedAt(rows, olderThan).Keys == before;
    DistinctSize(stale);
    assert StaleIds(ReclaimRows(rows, ToSet(stale), now), olderThan) == before - ToSet(stale);
  }

  /** What the two batch statements select is what the protocol's claim and reclaim steps allow, whatever rows `SKIP LOCKED` leaves. */
  lemma BatchesAreSteps(bus: Bus, w: World, relay: RelayId, batchSize: nat, claimed: seq<RowId>, olderThan: int, limit: nat, stale: seq<RowId>)
    requires relay !in w.relays
    requires FirstBy(CreatedAt(w.rows), batchSize, claimed) && FirstBy(UpdatedAt(w.rows, olderThan), limit, stale)
    ensures Enabled(bus, w, Step.ClaimBatch(relay, batchSize, claimed))
    ensures Enabled(bus, w, Step.Reclaim(olderThan, limit, ToSet(stale)))
  {
    DistinctSize(stale);
    assert forall id :: id in claimed ==> id in ToSet(claimed);
    assert forall i :: 0 <= i < |claimed| ==> claimed[i] in CreatedAt(w.rows);
    forall i, j | 0 <= i < j < |claimed| ensures w.rows[claimed[i]].createdAt <= w.rows[claimed[j]].createdAt {
      assert CreatedAt(w.rows)[claimed[i]] <= CreatedAt(w.rows)[claimed[j]];
    }
  }

  lemma ClaimedAreGone(rows: Table, ids: set<RowId>, more: set<RowId>, now: int)
    requires ids <= PendingIds(rows)
    ensures CreatedAt(ClaimRows(rows, ids, now)) == CreatedAt(rows) - ids
    ensures PendingIds(ClaimRows(rows, ids, now)) == PendingIds(rows) - ids
    ensures ClaimRows(ClaimRows(rows, ids, now), more, now) == ClaimRows(rows, ids + more, now)
  {}

  lemma BatchMakesProgress(keys: map<RowId, int>, limit: nat, done: seq<RowId>, claimed: seq<RowId>)
    requires FirstBy(keys, limit, done + claimed) && claimed != []
    ensures keys.Keys - ToSet(done + claimed) < keys.Keys - ToSet(done)
  {
    var all := done + claimed;
    ToSetJoins(done, claimed);
    assert all[|done|] in ToSet(all);
    assert all[|done|] !in done by {
      assert forall i :: 0 <= i < |done| ==> all[i] == done[i];
    }
    assert all[|done|] in keys.Keys - ToSet(done) && all[|done|] !in keys.Keys - ToSet(all);
  }

  /** A batch claimed after `done` continues it, and the two claims together are one. */
  lemma BatchContinues(rows: Table, done: seq<RowId>, batchSize: nat, claimed: seq<RowId>, now: int)
    requires FirstBy(CreatedAt(rows), |done|, done)
    requires FirstBy(CreatedAt(ClaimRows(rows, ToSet(done), now)), batchSize, claimed)
    ensures FirstBy(CreatedAt(rows), |done| + batchSize, done + claimed)
    ensures ClaimRows(ClaimRows(rows, ToSet(done), now), ToSet(claimed), now) == ClaimRows(rows, ToSet(done + claimed), now)
  {
    ClaimedAreGone(rows, ToSet(done), ToSet(claimed), now);
    FirstThenNext(CreatedAt(rows), done, batchSize, claimed);
    ToSetJoins(done, claimed);
  }

  /** A batch that came back short took all that was left. */
  lemma ShortBatchIsLast(rows: Table, limit: nat, taken: seq<RowId>, now: int)
    requires FirstBy(CreatedAt(rows), limit, taken) && |taken| < limit
    ensures ToSet(taken) == PendingIds(rows) && PendingIds(ClaimRows(rows, ToSet(taken), now)) == {}
  {}

  class OutboxRelayService {
    const table: OutboxTable
    const batchSize: nat
    var enqueued: seq<RowId>

    constructor (table: OutboxTable, batchSize: nat)
      ensures this.table == table && this.batchSize == batchSize && enqueued == []
    {
      this.table, this.batchSize, enqueued := table, batchSize, [];
    }

    /**
     * With no concurrent writer: every pending row is enqueued exactly once, oldest first, and none is left pending.
     */
    method Drain() returns (ghost drained: seq<RowId>)
      modifies this, table
      ensures enqueued == old(enqueued) + drained && table.now == old(table.now)
      ensures FirstBy(CreatedAt(old(table.rows)), |drained|, drained)
      ensures table.rows == ClaimRows(old(table.rows), ToSet(drained), table.now)
      ensures batchSize > 0 ==> ToSet(drained) == PendingIds(old(table.rows)) && PendingIds(table.rows) == {}
    {
      ghost var before := table.rows;
      drained := [];
      var claimed := table.ClaimBatch(batchSize);
      assert drained + claimed == claimed;
      while claimed != []
        invariant table.now == old(table.now)
        invariant enqueued == old(enqueued) + drained
        invariant FirstBy(CreatedAt(before), |drained| + batchSize, drained + claimed)
        invariant table.rows == ClaimRows(before, ToSet(drained + claimed), table.now)
        invariant |claimed| <= batchSize
        decreases PendingIds(before) - ToSet(drained)
      {
        BatchMakesProgress(CreatedAt(before), |drained| + batchSize, drained, claimed);
        EnqueueAll(claimed);
        drained := drained + claimed;
        if |claimed| < batchSize {
          ShortBatchIsLast(before, |drained| - |claimed| + batchSize, drained, table.now);
          return;
        }
        claimed := table.ClaimBatch(batchSize);
        BatchContinues(before, drained, batchSize, claimed, table.now);
      }
      assert drained + claimed == drained;
      if batchSize > 0 {
        ShortBatchIsLast(before, |drained| + batchSize, drained, table.now);
      }
    }

    method EnqueueAll(claimed: seq<RowId>)
      modifies this
      ensures enqueued == old(enqueued) + claimed
    {
      for i := 0 to |claimed|
        invariant enqueued == old(enqueued) + claimed[..i]
      {
        enqueued := enqueued + [claimed[i]];
      }
      assert claimed[..|claimed|] == claimed;
    }
  }

  predicate RowIsStale(row: Row, olderThan: int) {
    row.status == Processing && row.updatedAt < olderThan
  }

  lemma ChosenIsBatch(rows: Table, olderThan: int, limit: nat, chosen: seq<RowId>)
    requires FirstBy(UpdatedAt(rows, olderThan), limit, chosen)
    ensures IsBatch(rows, RowIsStale, olderThan, limit, ToSet(chosen)) && |ToSet(chosen)| == |chosen|
  {
    DistinctSize(chosen);
    var stale := StaleKeys(rows, RowIsStale, olderThan);
    assert UpdatedAt(rows, olderThan).Keys == stale;
    assert ToSet(chosen) <= stale;
    Rest(stale, ToSet(chosen));
  }

  /** One job: a batch of the stale rows is reset. */
  method ReclaimJob(table: OutboxTable, at: int, olderThan: int, limit: nat) returns (count: nat, ghost stale: set<RowId>)
    modifies table
    ensures IsBatch(old(table.rows), RowIsStale, olderThan, limit, stale) && count == |stale|
    ensures table.rows == ReclaimRows(old(table.rows), stale, at)
  {
    table.now := at;
    count := table.ReclaimStaleProcessing(olderThan, limit);
    ghost var chosen :|
      && FirstBy(UpdatedAt(old(table.rows), olderThan), limit, chosen) && |chosen| == count
      && table.rows == ReclaimRows(old(table.rows), ToSet(chosen), at);
    stale := ToSet(chosen);
    ChosenIsBatch(old(table.rows), olderThan, limit, chosen);
  }

  /** The table after the rows in `times` were made pending again, each at its time. */
  function ResetAt(rows: Table, times: map<RowId, int>): Table {
    map id | id in rows :: if id in times then rows[id].(status := Pending, updatedAt := times[id]) else rows[id]
  }

  /** Rows that were reset are out of the way of later jobs. */
  lemma BatchOfTheRest(rows: Table, times: map<RowId, int>, olderThan: int, limit: nat, stale: set<RowId>)
    requires IsBatch(ResetAt(rows, times), RowIsStale, olderThan, limit, stale)
    ensures IsBatch(rows - times.Keys, RowIsStale, olderThan, limit, stale)
  {
    assert StaleKeys(ResetAt(rows, times), RowIsStale, olderThan) == StaleKeys(rows - times.Keys, RowIsStale, olderThan);
  }

  /** One of the first `jobs` jobs read that time. */
  predicate WasRead(clock: nat -> int, jobs: nat, at: int) {
    jobs > 0 && (at == clock(jobs - 1) || WasRead(clock, jobs - 1, at))
  }

  ghost predicate AllRead(clock: nat -> int, jobs: nat, times: map<RowId, int>) {
    forall id :: id in times ==> WasRead(clock, jobs, times[id])
  }

  lemma NextReclaim(before: Table, times: map<RowId, int>, gone: set<RowId>, cutOff: nat -> int, limit: nat, jobs: nat, stale: set<RowId>)
    requires jobs > 0 && Advances(cutOff, jobs - 1) && Purged(before, RowIsStale, cutOff, limit, jobs, gone, limit) && times.Keys == gone
    requires IsBatch(ResetAt(before, times), RowIsStale, cutOff(jobs), limit, stale)
    ensures Purged(before, RowIsStale, cutOff, limit, jobs + 1, gone + stale, |stale|)
    ensures |gone + stale| == |gone| + |stale| && |before.Keys - (gone + stale)| == |before.Keys - gone| - |stale|
  {
    BatchOfTheRest(before, times, cutOff(jobs), limit, stale);
    NextJob(before, RowIsStale, cutOff, limit, jobs, gone, stale);
  }

  lemma FirstReset(before: Table, stale: set<RowId>, clock: nat -> int) returns (times: map<RowId, int>)
    ensures times.Keys == stale && ReclaimRows(before, stale, clock(0)) == ResetAt(before, times) && AllRead(clock, 1, times)
  {
    times := map id | id in stale :: clock(0);
  }

  lemma NextReset(before: Table, was: map<RowId, int>, stale: set<RowId>, clock: nat -> int, jobs: nat) returns (times: map<RowId, int>)
    requires AllRead(clock, jobs, was)
    ensures times.Keys == was.Keys + stale && AllRead(clock, jobs + 1, times)
    ensures ReclaimRows(ResetAt(before, was), stale, clock(jobs)) == ResetAt(before, times)
  {
    times := was + map id | id in stale :: clock(jobs);
  }

  /** Exactly the processing rows last changed before the cut-off are pending again, each since its time. */
  ghost predicate WasReclaimed(before: Table, after: Table, olderThan: int, times: map<RowId, int>) {
    && after.Keys == before.Keys
    && (forall id :: id in times <==> id in before && before[id].status == Processing && before[id].updatedAt < olderThan)
    && forall id :: id in before ==>
         after[id] == if id in times then before[id].(status := Pending, updatedAt := times[id]) else before[id]
  }

  lemma ResetIsReclaimed(before: Table, times: map<RowId, int>, olderThan: int)
    requires times.Keys == StaleKeys(before, RowIsStale, olderThan)
    ensures WasReclaimed(before, ResetAt(before, times), olderThan, times)
  {}

  /**
   * The chain of `ReclaimStaleOutbox` jobs, each full batch enqueuing the next, which computes its cut-off from the clock
   * again: it ends, and exactly the rows that were stale at its last cut-off have been reset, each by one of the jobs.
   */
  method ReclaimChain(table: OutboxTable, clock: nat -> int, cutOff: nat -> int, limit: nat)
    returns (jobs: nat, total: nat, ghost times: map<RowId, int>)
    requires limit > 0 && Ticks(cutOff)
    modifies table
    ensures jobs > 0 && AllRead(clock, jobs, times)
    ensures WasReclaimed(old(table.rows), table.rows, cutOff(jobs - 1), times)
    ensures total == |times.Keys| && jobs == total / limit + 1
  {
    ghost var before := table.rows;
    ghost var gone, stale;
    total, gone := ReclaimJob(table, clock(0), cutOff(0), limit);
    FirstJob(before, RowIsStale, cutOff, limit, gone);
    times := FirstReset(before, gone, clock);
    var reset := total;
    jobs := 1;
    while reset == limit
      invariant jobs > 0 && Purged(before, RowIsStale, cutOff, limit, jobs, gone, reset) && total == |gone| && times.Keys == gone
      invariant table.rows == ResetAt(before, times) && AllRead(clock, jobs, times)
      decreases |before.Keys - gone| + (if reset == limit then 1 else 0)
    {
      reset, stale := ReclaimJob(table, clock(jobs), cutOff(jobs), limit);
      assert Advances(cutOff, jobs - 1);
      NextReclaim(before, times, gone, cutOff, limit, jobs, stale);
      times := NextReset(before, times, stale, clock, jobs);
      gone := gone + stale;
      jobs, total := jobs + 1, total + reset;
    }
    ChainEnds(before, RowIsStale, cutOff, limit, jobs, gone, reset);
    ResetIsReclaimed(before, times, cutOff(jobs - 1));
  }

  lemma OneEvent(bus: Bus, event: Event, throws: Call -> bool, ran: seq<Call>, ok: bool)
    requires if ok then InOrder(bus, [event], ran) else exists n, start :: ThrewAt(bus, [event], throws, ran, n, start)
    ensures
      var handlers := HandlersFor(bus, event.eventType);
      && (if ok then |ran| == |handlers| else |ran| < |handlers| && throws(Call(handlers[|ran|], event)))
      && forall i :: 0 <= i < |ran| ==> ran[i] == Call(handlers[i], event)
  {
    assert [event][1..] == [] && [event][..0] == [];
  }

  class OutboxEventProcessor {
    const table: OutboxTable
    const bus: InProcessEventBus

    constructor (table: OutboxTable, bus: InProcessEventBus)
      ensures this.table == table && this.bus == bus
    {
      this.table, this.bus := table, bus;
    }

    /** One delivery with no interference; `threw` says that the error was rethrown to the queue. */
    method Process(id: RowId, attemptsMade: nat, maxAttempts: nat, throws: Call -> bool) returns (ran: seq<Call>, threw: bool)
      modifies table
      ensures table.now == old(table.now)
      ensures !IsProcessing(old(table.rows), id) ==> table.rows == old(table.rows) && ran == [] && !threw
      ensures IsProcessing(old(table.rows), id) ==>
                var event := old(table.rows)[id].event;
                && (var handlers := HandlersFor(bus.Registered(), event.eventType);
                    && (if threw then |ran| < |handlers| && throws(Call(handlers[|ran|], event)) else |ran| == |handlers|)
                    && forall i :: 0 <= i < |ran| ==> ran[i] == Call(handlers[i], event) && !throws(ran[i]))
                && table.rows == (if !threw then CompleteRow(old(table.rows), id, table.now)
                                  else if attemptsMade + 1 >= maxAttempts then FailRow(old(table.rows), id, table.now)
                                  else old(table.rows))
    {
      var entry := table.FindById(id);
      if entry == None || entry.value.status != Processing {
        return [], false;
      }
      var event := entry.value.event;
      var ok;
      ran, ok := bus.Dispatch([event], throws);
      OneEvent(bus.Registered(), event, throws, ran, ok);
      if ok {
        table.Complete(id);
      } else if attemptsMade + 1 >= maxAttempts {
        table.Fail(id);
      }
      threw := !ok;
    }
  }

  /** From any moment of a delivery on, some schedule finishes it with the effect of one `complete` statement. */
  lemma {:induction false} DeliveryCanFinish(bus: Bus, w: World, k: WorkerId) returns (steps: seq<Step>)
    requires k in w.workers && !w.workers[k].caught
    requires w.workers[k].next <= |HandlersFor(bus, w.workers[k].event.eventType)|
    ensures Feasible(bus, w, steps)
    ensures Exec(bus, w, steps).rows == CompleteRow(w.rows, w.workers[k].id, w.now)
    decreases |HandlersFor(bus, w.workers[k].event.eventType)| - w.workers[k].next
  {
    if w.workers[k].next == |HandlersFor(bus, w.workers[k].event.eventType)| {
      steps := [Outbox.Complete(k, true)];
    } else {
      var s := HandlerReturns(k);
      var rest := DeliveryCanFinish(bus, Apply(bus, w, s), k);
      steps := [s] + rest;
      assert steps[1..] == rest;
    }
  }

  /** A claimed row whose job is in the queue can always still be processed, however many crashes came before. */
  lemma ClaimedRowCanBeProcessed(bus: Bus, w: World, k: WorkerId, id: RowId) returns (steps: seq<Step>)
    requires k !in w.workers && id in w.jobs && IsProcessing(w.rows, id)
    ensures Feasible(bus, w, steps)
    ensures Exec(bus, w, steps).rows == w.rows[id := w.rows[id].(status := Processed, updatedAt := w.now, processedAt := Some(w.now))]
  {
    var s := Deliver(k, id, 0, 1);
    var rest := DeliveryCanFinish(bus, Apply(bus, w, s), k);
    steps := [s] + rest;
    assert steps[1..] == rest;
  }

  /** Every row still pending can be claimed, enqueued and processed, by a relay and a worker that are free. */
  lemma PendingRowCanBeProcessed(bus: Bus, w: World, relay: RelayId, k: WorkerId, id: RowId) returns (steps: seq<Step>)
    requires relay !in w.relays && k !in w.workers && IsPending(w.rows, id)
    ensures Feasible(bus, w, steps) && Exec(bus, w, steps).rows.Keys == w.rows.Keys
    ensures Exec(bus, w, steps).rows[id] == w.rows[id].(status := Processed, updatedAt := w.now, processedAt := Some(w.now))
  {
    var claim, enqueue := ClaimBatch(relay, 1, [id]), Enqueue(relay);
    assert ToSet([id]) == {id};
    var w1 := Apply(bus, w, claim);
    assert [id][1..] == [] && id in ToSet([id]);
    var w2 := Apply(bus, w1, enqueue);
    var rest := ClaimedRowCanBeProcessed(bus, w2, k, id);
    steps := [claim] + ([enqueue] + rest);
    assert steps[1..] == [enqueue] + rest && ([enqueue] + rest)[1..] == rest;
  }
}
