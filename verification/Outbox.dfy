/**
 * The transactional outbox: rows are inserted with the business transaction, claimed in batches by
 * relays, delivered to workers through a lossy and duplicating queue, and end `Processed` or `Failed`.
 * Every SQL statement (or transaction) is one atomic step; relays, workers and the maintenance job
 * interleave arbitrarily, crash at any point and act on rows they read earlier.
 */
module Outbox {
  import opened Wrappers
  import opened EventBus

  type RowId = nat
  type TxId = nat
  type RelayId = nat
  type WorkerId = nat

  datatype Status = Pending | Processing | Processed | Failed

  datatype Row = Row(event: Event, status: Status, createdAt: int, updatedAt: int,
                     processedAt: Option<int>, attemptCount: nat)

  type Table = map<RowId, Row>

  /** A row as built by the publisher: its `created_at` is stamped before the transaction commits. */
  datatype Draft = Draft(id: RowId, event: Event, createdAt: int)

  // ---------------------------------------------------------------------------------------------
  // The SQL statements, as functions of the table
  // ---------------------------------------------------------------------------------------------

  predicate IsPending(rows: Table, id: RowId) {
    id in rows && rows[id].status == Pending
  }

  predicate IsProcessing(rows: Table, id: RowId) {
    id in rows && rows[id].status == Processing
  }

  predicate IsSettled(row: Row) {
    row.status == Processed || row.status == Failed
  }

  function NewRow(draft: Draft): Row {
    Row(draft.event, Pending, draft.createdAt, draft.createdAt, None, 0)
  }

  predicate DistinctDrafts(drafts: seq<Draft>) {
    forall i, j :: 0 <= i < j < |drafts| ==> drafts[i].id != drafts[j].id
  }

  function InsertRows(rows: Table, drafts: seq<Draft>): Table {
    if drafts == [] then rows
    else InsertRows(rows, drafts[..|drafts| - 1])[drafts[|drafts| - 1].id := NewRow(drafts[|drafts| - 1])]
  }

  function ClaimRows(rows: Table, ids: set<RowId>, now: int): Table {
    map id | id in rows :: if id in ids then rows[id].(status := Processing, updatedAt := now) else rows[id]
  }

  function CompleteRow(rows: Table, id: RowId, now: int): Table {
    if IsProcessing(rows, id)
    then rows[id := rows[id].(status := Processed, updatedAt := now, processedAt := Some(now))]
    else rows
  }

  function FailRow(rows: Table, id: RowId, now: int): Table {
    if IsProcessing(rows, id)
    then rows[id := rows[id].(status := Failed, updatedAt := now, attemptCount := rows[id].attemptCount + 1)]
    else rows
  }

  function ReclaimRows(rows: Table, ids: set<RowId>, now: int): Table {
    map id | id in rows :: if id in ids then rows[id].(status := Pending, updatedAt := now) else rows[id]
  }

  // ---------------------------------------------------------------------------------------------
  // The step system
  // ---------------------------------------------------------------------------------------------

  /** What happened, in order, and when. Statements that changed no row leave no entry. */
  datatype Entry =
    | Claimed(ids: set<RowId>, at: int)
    | Reclaimed(ids: set<RowId>, at: int, olderThan: int)
    | Delivered(id: RowId, run: nat, attemptsMade: nat, maxAttempts: nat)
    | Ran(run: nat, handler: Handler)
    | Completed(id: RowId, run: nat, at: int)
    | GaveUp(id: RowId, run: nat, at: int)

  /**
   * A worker busy with one delivery. `event` is what it read from the row, `next` counts the handlers
   * that have returned, `caught` says that an exception has reached the catch block.
   */
  datatype Worker = Worker(run: nat, id: RowId, event: Event, next: nat, lastAttempt: bool, caught: bool)

  datatype World = World(
    rows: Table,
    open: map<TxId, seq<Draft>>,
    relays: map<RelayId, seq<RowId>>,
    jobs: set<RowId>,
    workers: map<WorkerId, Worker>,
    issued: set<RowId>,
    now: int,
    nextRun: nat,
    log: seq<Entry>)

  datatype Step =
    | Tick(elapsed: nat)
    | Publish(tx: TxId, drafts: seq<Draft>)
    | Commit(tx: TxId)
    | Rollback(tx: TxId)
    | ClaimBatch(relay: RelayId, batchSize: nat, claimed: seq<RowId>)
    | Enqueue(relay: RelayId)
    | RelayCrash(relay: RelayId)
    | Deliver(worker: WorkerId, id: RowId, attemptsMade: nat, maxAttempts: nat)
    | HandlerReturns(worker: WorkerId)
    | Throws(worker: WorkerId)
    | Complete(worker: WorkerId, acknowledged: bool)
    | Catch(worker: WorkerId)
    | WorkerCrash(worker: WorkerId)
    | Reclaim(olderThan: int, limit: nat, stale: set<RowId>)

  const Start: World := World(map[], map[], map[], {}, map[], {}, 0, 0, [])

  predicate IsStale(rows: Table, id: RowId, olderThan: int) {
    IsProcessing(rows, id) && rows[id].updatedAt < olderThan
  }

  predicate Distinct(ids: seq<RowId>) {
    forall i, j :: 0 <= i < j < |ids| ==> ids[i] != ids[j]
  }

  function ToSet(ids: seq<RowId>): set<RowId> {
    set id | id in ids
  }

  predicate OldestFirst(rows: Table, ids: seq<RowId>)
    requires forall id :: id in ids ==> id in rows
  {
    forall i, j :: 0 <= i < j < |ids| ==> rows[ids[i]].createdAt <= rows[ids[j]].createdAt
  }

  /** `SKIP LOCKED` may pass over any pending row, so a claim may return any pending rows, oldest first. */
  predicate MayClaim(rows: Table, batchSize: nat, claimed: seq<RowId>) {
    && |claimed| <= batchSize
    && Distinct(claimed)
    && (forall id :: id in claimed ==> IsPending(rows, id))
    && OldestFirst(rows, claimed)
  }

  predicate Enabled(bus: Bus, w: World, s: Step) {
    match s
    case Tick(_) => true
    case Publish(tx, drafts) =>
      DistinctDrafts(drafts) && (forall d :: d in drafts ==> d.id !in w.issued && d.createdAt == w.now)
    case Commit(tx) => tx in w.open
    case Rollback(tx) => tx in w.open
    case ClaimBatch(relay, batchSize, claimed) => relay !in w.relays && MayClaim(w.rows, batchSize, claimed)
    case Enqueue(relay) => relay in w.relays && w.relays[relay] != []
    case RelayCrash(relay) => relay in w.relays
    case Deliver(worker, id, _, _) => worker !in w.workers && id in w.jobs
    case HandlerReturns(worker) =>
      && worker in w.workers
      && !w.workers[worker].caught
      && w.workers[worker].next < |HandlersFor(bus, w.workers[worker].event.eventType)|
    case Throws(worker) => worker in w.workers && !w.workers[worker].caught
    case Complete(worker, _) =>
      && worker in w.workers
      && !w.workers[worker].caught
      && w.workers[worker].next == |HandlersFor(bus, w.workers[worker].event.eventType)|
    case Catch(worker) => worker in w.workers && w.workers[worker].caught
    case WorkerCrash(worker) => worker in w.workers
    case Reclaim(olderThan, limit, stale) =>
      |stale| <= limit && forall id :: id in stale ==> IsStale(w.rows, id, olderThan)
  }

  function DraftIds(drafts: seq<Draft>): set<RowId> {
    set d | d in drafts :: d.id
  }

  function Apply(bus: Bus, w: World, s: Step): World
    requires Enabled(bus, w, s)
  {
    match s
    case Tick(elapsed) => w.(now := w.now + elapsed)
    case Publish(tx, drafts) =>
      var before := if tx in w.open then w.open[tx] else [];
      w.(open := w.open[tx := before + drafts], issued := w.issued + DraftIds(drafts))
    case Commit(tx) => w.(rows := InsertRows(w.rows, w.open[tx]), open := w.open - {tx})
    case Rollback(tx) => w.(open := w.open - {tx})
    case ClaimBatch(relay, _, claimed) =>
      w.(rows := ClaimRows(w.rows, ToSet(claimed), w.now), relays := w.relays[relay := claimed],
         log := w.log + [Claimed(ToSet(claimed), w.now)])
    case Enqueue(relay) =>
      w.(relays := w.relays[relay := w.relays[relay][1..]], jobs := w.jobs + {w.relays[relay][0]})
    case RelayCrash(relay) => w.(relays := w.relays - {relay})
    case Deliver(worker, id, attemptsMade, maxAttempts) =>
      if !IsProcessing(w.rows, id) then w
      else
        w.(workers := w.workers[worker := Worker(w.nextRun, id, w.rows[id].event, 0, attemptsMade + 1 >= maxAttempts, false)],
           nextRun := w.nextRun + 1,
           log := w.log + [Delivered(id, w.nextRun, attemptsMade, maxAttempts)])
    case HandlerReturns(worker) =>
      var busy := w.workers[worker];
      w.(workers := w.workers[worker := busy.(next := busy.next + 1)],
         log := w.log + [Ran(busy.run, HandlersFor(bus, busy.event.eventType)[busy.next])])
    case Throws(worker) => w.(workers := w.workers[worker := w.workers[worker].(caught := true)])
    case Complete(worker, acknowledged) =>
      var busy := w.workers[worker];
      w.(rows := CompleteRow(w.rows, busy.id, w.now),
         workers := if acknowledged then w.workers - {worker} else w.workers[worker := busy.(caught := true)],
         log := if IsProcessing(w.rows, busy.id) then w.log + [Completed(busy.id, busy.run, w.now)] else w.log)
    case Catch(worker) =>
      var busy := w.workers[worker];
      w.(rows := if busy.lastAttempt then FailRow(w.rows, busy.id, w.now) else w.rows,
         workers := w.workers - {worker},
         log := if busy.lastAttempt && IsProcessing(w.rows, busy.id) then w.log + [GaveUp(busy.id, busy.run, w.now)] else w.log)
    case WorkerCrash(worker) => w.(workers := w.workers - {worker})
    case Reclaim(olderThan, _, stale) =>
      w.(rows := ReclaimRows(w.rows, stale, w.now), log := w.log + [Reclaimed(stale, w.now, olderThan)])
  }

  // ---------------------------------------------------------------------------------------------
  // Reading the log
  // ---------------------------------------------------------------------------------------------

  /** Claims minus reclaims of one row. */
  function Balance(log: seq<Entry>, id: RowId): int {
    if log == [] then 0
    else
      Balance(log[..|log| - 1], id) +
      match log[|log| - 1]
      case Claimed(ids, _) => if id in ids then 1 else 0
      case Reclaimed(ids, _, _) => if id in ids then -1 else 0
      case _ => 0
  }

  /** The handlers that one delivery has run to completion, in order. */
  function RanBy(log: seq<Entry>, run: nat): seq<Handler> {
    if log == [] then []
    else
      var earlier := RanBy(log[..|log| - 1], run);
      match log[|log| - 1]
      case Ran(r, handler) => if r == run then earlier + [handler] else earlier
      case _ => earlier
  }

  /** The number of terminal statements that took effect on one row. */
  function Settled(log: seq<Entry>, id: RowId): nat {
    if log == [] then 0
    else
      Settled(log[..|log| - 1], id) +
      match log[|log| - 1]
      case Completed(i, _, _) => if i == id then 1 else 0
      case GaveUp(i, _, _) => if i == id then 1 else 0
      case _ => 0
  }

  predicate CompletedBy(log: seq<Entry>, n: nat, id: RowId) {
    n < |log| && log[n].Completed? && log[n].id == id
  }

  /** Some entry completes the row, and before it that delivery had run all handlers of the row's event, in order. */
  ghost predicate CompletedAfterDispatch(bus: Bus, log: seq<Entry>, id: RowId, event: Event) {
    exists n: nat :: CompletedBy(log, n, id) && RanBy(log[..n], log[n].run) == HandlersFor(bus, event.eventType)
  }

  predicate EverClaimed(log: seq<Entry>, id: RowId) {
    exists n :: 0 <= n < |log| && log[n].Claimed? && id in log[n].ids
  }

  // ---------------------------------------------------------------------------------------------
  // The invariant
  // ---------------------------------------------------------------------------------------------

  predicate RowsWellFormed(rows: Table) {
    forall id :: id in rows ==>
      && rows[id].attemptCount == (if rows[id].status == Failed then 1 else 0)
      && (rows[id].processedAt.Some? <==> rows[id].status == Processed)
  }

  predicate DraftsFresh(w: World) {
    && w.rows.Keys <= w.issued
    && (forall tx :: tx in w.open ==> DistinctDrafts(w.open[tx]) && DraftIds(w.open[tx]) <= w.issued - w.rows.Keys)
    && (forall t, u :: t in w.open && u in w.open && t != u ==> DraftIds(w.open[t]) !! DraftIds(w.open[u]))
  }

  ghost predicate Accounted(w: World) {
    forall id :: Balance(w.log, id) == if id in w.rows && w.rows[id].status != Pending then 1 else 0
  }

  ghost predicate AccountedThroughout(log: seq<Entry>) {
    forall n, id :: 0 <= n <= |log| ==> 0 <= Balance(log[..n], id) <= 1
  }

  ghost predicate SettledOnce(w: World) {
    forall id :: Settled(w.log, id) == if id in w.rows && IsSettled(w.rows[id]) then 1 else 0
  }

  /** A busy worker holds the event of its row and has run exactly the first `next` handlers for it. */
  predicate Faithful(bus: Bus, rows: Table, log: seq<Entry>, busy: Worker) {
    && busy.id in rows && rows[busy.id].event == busy.event
    && busy.next <= |HandlersFor(bus, busy.event.eventType)|
    && RanBy(log, busy.run) == HandlersFor(bus, busy.event.eventType)[..busy.next]
  }

  predicate WorkersFaithful(bus: Bus, w: World) {
    && (forall k :: k in w.workers ==> w.workers[k].run < w.nextRun && Faithful(bus, w.rows, w.log, w.workers[k]))
    && (forall k, l :: k in w.workers && l in w.workers && k != l ==> w.workers[k].run != w.workers[l].run)
  }

  predicate RunsIssued(w: World) {
    forall n :: 0 <= n < |w.log| && w.log[n].Ran? ==> w.log[n].run < w.nextRun
  }

  ghost predicate ProcessedJustified(bus: Bus, w: World) {
    forall id :: id in w.rows && w.rows[id].status == Processed ==> CompletedAfterDispatch(bus, w.log, id, w.rows[id].event)
  }

  /** Whatever is waiting to be enqueued or has been enqueued was claimed before. */
  ghost predicate QueueJustified(w: World) {
    && (forall id :: id in w.jobs ==> EverClaimed(w.log, id))
    && (forall r, id :: r in w.relays && id in w.relays[r] ==> EverClaimed(w.log, id))
  }

  ghost predicate Inv(bus: Bus, w: World) {
    && RowsWellFormed(w.rows)
    && DraftsFresh(w)
    && Accounted(w)
    && AccountedThroughout(w.log)
    && SettledOnce(w)
    && WorkersFaithful(bus, w)
    && RunsIssued(w)
    && ProcessedJustified(bus, w)
    && QueueJustified(w)
  }

  // ---------------------------------------------------------------------------------------------
  // Facts about the statements and the log
  // ---------------------------------------------------------------------------------------------

  lemma {:induction false} InsertRowsAddsExactly(rows: Table, drafts: seq<Draft>)
    requires DistinctDrafts(drafts)
    ensures InsertRows(rows, drafts).Keys == rows.Keys + DraftIds(drafts)
    ensures forall d :: d in drafts ==> InsertRows(rows, drafts)[d.id] == NewRow(d)
    ensures forall id :: id in rows && id !in DraftIds(drafts) ==> InsertRows(rows, drafts)[id] == rows[id]
  {
    if drafts != [] {
      var init, last := drafts[..|drafts| - 1], drafts[|drafts| - 1];
      InsertRowsAddsExactly(rows, init);
      assert drafts == init + [last];
      LastDraftIsNew(drafts);
      var before := InsertRows(rows, init);
      assert InsertRows(rows, drafts) == before[last.id := NewRow(last)];
      forall d | d in drafts ensures InsertRows(rows, drafts)[d.id] == NewRow(d) {
        if d in init {
          assert d.id != last.id;
        }
      }
    }
  }

  lemma LastDraftIsNew(drafts: seq<Draft>)
    requires DistinctDrafts(drafts) && drafts != []
    ensures
      var init, last := drafts[..|drafts| - 1], drafts[|drafts| - 1];
      && (forall d :: d in drafts <==> d in init || d == last)
      && (forall d :: d in init ==> d.id != last.id)
      && DraftIds(drafts) == DraftIds(init) + {last.id}
  {}

  lemma Appended(log: seq<Entry>, e: Entry)
    ensures (log + [e])[..|log|] == log
    ensures forall n :: 0 <= n <= |log| ==> (log + [e])[..n] == log[..n]
  {}

  lemma RunUnused(log: seq<Entry>, run: nat)
    requires forall n :: 0 <= n < |log| && log[n].Ran? ==> log[n].run != run
    ensures RanBy(log, run) == []
  {}

  lemma CompletionSurvives(bus: Bus, log: seq<Entry>, e: Entry, id: RowId, event: Event)
    requires CompletedAfterDispatch(bus, log, id, event)
    ensures CompletedAfterDispatch(bus, log + [e], id, event)
  {
    var n: nat :| CompletedBy(log, n, id) && RanBy(log[..n], log[n].run) == HandlersFor(bus, event.eventType);
    Appended(log, e);
    assert CompletedBy(log + [e], n, id);
  }

  lemma ClaimSurvives(log: seq<Entry>, e: Entry, id: RowId)
    requires EverClaimed(log, id)
    ensures EverClaimed(log + [e], id)
  {
    var n :| 0 <= n < |log| && log[n].Claimed? && id in log[n].ids;
    assert (log + [e])[n] == log[n];
  }

  // ---------------------------------------------------------------------------------------------
  // Every step keeps every part of the invariant
  // ---------------------------------------------------------------------------------------------

  /** Rows are never deleted, their event never changes, and a terminal row never changes at all. */
  ghost predicate RowsKept(rows: Table, rows': Table) {
    forall id :: id in rows ==>
      && id in rows'
      && rows'[id].event == rows[id].event
      && rows'[id].createdAt == rows[id].createdAt
      && (IsSettled(rows[id]) ==> rows'[id] == rows[id])
  }

  lemma StatementsKeepRows(rows: Table, id: RowId, ids: set<RowId>, now: int)
    requires forall i :: i in ids && i in rows ==> !IsSettled(rows[i])
    ensures RowsKept(rows, CompleteRow(rows, id, now)) && RowsKept(rows, FailRow(rows, id, now))
    ensures RowsKept(rows, ClaimRows(rows, ids, now)) && RowsKept(rows, ReclaimRows(rows, ids, now))
  {}

  lemma StepKeepsEvents(bus: Bus, w: World, s: Step)
    requires DraftsFresh(w) && Enabled(bus, w, s)
    ensures RowsKept(w.rows, Apply(bus, w, s).rows)
  {
    match s
    case Commit(tx) => InsertRowsAddsExactly(w.rows, w.open[tx]);
    case ClaimBatch(_, _, claimed) => StatementsKeepRows(w.rows, 0, ToSet(claimed), w.now);
    case Reclaim(_, _, stale) => StatementsKeepRows(w.rows, 0, stale, w.now);
    case Complete(worker, _) => StatementsKeepRows(w.rows, w.workers[worker].id, {}, w.now);
    case Catch(worker) => StatementsKeepRows(w.rows, w.workers[worker].id, {}, w.now);
    case _ =>
  }

  lemma StepKeepsRows(bus: Bus, w: World, s: Step)
    requires RowsWellFormed(w.rows) && DraftsFresh(w) && Enabled(bus, w, s)
    ensures RowsWellFormed(Apply(bus, w, s).rows)
  {
    if s.Commit? {
      InsertRowsAddsExactly(w.rows, w.open[s.tx]);
    }
  }

  lemma DraftsJoin(a: seq<Draft>, b: seq<Draft>)
    requires DistinctDrafts(a) && DistinctDrafts(b) && DraftIds(a) !! DraftIds(b)
    ensures DistinctDrafts(a + b) && DraftIds(a + b) == DraftIds(a) + DraftIds(b)
  {
    assert forall d :: d in a ==> d.id in DraftIds(a);
    assert forall d :: d in b ==> d.id in DraftIds(b);
    assert forall d :: d in a + b <==> d in a || d in b;
  }

  lemma PublishKeepsDrafts(bus: Bus, w: World, s: Step)
    requires s.Publish? && DraftsFresh(w) && Enabled(bus, w, s)
    ensures DraftsFresh(Apply(bus, w, s))
  {
    var before := if s.tx in w.open then w.open[s.tx] else [];
    assert DraftIds(s.drafts) !! w.issued;
    DraftsJoin(before, s.drafts);
  }

  lemma StepKeepsDrafts(bus: Bus, w: World, s: Step)
    requires DraftsFresh(w) && Enabled(bus, w, s)
    ensures DraftsFresh(Apply(bus, w, s))
  {
    var w' := Apply(bus, w, s);
    if s.Commit? {
      InsertRowsAddsExactly(w.rows, w.open[s.tx]);
    } else if s.Publish? {
      PublishKeepsDrafts(bus, w, s);
    } else if !s.Rollback? {
      assert w'.rows.Keys == w.rows.Keys && w'.open == w.open && w'.issued == w.issued;
    }
  }

  lemma StepKeepsAccounts(bus: Bus, w: World, s: Step)
    requires DraftsFresh(w) && Accounted(w) && Enabled(bus, w, s)
    ensures Accounted(Apply(bus, w, s))
  {
    var w' := Apply(bus, w, s);
    if s.Commit? {
      InsertRowsAddsExactly(w.rows, w.open[s.tx]);
    } else if |w'.log| == |w.log| + 1 {
      Appended(w.log, w'.log[|w.log|]);
    }
  }

  lemma StepKeepsHistory(bus: Bus, w: World, s: Step)
    requires DraftsFresh(w) && Accounted(w) && AccountedThroughout(w.log) && Enabled(bus, w, s)
    ensures AccountedThroughout(Apply(bus, w, s).log)
  {
    var w' := Apply(bus, w, s);
    StepKeepsAccounts(bus, w, s);
    forall n, id | 0 <= n <= |w'.log|
      ensures 0 <= Balance(w'.log[..n], id) <= 1
    {
      if n == |w'.log| {
        assert w'.log[..n] == w'.log;
      } else {
        assert w'.log[..n] == w.log[..n];
      }
    }
  }

  lemma OutcomeKeepsSettled(bus: Bus, w: World, s: Step)
    requires (s.Complete? || s.Catch?) && SettledOnce(w) && Enabled(bus, w, s)
    ensures SettledOnce(Apply(bus, w, s))
  {
    var w' := Apply(bus, w, s);
    if |w'.log| == |w.log| + 1 {
      Appended(w.log, w'.log[|w.log|]);
    }
  }

  lemma StepKeepsSettled(bus: Bus, w: World, s: Step)
    requires DraftsFresh(w) && SettledOnce(w) && Enabled(bus, w, s)
    ensures SettledOnce(Apply(bus, w, s))
  {
    var w' := Apply(bus, w, s);
    if s.Complete? || s.Catch? {
      OutcomeKeepsSettled(bus, w, s);
    } else if s.Commit? {
      InsertRowsAddsExactly(w.rows, w.open[s.tx]);
    } else if |w'.log| == |w.log| + 1 {
      Appended(w.log, w'.log[|w.log|]);
    }
  }

  lemma OthersStayFaithful(bus: Bus, rows: Table, rows': Table, log: seq<Entry>, e: Entry, busy: Worker)
    requires Faithful(bus, rows, log, busy) && RowsKept(rows, rows')
    requires e.Ran? ==> e.run != busy.run
    ensures Faithful(bus, rows', log, busy) && Faithful(bus, rows', log + [e], busy)
  {}

  lemma HandlerStaysFaithful(bus: Bus, rows: Table, log: seq<Entry>, busy: Worker)
    requires Faithful(bus, rows, log, busy) && busy.next < |HandlersFor(bus, busy.event.eventType)|
    ensures Faithful(bus, rows, log + [Ran(busy.run, HandlersFor(bus, busy.event.eventType)[busy.next])], busy.(next := busy.next + 1))
  {
    var handlers := HandlersFor(bus, busy.event.eventType);
    Appended(log, Ran(busy.run, handlers[busy.next]));
    assert handlers[..busy.next + 1] == handlers[..busy.next] + [handlers[busy.next]];
  }

  lemma HandlerKeepsWorkers(bus: Bus, w: World, s: Step)
    requires s.HandlerReturns? && WorkersFaithful(bus, w) && Enabled(bus, w, s)
    ensures WorkersFaithful(bus, Apply(bus, w, s))
  {
    var w', busy := Apply(bus, w, s), w.workers[s.worker];
    var e := Ran(busy.run, HandlersFor(bus, busy.event.eventType)[busy.next]);
    HandlerStaysFaithful(bus, w.rows, w.log, busy);
    forall k | k in w.workers && k != s.worker ensures Faithful(bus, w.rows, w.log + [e], w.workers[k]) {
      OthersStayFaithful(bus, w.rows, w.rows, w.log, e, w.workers[k]);
    }
    assert w'.log == w.log + [e] && w'.rows == w.rows;
  }

  lemma DeliverKeepsWorkers(bus: Bus, w: World, s: Step)
    requires s.Deliver? && WorkersFaithful(bus, w) && RunsIssued(w) && Enabled(bus, w, s)
    ensures WorkersFaithful(bus, Apply(bus, w, s))
  {
    var w' := Apply(bus, w, s);
    if IsProcessing(w.rows, s.id) {
      var e := Delivered(s.id, w.nextRun, s.attemptsMade, s.maxAttempts);
      forall k | k in w.workers ensures Faithful(bus, w.rows, w.log + [e], w.workers[k]) {
        OthersStayFaithful(bus, w.rows, w.rows, w.log, e, w.workers[k]);
      }
      NewWorkerIsFaithful(bus, w.rows, w.log, e, w'.workers[s.worker]);
    }
  }

  lemma NewWorkerIsFaithful(bus: Bus, rows: Table, log: seq<Entry>, e: Entry, busy: Worker)
    requires busy.id in rows && rows[busy.id].event == busy.event && busy.next == 0 && !e.Ran?
    requires forall n :: 0 <= n < |log| && log[n].Ran? ==> log[n].run != busy.run
    ensures Faithful(bus, rows, log + [e], busy)
  {
    RunUnused(log, busy.run);
    Appended(log, e);
  }

  /** What a step other than a delivery or a returning handler may do to the workers: drop one or mark it caught. */
  ghost predicate WorkersShrink(before: map<WorkerId, Worker>, after: map<WorkerId, Worker>) {
    forall k :: k in after ==> k in before && after[k] == before[k].(caught := after[k].caught)
  }

  lemma OtherStepsKeepWorkers(bus: Bus, w: World, w': World)
    requires WorkersFaithful(bus, w) && RowsKept(w.rows, w'.rows) && WorkersShrink(w.workers, w'.workers)
    requires w'.nextRun == w.nextRun
    requires w'.log == w.log || (|w'.log| == |w.log| + 1 && w'.log == w.log + [w'.log[|w.log|]] && !w'.log[|w.log|].Ran?)
    ensures WorkersFaithful(bus, w')
  {}

  lemma OtherStepsShrinkWorkers(bus: Bus, w: World, s: Step)
    requires Enabled(bus, w, s) && !s.HandlerReturns? && !s.Deliver?
    ensures
      var w' := Apply(bus, w, s);
      && WorkersShrink(w.workers, w'.workers) && w'.nextRun == w.nextRun
      && (w'.log == w.log || (|w'.log| == |w.log| + 1 && w'.log == w.log + [w'.log[|w.log|]] && !w'.log[|w.log|].Ran?))
  {}

  lemma StepKeepsWorkers(bus: Bus, w: World, s: Step)
    requires DraftsFresh(w) && WorkersFaithful(bus, w) && RunsIssued(w) && Enabled(bus, w, s)
    ensures WorkersFaithful(bus, Apply(bus, w, s))
  {
    if s.HandlerReturns? {
      HandlerKeepsWorkers(bus, w, s);
    } else if s.Deliver? {
      DeliverKeepsWorkers(bus, w, s);
    } else {
      StepKeepsEvents(bus, w, s);
      OtherStepsShrinkWorkers(bus, w, s);
      OtherStepsKeepWorkers(bus, w, Apply(bus, w, s));
    }
  }

  lemma StepKeepsRuns(bus: Bus, w: World, s: Step)
    requires WorkersFaithful(bus, w) && RunsIssued(w) && Enabled(bus, w, s)
    ensures RunsIssued(Apply(bus, w, s))
  {}

  lemma LoggedStepKeepsJustified(bus: Bus, w: World, s: Step)
    requires WorkersFaithful(bus, w) && ProcessedJustified(bus, w) && Enabled(bus, w, s)
    requires !s.Commit? && |Apply(bus, w, s).log| == |w.log| + 1
    ensures ProcessedJustified(bus, Apply(bus, w, s))
  {
    var w' := Apply(bus, w, s);
    var e := w'.log[|w.log|];
    Appended(w.log, e);
    forall id | id in w'.rows && w'.rows[id].status == Processed
      ensures CompletedAfterDispatch(bus, w'.log, id, w'.rows[id].event)
    {
      if w.rows[id].status == Processed {
        CompletionSurvives(bus, w.log, e, id, w.rows[id].event);
      } else {
        assert CompletedBy(w'.log, |w.log|, id);
      }
    }
  }

  lemma StepKeepsJustified(bus: Bus, w: World, s: Step)
    requires DraftsFresh(w) && WorkersFaithful(bus, w) && ProcessedJustified(bus, w) && Enabled(bus, w, s)
    ensures ProcessedJustified(bus, Apply(bus, w, s))
  {
    if s.Commit? {
      InsertRowsAddsExactly(w.rows, w.open[s.tx]);
    } else if |Apply(bus, w, s).log| == |w.log| + 1 {
      LoggedStepKeepsJustified(bus, w, s);
    }
  }

  lemma StepKeepsQueue(bus: Bus, w: World, s: Step)
    requires QueueJustified(w) && Enabled(bus, w, s)
    ensures QueueJustified(Apply(bus, w, s))
  {
    var w' := Apply(bus, w, s);
    if |w'.log| == |w.log| + 1 {
      forall id | EverClaimed(w.log, id) ensures EverClaimed(w'.log, id) {
        ClaimSurvives(w.log, w'.log[|w.log|], id);
      }
      if s.ClaimBatch? {
        assert w'.log[|w.log|] == Claimed(ToSet(s.claimed), w.now);
      }
    }
  }

  lemma StepKeepsInvariant(bus: Bus, w: World, s: Step)
    requires Inv(bus, w) && Enabled(bus, w, s)
    ensures Inv(bus, Apply(bus, w, s))
  {
    StepKeepsRows(bus, w, s);
    StepKeepsDrafts(bus, w, s);
    StepKeepsAccounts(bus, w, s);
    StepKeepsHistory(bus, w, s);
    StepKeepsSettled(bus, w, s);
    StepKeepsWorkers(bus, w, s);
    StepKeepsRuns(bus, w, s);
    StepKeepsJustified(bus, w, s);
    StepKeepsQueue(bus, w, s);
  }

  // ---------------------------------------------------------------------------------------------
  // Runs
  // ---------------------------------------------------------------------------------------------

  predicate Feasible(bus: Bus, w: World, steps: seq<Step>)
    decreases |steps|
  {
    steps == [] || (Enabled(bus, w, steps[0]) && Feasible(bus, Apply(bus, w, steps[0]), steps[1..]))
  }

  function Exec(bus: Bus, w: World, steps: seq<Step>): World
    requires Feasible(bus, w, steps)
    decreases |steps|
  {
    if steps == [] then w else Exec(bus, Apply(bus, w, steps[0]), steps[1..])
  }

  lemma {:induction false} RunKeepsInvariant(bus: Bus, w: World, steps: seq<Step>)
    requires Inv(bus, w) && Feasible(bus, w, steps)
    ensures Inv(bus, Exec(bus, w, steps))
    decreases |steps|
  {
    if steps != [] {
      StepKeepsInvariant(bus, w, steps[0]);
      RunKeepsInvariant(bus, Apply(bus, w, steps[0]), steps[1..]);
    }
  }

  /** In every run: what the final table says about a row, and what the log must then contain. */
  lemma OutboxSafety(bus: Bus, steps: seq<Step>, id: RowId)
    requires Feasible(bus, Start, steps) && id in Exec(bus, Start, steps).rows
    ensures
      var w := Exec(bus, Start, steps);
      var row := w.rows[id];
      && Balance(w.log, id) == (if row.status == Pending then 0 else 1)
      && Settled(w.log, id) == (if row.status == Processed || row.status == Failed then 1 else 0)
      && row.attemptCount == (if row.status == Failed then 1 else 0)
      && (row.processedAt.Some? <==> row.status == Processed)
      && (row.status == Processed ==> CompletedAfterDispatch(bus, w.log, id, row.event))
  {
    RunKeepsInvariant(bus, Start, steps);
  }

  /** From any reachable state on, no row disappears, changes its event, or leaves a terminal status. */
  lemma {:induction false} RowsNeverLost(bus: Bus, w: World, steps: seq<Step>)
    requires Inv(bus, w) && Feasible(bus, w, steps)
    ensures RowsKept(w.rows, Exec(bus, w, steps).rows)
    decreases |steps|
  {
    if steps != [] {
      StepKeepsEvents(bus, w, steps[0]);
      StepKeepsInvariant(bus, w, steps[0]);
      RowsNeverLost(bus, Apply(bus, w, steps[0]), steps[1..]);
    }
  }

  /** A worker's outcome statement changes the table exactly when it finds the row still `Processing`. */
  lemma OutcomeNeedsProcessing(bus: Bus, w: World, s: Step)
    requires Enabled(bus, w, s) && (s.Complete? || (s.Catch? && w.workers[s.worker].lastAttempt))
    ensures Apply(bus, w, s).rows != w.rows <==> IsProcessing(w.rows, w.workers[s.worker].id)
    ensures IsPending(w.rows, w.workers[s.worker].id) ==> Apply(bus, w, s).rows == w.rows && Apply(bus, w, s).log == w.log
  {}

  lemma {:induction false} DropNeedsReclaim(log: seq<Entry>, a: nat, b: nat, id: RowId) returns (k: nat)
    requires a <= b <= |log| && Balance(log[..a], id) > Balance(log[..b], id)
    ensures a <= k < b && log[k].Reclaimed? && id in log[k].ids
  {
    assert log[..b][..b - 1] == log[..b - 1];
    if log[b - 1].Reclaimed? && id in log[b - 1].ids {
      k := b - 1;
    } else {
      k := DropNeedsReclaim(log, a, b - 1, id);
    }
  }

  /** In every run, two claims of one row have a reclaim of that row between them. */
  lemma ReclaimBetweenClaims(bus: Bus, steps: seq<Step>, i: nat, j: nat, id: RowId)
    requires Feasible(bus, Start, steps)
    requires i < j < |Exec(bus, Start, steps).log|
    requires Exec(bus, Start, steps).log[i].Claimed? && id in Exec(bus, Start, steps).log[i].ids
    requires Exec(bus, Start, steps).log[j].Claimed? && id in Exec(bus, Start, steps).log[j].ids
    ensures
      var log := Exec(bus, Start, steps).log;
      exists k :: i < k < j && log[k].Reclaimed? && id in log[k].ids
  {
    var log := Exec(bus, Start, steps).log;
    RunKeepsInvariant(bus, Start, steps);
    assert log[..i + 1][..i] == log[..i] && log[..j + 1][..j] == log[..j];
    assert Balance(log[..i + 1], id) == Balance(log[..i], id) + 1;
    assert Balance(log[..j + 1], id) == Balance(log[..j], id) + 1;
    var k := DropNeedsReclaim(log, i + 1, j, id);
  }

  /** Publishing is transactional: only a commit adds rows, and it adds exactly the drafts of its transaction. */
  lemma OnlyCommitInserts(bus: Bus, w: World, s: Step)
    requires DraftsFresh(w) && Enabled(bus, w, s)
    ensures
      var rows' := Apply(bus, w, s).rows;
      if s.Commit?
      then
        && rows'.Keys == w.rows.Keys + DraftIds(w.open[s.tx])
        && w.rows.Keys !! DraftIds(w.open[s.tx])
        && forall d :: d in w.open[s.tx] ==> rows'[d.id] == Row(d.event, Pending, d.createdAt, d.createdAt, None, 0)
      else rows'.Keys == w.rows.Keys
  {
    if s.Commit? {
      InsertRowsAddsExactly(w.rows, w.open[s.tx]);
    }
  }

  /** An event of a transaction that was rolled back never becomes a row, in any later run. */
  ghost predicate Abandoned(w: World, id: RowId) {
    id in w.issued && id !in w.rows && forall tx :: tx in w.open ==> id !in DraftIds(w.open[tx])
  }

  lemma StepKeepsAbandoned(bus: Bus, w: World, s: Step, id: RowId)
    requires DraftsFresh(w) && Abandoned(w, id) && Enabled(bus, w, s)
    ensures Abandoned(Apply(bus, w, s), id)
  {
    OnlyCommitInserts(bus, w, s);
    if s.Publish? {
      var before := if s.tx in w.open then w.open[s.tx] else [];
      assert DraftIds(s.drafts) !! w.issued;
      DraftsJoin(before, s.drafts);
    }
  }

  lemma RollbackAbandons(bus: Bus, w: World, tx: TxId, d: Draft)
    requires DraftsFresh(w) && tx in w.open && d in w.open[tx]
    ensures Abandoned(Apply(bus, w, Rollback(tx)), d.id)
  {
    assert d.id in DraftIds(w.open[tx]);
  }

  lemma {:induction false} AbandonedNeverAppears(bus: Bus, w: World, steps: seq<Step>, id: RowId)
    requires Inv(bus, w) && Abandoned(w, id) && Feasible(bus, w, steps)
    ensures Abandoned(Exec(bus, w, steps), id)
    decreases |steps|
  {
    if steps != [] {
      var s := steps[0];
      StepKeepsAbandoned(bus, w, s, id);
      StepKeepsInvariant(bus, w, s);
      AbandonedNeverAppears(bus, Apply(bus, w, s), steps[1..], id);
    }
  }

  // ---------------------------------------------------------------------------------------------
  // Times and attempts
  // ---------------------------------------------------------------------------------------------

  /** When a statement last changed the row. */
  function LastTouch(log: seq<Entry>, id: RowId): Option<int> {
    if log == [] then None
    else
      var earlier := LastTouch(log[..|log| - 1], id);
      match log[|log| - 1]
      case Claimed(ids, at) => if id in ids then Some(at) else earlier
      case Reclaimed(ids, at, _) => if id in ids then Some(at) else earlier
      case Completed(i, _, at) => if i == id then Some(at) else earlier
      case GaveUp(i, _, at) => if i == id then Some(at) else earlier
      case _ => earlier
  }

  /** Every row carries the time of the statement that changed it last. */
  ghost predicate Stamped(w: World) {
    && (forall id :: LastTouch(w.log, id).Some? ==> id in w.rows)
    && forall id :: id in w.rows ==>
         w.rows[id].updatedAt == (match LastTouch(w.log, id) case None => w.rows[id].createdAt case Some(at) => at)
  }

  /** And those times are in order. */
  ghost predicate TimesOrdered(w: World) {
    && (forall tx, d :: tx in w.open && d in w.open[tx] ==> d.createdAt <= w.now)
    && forall id :: id in w.rows ==>
         var row := w.rows[id];
         row.createdAt <= row.updatedAt <= w.now && (row.status == Processed ==> row.processedAt == Some(row.updatedAt))
  }

  /** No row's last change is before one of its claims, and no claim was reclaimed before its time. */
  ghost predicate ClaimsRespected(w: World) {
    && (forall n, id :: 0 <= n < |w.log| && w.log[n].Claimed? && id in w.log[n].ids ==>
          id in w.rows && w.log[n].at <= w.rows[id].updatedAt)
    && forall m, n, id :: 0 <= m < n < |w.log| && w.log[m].Claimed? && id in w.log[m].ids && w.log[n].Reclaimed? && id in w.log[n].ids ==>
         w.log[m].at < w.log[n].olderThan
  }

  predicate IsDelivery(log: seq<Entry>, n: nat, id: RowId, run: nat) {
    n < |log| && log[n].Delivered? && log[n].id == id && log[n].run == run
  }

  /** The busy worker goes back to a delivery of its row, and knows whether that was the last attempt. */
  ghost predicate KnowsItsAttempt(log: seq<Entry>, busy: Worker) {
    exists n: nat :: IsDelivery(log, n, busy.id, busy.run) && (busy.lastAttempt <==> log[n].attemptsMade + 1 >= log[n].maxAttempts)
  }

  ghost predicate GaveUpLast(log: seq<Entry>, e: Entry)
    requires e.GaveUp?
  {
    exists n: nat :: IsDelivery(log, n, e.id, e.run) && log[n].attemptsMade + 1 >= log[n].maxAttempts
  }

  ghost predicate AttemptsKnown(w: World) {
    && (forall k :: k in w.workers ==> KnowsItsAttempt(w.log, w.workers[k]))
    && forall n :: 0 <= n < |w.log| && w.log[n].GaveUp? ==> GaveUpLast(w.log, w.log[n])
  }

  /** A delivery starts only while its row is claimed and has no outcome. */
  ghost predicate DeliveriesJustified(log: seq<Entry>) {
    forall n :: 0 <= n < |log| && log[n].Delivered? ==> Balance(log[..n], log[n].id) == 1 && Settled(log[..n], log[n].id) == 0
  }

  ghost predicate Timed(w: World) {
    Stamped(w) && TimesOrdered(w) && ClaimsRespected(w) && AttemptsKnown(w) && DeliveriesJustified(w.log)
  }

  lemma StepKeepsDeliveries(bus: Bus, w: World, s: Step)
    requires Accounted(w) && SettledOnce(w) && DeliveriesJustified(w.log) && Enabled(bus, w, s)
    ensures DeliveriesJustified(Apply(bus, w, s).log)
  {
    var w' := Apply(bus, w, s);
    forall n | 0 <= n < |w'.log| && w'.log[n].Delivered?
      ensures Balance(w'.log[..n], w'.log[n].id) == 1 && Settled(w'.log[..n], w'.log[n].id) == 0
    {
      if n < |w.log| {
        assert w'.log[..n] == w.log[..n];
      } else {
        assert w'.log[..n] == w.log;
      }
    }
  }

  lemma StepKeepsOrder(bus: Bus, w: World, s: Step)
    requires DraftsFresh(w) && TimesOrdered(w) && Enabled(bus, w, s)
    ensures TimesOrdered(Apply(bus, w, s))
  {
    if s.Commit? {
      InsertRowsAddsExactly(w.rows, w.open[s.tx]);
    }
  }

  lemma OutcomeKeepsStamps(bus: Bus, w: World, s: Step)
    requires (s.Complete? || s.Catch?) && Stamped(w) && Enabled(bus, w, s)
    ensures Stamped(Apply(bus, w, s))
  {
    var w' := Apply(bus, w, s);
    if |w'.log| == |w.log| + 1 {
      Appended(w.log, w'.log[|w.log|]);
    }
  }

  lemma StepKeepsStamps(bus: Bus, w: World, s: Step)
    requires DraftsFresh(w) && Stamped(w) && Enabled(bus, w, s)
    ensures Stamped(Apply(bus, w, s))
  {
    var w' := Apply(bus, w, s);
    if s.Complete? || s.Catch? {
      OutcomeKeepsStamps(bus, w, s);
    } else if s.Commit? {
      InsertRowsAddsExactly(w.rows, w.open[s.tx]);
    } else if |w'.log| == |w.log| + 1 {
      Appended(w.log, w'.log[|w.log|]);
    }
  }

  /** Rows stay, and the time of their last change does not go back. */
  ghost predicate RowsAge(rows: Table, rows': Table) {
    forall id :: id in rows ==> id in rows' && rows[id].updatedAt <= rows'[id].updatedAt
  }

  lemma StepAgesRows(bus: Bus, w: World, s: Step)
    requires DraftsFresh(w) && TimesOrdered(w) && Enabled(bus, w, s)
    ensures RowsAge(w.rows, Apply(bus, w, s).rows)
  {
    if s.Commit? {
      InsertRowsAddsExactly(w.rows, w.open[s.tx]);
    }
  }

  lemma ClaimKeepsClaims(bus: Bus, w: World, s: Step)
    requires s.ClaimBatch? && ClaimsRespected(w) && Enabled(bus, w, s) && RowsAge(w.rows, Apply(bus, w, s).rows)
    ensures ClaimsRespected(Apply(bus, w, s))
  {
    Appended(w.log, Claimed(ToSet(s.claimed), w.now));
  }

  lemma ReclaimKeepsClaims(bus: Bus, w: World, s: Step)
    requires s.Reclaim? && ClaimsRespected(w) && Enabled(bus, w, s) && RowsAge(w.rows, Apply(bus, w, s).rows)
    ensures ClaimsRespected(Apply(bus, w, s))
  {
    var e := Reclaimed(s.stale, w.now, s.olderThan);
    forall m, id | 0 <= m < |w.log| && w.log[m].Claimed? && id in w.log[m].ids && id in s.stale ensures w.log[m].at < s.olderThan {
      assert IsStale(w.rows, id, s.olderThan);
    }
  }

  lemma OthersKeepClaims(w: World, w': World)
    requires ClaimsRespected(w) && RowsAge(w.rows, w'.rows)
    requires w'.log == w.log || (|w'.log| == |w.log| + 1 && w'.log[..|w.log|] == w.log && !w'.log[|w.log|].Claimed? && !w'.log[|w.log|].Reclaimed?)
    ensures ClaimsRespected(w')
  {
    assert forall n :: 0 <= n < |w.log| ==> w'.log[n] == w.log[n];
  }

  lemma StepKeepsClaims(bus: Bus, w: World, s: Step)
    requires DraftsFresh(w) && TimesOrdered(w) && ClaimsRespected(w) && Enabled(bus, w, s)
    ensures ClaimsRespected(Apply(bus, w, s))
  {
    StepAgesRows(bus, w, s);
    if s.ClaimBatch? {
      ClaimKeepsClaims(bus, w, s);
    } else if s.Reclaim? {
      ReclaimKeepsClaims(bus, w, s);
    } else {
      OthersKeepClaims(w, Apply(bus, w, s));
    }
  }

  lemma StepKeepsAttempts(bus: Bus, w: World, s: Step)
    requires AttemptsKnown(w) && Enabled(bus, w, s)
    ensures AttemptsKnown(Apply(bus, w, s))
  {
    WorkersKnow(bus, w, s);
    GivingUpIsKnown(bus, w, s);
  }

  lemma WorkersKnow(bus: Bus, w: World, s: Step)
    requires AttemptsKnown(w) && Enabled(bus, w, s)
    ensures forall k :: k in Apply(bus, w, s).workers ==> KnowsItsAttempt(Apply(bus, w, s).log, Apply(bus, w, s).workers[k])
  {
    var w' := Apply(bus, w, s);
    forall k | k in w.workers ensures KnowsItsAttempt(w'.log, w.workers[k]) {
      KnowledgeSurvives(w.log, w'.log, w.workers[k]);
    }
    if s.Deliver? && |w'.log| == |w.log| + 1 {
      assert IsDelivery(w'.log, |w.log|, s.id, w.nextRun);
    }
  }

  lemma GivingUpIsKnown(bus: Bus, w: World, s: Step)
    requires AttemptsKnown(w) && Enabled(bus, w, s)
    ensures forall n :: 0 <= n < |Apply(bus, w, s).log| && Apply(bus, w, s).log[n].GaveUp? ==> GaveUpLast(Apply(bus, w, s).log, Apply(bus, w, s).log[n])
  {
    var w' := Apply(bus, w, s);
    forall n | 0 <= n < |w.log| && w.log[n].GaveUp? ensures GaveUpLast(w'.log, w.log[n]) {
      var m: nat :| IsDelivery(w.log, m, w.log[n].id, w.log[n].run) && w.log[m].attemptsMade + 1 >= w.log[m].maxAttempts;
      assert IsDelivery(w'.log, m, w.log[n].id, w.log[n].run);
    }
    if s.Catch? {
      KnowledgeSurvives(w.log, w'.log, w.workers[s.worker]);
    }
  }

  lemma KnowledgeSurvives(log: seq<Entry>, log': seq<Entry>, busy: Worker)
    requires KnowsItsAttempt(log, busy) && log <= log'
    ensures KnowsItsAttempt(log', busy)
  {
    var n: nat :| IsDelivery(log, n, busy.id, busy.run) && (busy.lastAttempt <==> log[n].attemptsMade + 1 >= log[n].maxAttempts);
    assert IsDelivery(log', n, busy.id, busy.run);
  }

  lemma StepKeepsTimes(bus: Bus, w: World, s: Step)
    requires DraftsFresh(w) && Accounted(w) && SettledOnce(w) && Timed(w) && Enabled(bus, w, s)
    ensures Timed(Apply(bus, w, s))
  {
    StepKeepsDeliveries(bus, w, s);
    StepKeepsStamps(bus, w, s);
    StepKeepsOrder(bus, w, s);
    StepKeepsClaims(bus, w, s);
    StepKeepsAttempts(bus, w, s);
  }

  lemma {:induction false} RunKeepsTimes(bus: Bus, w: World, steps: seq<Step>)
    requires Inv(bus, w) && Timed(w) && Feasible(bus, w, steps)
    ensures Timed(Exec(bus, w, steps))
    decreases |steps|
  {
    if steps != [] {
      StepKeepsTimes(bus, w, steps[0]);
      StepKeepsInvariant(bus, w, steps[0]);
      RunKeepsTimes(bus, Apply(bus, w, steps[0]), steps[1..]);
    }
  }

  /**
   * In every run: a row carries the times of its draft and of the statement that changed it last, in that order, and a
   * processed one that time as the time of processing.
   */
  lemma RowsTellTheirTimes(bus: Bus, steps: seq<Step>, id: RowId)
    requires Feasible(bus, Start, steps) && id in Exec(bus, Start, steps).rows
    ensures
      var w := Exec(bus, Start, steps);
      var row := w.rows[id];
      && row.createdAt <= row.updatedAt <= w.now
      && row.updatedAt == (match LastTouch(w.log, id) case None => row.createdAt case Some(at) => at)
      && row.processedAt == (if row.status == Processed then LastTouch(w.log, id) else None)
  {
    RunKeepsInvariant(bus, Start, steps);
    RunKeepsTimes(bus, Start, steps);
    var w := Exec(bus, Start, steps);
    assert Settled(w.log, id) == if IsSettled(w.rows[id]) then 1 else 0;
    SettledIsTouched(w.log, id);
  }

  lemma {:induction false} SettledIsTouched(log: seq<Entry>, id: RowId)
    ensures Settled(log, id) > 0 ==> LastTouch(log, id).Some?
  {
    if log != [] {
      SettledIsTouched(log[..|log| - 1], id);
    }
  }

  /** In every run: a row is reclaimed only after the cut-off has passed its claim, so a claim keeps its row for that long. */
  lemma ClaimLastsItsTime(bus: Bus, steps: seq<Step>, m: nat, n: nat, id: RowId, patience: int)
    requires Feasible(bus, Start, steps) && m < n < |Exec(bus, Start, steps).log|
    requires
      var log := Exec(bus, Start, steps).log;
      && log[m].Claimed? && id in log[m].ids && log[n].Reclaimed? && id in log[n].ids
      && log[n].olderThan == log[n].at - patience
    ensures Exec(bus, Start, steps).log[n].at - Exec(bus, Start, steps).log[m].at > patience
  {
    RunKeepsInvariant(bus, Start, steps);
    RunKeepsTimes(bus, Start, steps);
  }

  /** In every run: nothing is dispatched for a row that is not claimed at that moment, or that has had its outcome. */
  lemma DeliveredWhileClaimed(bus: Bus, steps: seq<Step>, n: nat)
    requires Feasible(bus, Start, steps) && n < |Exec(bus, Start, steps).log| && Exec(bus, Start, steps).log[n].Delivered?
    ensures
      var log := Exec(bus, Start, steps).log;
      Balance(log[..n], log[n].id) == 1 && Settled(log[..n], log[n].id) == 0
  {
    RunKeepsInvariant(bus, Start, steps);
    RunKeepsTimes(bus, Start, steps);
  }

  /** In every run: a delivery gives its row up only if it was the last attempt that the queue allowed. */
  lemma GivesUpOnLastAttempt(bus: Bus, steps: seq<Step>, n: nat)
    requires Feasible(bus, Start, steps) && n < |Exec(bus, Start, steps).log| && Exec(bus, Start, steps).log[n].GaveUp?
    ensures
      var log := Exec(bus, Start, steps).log;
      exists m: nat :: IsDelivery(log, m, log[n].id, log[n].run) && log[m].attemptsMade + 1 >= log[m].maxAttempts
  {
    RunKeepsInvariant(bus, Start, steps);
    RunKeepsTimes(bus, Start, steps);
    assert GaveUpLast(Exec(bus, Start, steps).log, Exec(bus, Start, steps).log[n]);
  }

  /** Right after a claim none of its rows is stale, for whatever cut-off up to the present. */
  lemma ClaimIsNotStale(bus: Bus, w: World, s: Step, id: RowId, olderThan: int)
    requires s.ClaimBatch? && Enabled(bus, w, s) && id in s.claimed && olderThan <= w.now
    ensures
      var rows := Apply(bus, w, s).rows;
      id in rows && rows[id].status == Processing && !(rows[id].updatedAt < olderThan)
    ensures forall n, limit, stale :: n <= w.now && id in stale ==> !Enabled(bus, Apply(bus, w, s), Step.Reclaim(n, limit, stale))
  {}

  /** A handler's exception on the last attempt fails the row for good; before that it leaves the table as it is. */
  lemma CatchOutcome(bus: Bus, w: World, s: Step, n: nat)
    requires AttemptsKnown(w) && s.Catch? && Enabled(bus, w, s)
    requires w.workers[s.worker].id in w.rows && w.rows[w.workers[s.worker].id].status == Processing
    requires IsDelivery(w.log, n, w.workers[s.worker].id, w.workers[s.worker].run)
    requires forall m: nat :: IsDelivery(w.log, m, w.workers[s.worker].id, w.workers[s.worker].run) ==> m == n
    ensures
      var id := w.workers[s.worker].id;
      var row := w.rows[id];
      Apply(bus, w, s).rows ==
      if w.log[n].attemptsMade + 1 >= w.log[n].maxAttempts
      then w.rows[id := row.(status := Failed, updatedAt := w.now, attemptCount := row.attemptCount + 1)]
      else w.rows
  {
    assert KnowsItsAttempt(w.log, w.workers[s.worker]);
  }

  /** A completion whose acknowledgement is lost ends in the catch block; even on the last attempt the row stays processed. */
  lemma LostAcknowledgement(bus: Bus, w: World, s: Step)
    requires s.Complete? && !s.acknowledged && Enabled(bus, w, s) && IsProcessing(w.rows, w.workers[s.worker].id)
    ensures
      var w1, id := Apply(bus, w, s), w.workers[s.worker].id;
      && Enabled(bus, w1, Catch(s.worker))
      && Apply(bus, w1, Catch(s.worker)).rows == w1.rows
      && w1.rows == w.rows[id := w.rows[id].(status := Processed, updatedAt := w.now, processedAt := Some(w.now))]
  {}
}
