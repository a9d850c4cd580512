/**
 * Idempotency keys: the claim, the handler's writes and the stored response share one transaction.
 * Transactions run concurrently; a claim waits for another open claim of the same key on the unique
 * index `(scope, endpoint, key)` or gives up after the lock timeout.
 */
module Idempotency {
  import opened Wrappers

  type TxId = nat
  type Payload = nat
  type Fingerprint = string

  datatype Key = Key(scope: string, endpoint: string, key: string)

  /** What a handler returns; only JSON can be stored. */
  datatype Body = Undefined | Json(text: string)

  datatype Response = Response(statusCode: int, json: string)

  datatype RecordStatus = Processing | Completed

  /** `owner` is the transaction that inserted the row. */
  datatype KeyRow = KeyRow(fingerprint: Fingerprint, status: RecordStatus, response: Option<Response>, owner: TxId)

  datatype ClaimKind =
    | Acquired
    | InFlight
    | FingerprintMismatch
    | Replay(response: Response)

  /** `input.body ?? null` */
  function StoredBody(body: Body): string {
    match body
    case Undefined => "null"
    case Json(text) => text
  }

  /** The decision on a row that the insert collided with. */
  function ExistingClaim(found: Option<KeyRow>, fingerprint: Fingerprint): ClaimKind {
    match found
    case None => InFlight
    case Some(row) =>
      if row.fingerprint != fingerprint then FingerprintMismatch
      else if row.status == Processing then InFlight
      else if row.response == None then InFlight
      else Replay(row.response.value)
  }

  // ---------------------------------------------------------------------------------------------
  // The step system
  // ---------------------------------------------------------------------------------------------

  datatype Effect = Effect(key: Key, tx: TxId, payload: Payload)

  /** An open request transaction: its own uncommitted key row and the handler's uncommitted writes. */
  datatype Tx = Tx(key: Key, fingerprint: Fingerprint, row: Option<KeyRow>, writes: seq<Effect>)

  datatype Entry =
    | Claimed(tx: TxId, key: Key, fingerprint: Fingerprint)
    | Refused(tx: TxId, key: Key, kind: ClaimKind)
    | Finished(tx: TxId, key: Key, statusCode: int, body: Body)
    | Answered(tx: TxId, key: Key, fingerprint: Fingerprint, response: Response)

  datatype World = World(
    rows: map<Key, KeyRow>,
    effects: seq<Effect>,
    open: map<TxId, Tx>,
    used: set<TxId>,
    log: seq<Entry>)

  datatype Step =
    | Begin(tx: TxId, key: Key, fingerprint: Fingerprint)
    | Claim(tx: TxId)
    | LockTimeout(tx: TxId)
    | Write(tx: TxId, payload: Payload)
    | Finish(tx: TxId, statusCode: int, body: Body)
    | Commit(tx: TxId)
    | Abort(tx: TxId)

  const Start: World := World(map[], [], map[], {}, [])

  /** Another open transaction has an uncommitted row for the same unique key. */
  predicate Blocked(w: World, tx: TxId)
    requires tx in w.open
  {
    exists other :: other in w.open && other != tx && w.open[other].key == w.open[tx].key && w.open[other].row.Some?
  }

  predicate IsRunning(t: Tx) {
    t.row.Some? && t.row.value.status == Processing
  }

  predicate IsAnswered(t: Tx) {
    t.row.Some? && t.row.value.response.Some?
  }

  predicate Enabled(w: World, s: Step) {
    match s
    case Begin(tx, _, _) => tx !in w.used
    case Claim(tx) => tx in w.open && w.open[tx].row == None && !Blocked(w, tx)
    case LockTimeout(tx) => tx in w.open && w.open[tx].row == None && Blocked(w, tx)
    case Write(tx, _) => tx in w.open && IsRunning(w.open[tx])
    case Finish(tx, _, _) => tx in w.open && IsRunning(w.open[tx])
    case Commit(tx) => tx in w.open && IsAnswered(w.open[tx])
    case Abort(tx) => tx in w.open
  }

  /** A refused or replayed request writes nothing, so ending its transaction either way is the same. */
  function Apply(w: World, s: Step): World
    requires Enabled(w, s)
  {
    match s
    case Begin(tx, key, fingerprint) =>
      w.(open := w.open[tx := Tx(key, fingerprint, None, [])], used := w.used + {tx})
    case Claim(tx) =>
      var t := w.open[tx];
      if t.key !in w.rows then
        w.(open := w.open[tx := t.(row := Some(KeyRow(t.fingerprint, Processing, None, tx)))],
           log := w.log + [Claimed(tx, t.key, t.fingerprint)])
      else
        var kind := ExistingClaim(Some(w.rows[t.key]), t.fingerprint);
        w.(open := w.open - {tx},
           log := w.log + [if kind.Replay? then Answered(tx, t.key, t.fingerprint, kind.response) else Refused(tx, t.key, kind)])
    case LockTimeout(tx) =>
      w.(open := w.open - {tx}, log := w.log + [Refused(tx, w.open[tx].key, InFlight)])
    case Write(tx, payload) =>
      var t := w.open[tx];
      w.(open := w.open[tx := t.(writes := t.writes + [Effect(t.key, tx, payload)])])
    case Finish(tx, statusCode, body) =>
      var t := w.open[tx];
      w.(open := w.open[tx := t.(row := Some(t.row.value.(status := Completed, response := Some(Response(statusCode, StoredBody(body))))))],
         log := w.log + [Finished(tx, t.key, statusCode, body)])
    case Commit(tx) =>
      var t := w.open[tx];
      w.(rows := w.rows[t.key := t.row.value], effects := w.effects + t.writes, open := w.open - {tx},
         log := w.log + [Answered(tx, t.key, t.fingerprint, t.row.value.response.value)])
    case Abort(tx) => w.(open := w.open - {tx})
  }

  // ---------------------------------------------------------------------------------------------
  // The invariant
  // ---------------------------------------------------------------------------------------------

  /** The committed writes made under one key, in order. */
  function Under(effects: seq<Effect>, key: Key): seq<Effect> {
    if effects == [] then []
    else
      var last := effects[|effects| - 1];
      Under(effects[..|effects| - 1], key) + if last.key == key then [last] else []
  }

  predicate RowsAnswered(w: World) {
    forall k :: k in w.rows ==> w.rows[k].status == Completed && w.rows[k].response.Some? && w.rows[k].owner in w.used
  }

  predicate EffectsOwned(w: World) {
    forall i :: 0 <= i < |w.effects| ==> w.effects[i].key in w.rows && w.effects[i].tx == w.rows[w.effects[i].key].owner
  }

  predicate TxConsistent(tx: TxId, t: Tx) {
    && (forall i :: 0 <= i < |t.writes| ==> t.writes[i].key == t.key && t.writes[i].tx == tx)
    && (t.row == None ==> t.writes == [])
    && (t.row.Some? ==> t.row.value.fingerprint == t.fingerprint && t.row.value.owner == tx)
    && (t.row.Some? ==> (t.row.value.status == Completed <==> t.row.value.response.Some?))
  }

  predicate OpenConsistent(w: World) {
    forall tx :: tx in w.open ==> tx in w.used && TxConsistent(tx, w.open[tx])
  }

  predicate HoldersUncommitted(w: World) {
    forall tx :: tx in w.open && w.open[tx].row.Some? ==> w.open[tx].key !in w.rows
  }

  predicate HoldersApart(w: World) {
    forall t, u :: t in w.open && u in w.open && t != u && w.open[t].row.Some? && w.open[u].row.Some? ==>
      w.open[t].key != w.open[u].key
  }

  predicate OneHolder(w: World) {
    OpenConsistent(w) && HoldersUncommitted(w) && HoldersApart(w)
  }

  predicate AnswersStored(w: World) {
    forall i :: 0 <= i < |w.log| && w.log[i].Answered? ==>
      && w.log[i].key in w.rows
      && w.rows[w.log[i].key].response == Some(w.log[i].response)
      && w.rows[w.log[i].key].fingerprint == w.log[i].fingerprint
  }

  predicate Inv(w: World) {
    RowsAnswered(w) && EffectsOwned(w) && OneHolder(w) && AnswersStored(w)
  }

  lemma StepKeepsRows(w: World, s: Step)
    requires RowsAnswered(w) && OneHolder(w) && Enabled(w, s)
    ensures RowsAnswered(Apply(w, s))
  {}

  lemma StepKeepsEffects(w: World, s: Step)
    requires EffectsOwned(w) && OneHolder(w) && Enabled(w, s)
    ensures EffectsOwned(Apply(w, s))
  {}

  lemma StepKeepsOpen(w: World, s: Step)
    requires OpenConsistent(w) && Enabled(w, s)
    ensures OpenConsistent(Apply(w, s))
  {}

  lemma StepKeepsUncommitted(w: World, s: Step)
    requires HoldersUncommitted(w) && HoldersApart(w) && Enabled(w, s)
    ensures HoldersUncommitted(Apply(w, s))
  {}

  lemma StepKeepsApart(w: World, s: Step)
    requires HoldersApart(w) && Enabled(w, s)
    ensures HoldersApart(Apply(w, s))
  {}

  lemma StepKeepsHolder(w: World, s: Step)
    requires OneHolder(w) && Enabled(w, s)
    ensures OneHolder(Apply(w, s))
  {
    StepKeepsOpen(w, s);
    StepKeepsUncommitted(w, s);
    StepKeepsApart(w, s);
  }

  lemma StepKeepsAnswers(w: World, s: Step)
    requires AnswersStored(w) && OneHolder(w) && RowsAnswered(w) && Enabled(w, s)
    ensures AnswersStored(Apply(w, s))
  {}

  lemma StepKeepsInvariant(w: World, s: Step)
    requires Inv(w) && Enabled(w, s)
    ensures Inv(Apply(w, s))
  {
    StepKeepsRows(w, s);
    StepKeepsEffects(w, s);
    StepKeepsHolder(w, s);
    StepKeepsAnswers(w, s);
  }

  // ---------------------------------------------------------------------------------------------
  // Runs
  // ---------------------------------------------------------------------------------------------

  predicate Feasible(w: World, steps: seq<Step>)
    decreases |steps|
  {
    steps == [] || (Enabled(w, steps[0]) && Feasible(Apply(w, steps[0]), steps[1..]))
  }

  function Exec(w: World, steps: seq<Step>): World
    requires Feasible(w, steps)
    decreases |steps|
  {
    if steps == [] then w else Exec(Apply(w, steps[0]), steps[1..])
  }

  lemma {:induction false} RunKeepsInvariant(w: World, steps: seq<Step>)
    requires Inv(w) && Feasible(w, steps)
    ensures Inv(Exec(w, steps))
    decreases |steps|
  {
    if steps != [] {
      StepKeepsInvariant(w, steps[0]);
      RunKeepsInvariant(Apply(w, steps[0]), steps[1..]);
    }
  }

  /** In every run, at most one transaction's writes are committed under a key: those of the one that owns its row. */
  lemma EffectsAtMostOnce(steps: seq<Step>, i: nat, j: nat)
    requires Feasible(Start, steps) && i < |Exec(Start, steps).effects| && j < |Exec(Start, steps).effects|
    requires Exec(Start, steps).effects[i].key == Exec(Start, steps).effects[j].key
    ensures Exec(Start, steps).effects[i].tx == Exec(Start, steps).effects[j].tx
    ensures
      var w := Exec(Start, steps);
      var key := w.effects[i].key;
      key in w.rows && w.rows[key].owner == w.effects[i].tx && w.rows[key].status == Completed && w.rows[key].response.Some?
  {
    RunKeepsInvariant(Start, steps);
  }

  /** In every run, all answers given for a key, first or replayed, are the stored one and had the same fingerprint. */
  lemma AnswersAgree(steps: seq<Step>, i: nat, j: nat)
    requires Feasible(Start, steps) && i < |Exec(Start, steps).log| && j < |Exec(Start, steps).log|
    requires Exec(Start, steps).log[i].Answered? && Exec(Start, steps).log[j].Answered?
    requires Exec(Start, steps).log[i].key == Exec(Start, steps).log[j].key
    ensures Exec(Start, steps).log[i].response == Exec(Start, steps).log[j].response
    ensures Exec(Start, steps).log[i].fingerprint == Exec(Start, steps).log[j].fingerprint
  {
    RunKeepsInvariant(Start, steps);
  }

  /** How often a handler was started under a key. */
  function Starts(log: seq<Entry>, key: Key): nat {
    if log == [] then 0
    else Starts(log[..|log| - 1], key) + if log[|log| - 1].Claimed? && log[|log| - 1].key == key then 1 else 0
  }

  lemma {:induction false} UnderJoins(a: seq<Effect>, b: seq<Effect>, key: Key)
    ensures Under(a + b, key) == Under(a, key) + Under(b, key)
  {
    if b == [] {
      assert a + b == a;
    } else {
      assert (a + b)[..|a + b| - 1] == a + b[..|b| - 1];
      UnderJoins(a, b[..|b| - 1], key);
    }
  }

  lemma {:induction false} UnderAllOrNothing(effects: seq<Effect>, key: Key)
    ensures (forall i :: 0 <= i < |effects| ==> effects[i].key == key) ==> Under(effects, key) == effects
    ensures (forall i :: 0 <= i < |effects| ==> effects[i].key != key) ==> Under(effects, key) == []
  {
    if effects != [] {
      UnderAllOrNothing(effects[..|effects| - 1], key);
    }
  }

  /** A commit publishes exactly its handler's writes, in order, under a key that had none. */
  lemma CommitPublishesHandler(w: World, tx: TxId)
    requires Inv(w) && Enabled(w, Commit(tx))
    ensures Under(w.effects, w.open[tx].key) == []
    ensures Under(Apply(w, Commit(tx)).effects, w.open[tx].key) == w.open[tx].writes
  {
    var t := w.open[tx];
    UnderAllOrNothing(w.effects, t.key);
    UnderJoins(w.effects, t.writes, t.key);
    UnderAllOrNothing(t.writes, t.key);
  }

  lemma StepFreezes(w: World, s: Step, key: Key)
    requires Inv(w) && Enabled(w, s) && key in w.rows
    ensures
      var w' := Apply(w, s);
      && key in w'.rows && w'.rows[key] == w.rows[key]
      && Under(w'.effects, key) == Under(w.effects, key)
      && Starts(w'.log, key) == Starts(w.log, key)
  {
    var w' := Apply(w, s);
    if |w'.log| == |w.log| + 1 {
      assert w'.log[..|w.log|] == w.log;
    }
    if s.Commit? {
      var t := w.open[s.tx];
      UnderJoins(w.effects, t.writes, key);
      UnderAllOrNothing(t.writes, key);
    }
  }

  /** Once a key is committed, its row and its effects never change and no handler ever starts under it again. */
  lemma {:induction false} CommittedKeyIsFrozen(w: World, steps: seq<Step>, key: Key)
    requires Inv(w) && Feasible(w, steps) && key in w.rows
    ensures
      var w' := Exec(w, steps);
      && key in w'.rows && w'.rows[key] == w.rows[key]
      && Under(w'.effects, key) == Under(w.effects, key)
      && Starts(w'.log, key) == Starts(w.log, key)
    decreases |steps|
  {
    if steps != [] {
      StepFreezes(w, steps[0], key);
      StepKeepsInvariant(w, steps[0]);
      CommittedKeyIsFrozen(Apply(w, steps[0]), steps[1..], key);
    }
  }

  /** A claim that meets a committed row is never in flight: it replays or reports the reused key, and writes nothing. */
  lemma ClaimOutcome(w: World, tx: TxId)
    requires Inv(w) && Enabled(w, Claim(tx)) && w.open[tx].key in w.rows
    ensures
      var t, row, w' := w.open[tx], w.rows[w.open[tx].key], Apply(w, Claim(tx));
      && w'.rows == w.rows && w'.effects == w.effects && tx !in w'.open
      && w'.log == w.log + [if row.fingerprint == t.fingerprint then Answered(tx, t.key, t.fingerprint, row.response.value)
                            else Refused(tx, t.key, FingerprintMismatch)]
  {}

  /**
   * In every run: a request is told that the first one is still in progress only while another transaction holds its key
   * uncommitted, and that the key was reused only when the key is stored with another fingerprint.
   */
  lemma RefusedBecause(steps: seq<Step>, s: Step, kind: ClaimKind)
    requires Feasible(Start, steps) && Enabled(Exec(Start, steps), s) && !s.Begin? && s.tx in Exec(Start, steps).open
    requires Apply(Exec(Start, steps), s).log == Exec(Start, steps).log + [Refused(s.tx, Exec(Start, steps).open[s.tx].key, kind)]
    ensures
      var w := Exec(Start, steps);
      var t := w.open[s.tx];
      if kind == InFlight
      then exists other :: other in w.open && other != s.tx && w.open[other].key == t.key && w.open[other].row.Some?
      else kind == FingerprintMismatch && t.key in w.rows && w.rows[t.key].fingerprint != t.fingerprint
  {
    RunKeepsInvariant(Start, steps);
    var w := Exec(Start, steps);
    assert Apply(w, s).log[|w.log|] == Refused(s.tx, w.open[s.tx].key, kind);
  }

  /** A duplicate that waits for the first request gets the first request's response once that commits. */
  lemma WaiterReplays(w: World, holder: TxId, waiter: TxId)
    requires Inv(w) && Enabled(w, Commit(holder))
    requires waiter in w.open && waiter != holder && w.open[waiter].row == None
    requires w.open[waiter].key == w.open[holder].key && w.open[waiter].fingerprint == w.open[holder].fingerprint
    ensures
      var w1 := Apply(w, Commit(holder));
      && Enabled(w1, Claim(waiter))
      && Apply(w1, Claim(waiter)).log == w1.log +
           [Answered(waiter, w.open[waiter].key, w.open[waiter].fingerprint, w.open[holder].row.value.response.value)]
  {}

  /** If the first request fails instead, its claim vanishes with it and the waiting duplicate may run the handler. */
  lemma AbortReleasesKey(w: World, holder: TxId, waiter: TxId)
    requires Inv(w) && holder in w.open && w.open[holder].row.Some?
    requires waiter in w.open && waiter != holder && w.open[waiter].row == None && w.open[waiter].key == w.open[holder].key
    ensures
      var w1 := Apply(w, Abort(holder));
      && Enabled(w1, Claim(waiter))
      && var w2 := Apply(w1, Claim(waiter));
      && w2.rows == w.rows && w2.effects == w.effects && waiter in w2.open && IsRunning(w2.open[waiter])
  {}

  // ---------------------------------------------------------------------------------------------
  // What the answers say
  // ---------------------------------------------------------------------------------------------

  /** The handler of `tx` returned what the response says: its status, and the text of its body, or `null` for none. */
  predicate IsFinish(log: seq<Entry>, n: nat, tx: TxId, key: Key, response: Response) {
    && n < |log| && log[n].Finished? && log[n].tx == tx && log[n].key == key
    && response.statusCode == log[n].statusCode
    && match log[n].body
       case Undefined => response.json == "null"
       case Json(text) => response.json == text
  }

  ghost predicate HasFinished(log: seq<Entry>, tx: TxId, key: Key, response: Response) {
    exists n: nat :: IsFinish(log, n, tx, key, response)
  }

  /** Every response, stored or still uncommitted, is what its own handler returned. */
  ghost predicate ResponsesReturned(w: World) {
    && (forall tx :: tx in w.open && w.open[tx].row.Some? && w.open[tx].row.value.response.Some? ==>
          HasFinished(w.log, tx, w.open[tx].key, w.open[tx].row.value.response.value))
    && forall k :: k in w.rows && w.rows[k].response.Some? ==> HasFinished(w.log, w.rows[k].owner, k, w.rows[k].response.value)
  }

  /** And every answer comes after its handler has returned. */
  ghost predicate AnswersReturned(w: World) {
    forall i :: 0 <= i < |w.log| && w.log[i].Answered? ==>
      w.log[i].key in w.rows && HasFinished(w.log[..i], w.rows[w.log[i].key].owner, w.log[i].key, w.log[i].response)
  }

  lemma FinishSurvives(log: seq<Entry>, log': seq<Entry>, tx: TxId, key: Key, response: Response)
    requires HasFinished(log, tx, key, response) && log <= log'
    ensures HasFinished(log', tx, key, response)
  {
    var n: nat :| IsFinish(log, n, tx, key, response);
    assert IsFinish(log', n, tx, key, response);
  }

  lemma StepKeepsResponses(w: World, s: Step)
    requires OpenConsistent(w) && ResponsesReturned(w) && Enabled(w, s)
    ensures ResponsesReturned(Apply(w, s))
  {
    var w' := Apply(w, s);
    forall tx | tx in w.open && w.open[tx].row.Some? && w.open[tx].row.value.response.Some?
      ensures HasFinished(w'.log, tx, w.open[tx].key, w.open[tx].row.value.response.value)
    {
      FinishSurvives(w.log, w'.log, tx, w.open[tx].key, w.open[tx].row.value.response.value);
    }
    forall k | k in w.rows && w.rows[k].response.Some? ensures HasFinished(w'.log, w.rows[k].owner, k, w.rows[k].response.value) {
      FinishSurvives(w.log, w'.log, w.rows[k].owner, k, w.rows[k].response.value);
    }
    if s.Finish? {
      assert IsFinish(w'.log, |w.log|, s.tx, w.open[s.tx].key, w'.open[s.tx].row.value.response.value);
    }
  }

  lemma StepKeepsReturned(w: World, s: Step)
    requires RowsAnswered(w) && OneHolder(w) && ResponsesReturned(w) && AnswersReturned(w) && Enabled(w, s)
    ensures AnswersReturned(Apply(w, s))
  {
    var w' := Apply(w, s);
    forall i | 0 <= i < |w'.log| && w'.log[i].Answered?
      ensures w'.log[i].key in w'.rows && HasFinished(w'.log[..i], w'.rows[w'.log[i].key].owner, w'.log[i].key, w'.log[i].response)
    {
      if i < |w.log| {
        assert w'.log[..i] == w.log[..i];
      } else {
        assert w'.log[..i] == w.log;
      }
    }
  }

  lemma {:induction false} RunKeepsReturned(w: World, steps: seq<Step>)
    requires Inv(w) && ResponsesReturned(w) && AnswersReturned(w) && Feasible(w, steps)
    ensures ResponsesReturned(Exec(w, steps)) && AnswersReturned(Exec(w, steps))
    decreases |steps|
  {
    if steps != [] {
      StepKeepsResponses(w, steps[0]);
      StepKeepsReturned(w, steps[0]);
      StepKeepsInvariant(w, steps[0]);
      RunKeepsReturned(Apply(w, steps[0]), steps[1..]);
    }
  }

  /**
   * In every run: whoever is answered for a key is answered with the status and the text that the handler of the one
   * transaction that owns the key had returned before.
   */
  lemma AnswersAreTheHandlers(steps: seq<Step>, i: nat)
    requires Feasible(Start, steps) && i < |Exec(Start, steps).log| && Exec(Start, steps).log[i].Answered?
    ensures
      var w := Exec(Start, steps);
      && w.log[i].key in w.rows
      && exists n: nat ::
           && n < i && w.log[n].Finished? && w.log[n].tx == w.rows[w.log[i].key].owner && w.log[n].key == w.log[i].key
           && w.log[i].response.statusCode == w.log[n].statusCode
           && w.log[i].response.json == match w.log[n].body case Undefined => "null" case Json(text) => text
  {
    RunKeepsReturned(Start, steps);
    var w := Exec(Start, steps);
    var n: nat :| IsFinish(w.log[..i], n, w.rows[w.log[i].key].owner, w.log[i].key, w.log[i].response);
    assert w.log[..i][n] == w.log[n];
  }
}
