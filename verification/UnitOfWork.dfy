/** Unit-of-work semantics: a nested `run` joins the ambient transaction, so one top-level `run` is one transaction. */
module UnitOfWork {
  import opened Wrappers

  /**
   * A piece of application code, as far as transactions are concerned: database writes, nested `run` calls whose
   * error is propagated or caught, and errors.
   */
  datatype Work<E> =
    | Done
    | Throw
    | Write(effect: E, rest: Work<E>)
    | Run(inner: Work<E>, rest: Work<E>)
    | TryRun(inner: Work<E>, rest: Work<E>)

  datatype Database<E> = Database(committed: seq<E>, ambient: Option<seq<E>>)

  /** Executes `work`; the flag is false when an error escapes. */
  function Execute<E>(work: Work<E>, db: Database<E>): (r: (Database<E>, bool))
    ensures r.0.ambient.Some? == db.ambient.Some?
    decreases work, 0
  {
    match work
    case Done => (db, true)
    case Throw => (db, false)
    case Write(effect, rest) =>
      Execute(rest,
              if db.ambient.Some? then db.(ambient := Some(db.ambient.value + [effect]))
              else db.(committed := db.committed + [effect]))
    case Run(inner, rest) =>
      var (after, ok) := RunNested(inner, db);
      if ok then Execute(rest, after) else (after, false)
    case TryRun(inner, rest) =>
      var (after, _) := RunNested(inner, db);
      Execute(rest, after)
  }

  /** `UnitOfWork.run`: join the ambient transaction, or open one and commit or roll it back. */
  function RunNested<E>(work: Work<E>, db: Database<E>): (r: (Database<E>, bool))
    ensures r.0.ambient.Some? == db.ambient.Some?
    decreases work, 1
  {
    if db.ambient.Some? then Execute(work, db)
    else
      var (after, ok) := Execute(work, db.(ambient := Some([])));
      if ok then (Database(db.committed + after.ambient.value, None), true) else (db, false)
  }

  /** The writes performed up to the end or to the first escaping error, ignoring transaction boundaries. */
  function Writes<E>(work: Work<E>): (seq<E>, bool) {
    match work
    case Done => ([], true)
    case Throw => ([], false)
    case Write(effect, rest) => var (more, ok) := Writes(rest); ([effect] + more, ok)
    case Run(inner, rest) =>
      var (first, done) := Writes(inner);
      if !done then (first, false) else var (more, ok) := Writes(rest); (first + more, ok)
    case TryRun(inner, rest) =>
      var (first, _) := Writes(inner);
      var (more, ok) := Writes(rest);
      (first + more, ok)
  }

  /** Inside a transaction nothing is committed: all writes, nested or not, go to the one ambient transaction. */
  lemma {:induction false} NestedWorkJoins<E>(work: Work<E>, committed: seq<E>, pending: seq<E>)
    ensures Execute(work, Database(committed, Some(pending)))
         == (Database(committed, Some(pending + Writes(work).0)), Writes(work).1)
  {
    match work
    case Done => assert pending + [] == pending;
    case Throw => assert pending + [] == pending;
    case Write(effect, rest) =>
      NestedWorkJoins(rest, committed, pending + [effect]);
      assert pending + [effect] + Writes(rest).0 == pending + Writes(work).0;
    case Run(inner, rest) =>
      NestedWorkJoins(inner, committed, pending);
      NestedWorkJoins(rest, committed, pending + Writes(inner).0);
      assert pending + Writes(inner).0 + Writes(rest).0 == pending + (Writes(inner).0 + Writes(rest).0);
    case TryRun(inner, rest) =>
      NestedWorkJoins(inner, committed, pending);
      NestedWorkJoins(rest, committed, pending + Writes(inner).0);
      assert pending + Writes(inner).0 + Writes(rest).0 == pending + (Writes(inner).0 + Writes(rest).0);
  }

  /** A top-level `run` is all or nothing, whatever runs it nests and whichever of their errors it catches. */
  lemma TopLevelRunIsAtomic<E>(work: Work<E>, committed: seq<E>)
    ensures RunNested(work, Database(committed, None))
         == (Database(if Writes(work).1 then committed + Writes(work).0 else committed, None), Writes(work).1)
  {
    NestedWorkJoins(work, committed, []);
    assert [] + Writes(work).0 == Writes(work).0;
  }

  class TypeormUnitOfWork<E> {
    var db: Database<E>

    constructor (committed: seq<E>)
      ensures db == Database(committed, None)
    {
      db := Database(committed, None);
    }

    method Perform(work: Work<E>) returns (ok: bool)
      modifies this
      ensures (db, ok) == Execute(work, old(db))
      decreases work, 0
    {
      match work
      case Done => ok := true;
      case Throw => ok := false;
      case Write(effect, rest) =>
        if db.ambient.Some? {
          db := db.(ambient := Some(db.ambient.value + [effect]));
        } else {
          db := db.(committed := db.committed + [effect]);
        }
        ok := Perform(rest);
      case Run(inner, rest) =>
        ok := Begin(inner);
        if ok {
          ok := Perform(rest);
        }
      case TryRun(inner, rest) =>
        ok := Begin(inner);
        ok := Perform(rest);
    }

    method Begin(work: Work<E>) returns (ok: bool)
      modifies this
      ensures (db, ok) == RunNested(work, old(db))
      decreases work, 1
    {
      if db.ambient.Some? {
        ok := Perform(work);
        return;
      }
      var before := db;
      db := db.(ambient := Some([]));
      ok := Perform(work);
      NestedWorkJoins(work, before.committed, []);
      if ok {
        db := Database(db.committed + db.ambient.value, None);
      } else {
        db := before;
      }
    }
  }
}
