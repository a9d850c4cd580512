/**
 * The lease lock: acquiring is a set-if-absent with an expiry, releasing compares the lease's token and deletes.
 * Clients crash, act on leases that have run out, and release twice; the clock only moves forward.
 */
module Lock {
  import opened Wrappers

  datatype Lease = Lease(key: string, token: nat)

  /** Redis rejects a time to live that is not positive, before it looks at the key. */
  datatype Error = InvalidExpireTime

  /** The value under a key and the instant at which it is dropped. */
  datatype Held = Held(token: nat, until: int)

  /** `grants` and `released` are history: every lease handed out with its end, and those given back in time. */
  datatype World = World(store: map<string, Held>, now: int, grants: map<nat, Grant>, released: set<nat>)

  datatype Grant = Grant(key: string, until: int)

  datatype Step =
    | Tick(elapsed: nat)
    | Acquire(key: string, ttlSeconds: int, newToken: nat)
    | Release(lease: Lease)

  const Start: World := World(map[], 0, map[], {})

  predicate IsHeld(store: map<string, Held>, key: string, now: int) {
    key in store && now < store[key].until
  }

  predicate Owns(store: map<string, Held>, lease: Lease, now: int) {
    IsHeld(store, lease.key, now) && store[lease.key].token == lease.token
  }

  /** Generated tokens are fresh; any lease whatever may be presented for release. */
  predicate Enabled(w: World, s: Step) {
    s.Acquire? ==> s.newToken !in w.grants
  }

  function Apply(w: World, s: Step): World {
    match s
    case Tick(elapsed) => w.(now := w.now + elapsed)
    case Acquire(key, ttl, token) =>
      if ttl <= 0 || IsHeld(w.store, key, w.now) then w
      else w.(store := w.store[key := Held(token, w.now + ttl * 1000)], grants := w.grants[token := Grant(key, w.now + ttl * 1000)])
    case Release(lease) =>
      if Owns(w.store, lease, w.now) then w.(store := w.store - {lease.key}, released := w.released + {lease.token}) else w
  }

  /** The lease was granted for the key, has not run out and has not been given back. */
  predicate Valid(w: World, lease: Lease) {
    && lease.token in w.grants && w.grants[lease.token].key == lease.key
    && w.now < w.grants[lease.token].until && lease.token !in w.released
  }

  /** The store holds exactly the valid leases. */
  ghost predicate Inv(w: World) {
    && (forall lease: Lease :: Valid(w, lease) <==> Owns(w.store, lease, w.now))
    && (forall key :: key in w.store ==> w.store[key].token in w.grants && w.grants[w.store[key].token] == Grant(key, w.store[key].until))
    && w.released <= w.grants.Keys
  }

  lemma StepKeepsInvariant(w: World, s: Step)
    requires Inv(w) && Enabled(w, s)
    ensures Inv(Apply(w, s))
  {
    var w' := Apply(w, s);
    forall lease ensures Valid(w', lease) <==> Owns(w'.store, lease, w'.now) {
      assert Valid(w, lease) <==> Owns(w.store, lease, w.now);
    }
  }

  predicate Feasible(w: World, steps: seq<Step>)
    decreases |steps|
  {
    steps == [] || (Enabled(w, steps[0]) && Feasible(Apply(w, steps[0]), steps[1..]))
  }

  function Exec(w: World, steps: seq<Step>): World
    decreases |steps|
  {
    if steps == [] then w else Exec(Apply(w, steps[0]), steps[1..])
  }

  lemma {:induction false} RunKeepsInvariant(w: World, steps: seq<Step>)
    requires Inv(w) && Feasible(w, steps)
    ensures Inv(Exec(w, steps))
    decreases |steps|
  {
    if steps != [] {
      StepKeepsInvariant(w, steps[0]);
      RunKeepsInvariant(Apply(w, steps[0]), steps[1..]);
    }
  }

  /** In every run: two leases on one key are never valid at the same time. */
  lemma MutualExclusion(steps: seq<Step>, a: Lease, b: Lease)
    requires Feasible(Start, steps) && a.key == b.key && Valid(Exec(Start, steps), a) && Valid(Exec(Start, steps), b)
    ensures a == b
  {
    RunKeepsInvariant(Start, steps);
    assert Owns(Exec(Start, steps).store, a, Exec(Start, steps).now);
    assert Owns(Exec(Start, steps).store, b, Exec(Start, steps).now);
  }

  /**
   * In every run: acquiring for a positive time is refused exactly while some valid lease on the key exists, and then it
   * changes nothing; otherwise it gives a valid lease.
   */
  lemma AcquireRefusedIffHeld(steps: seq<Step>, s: Step)
    requires Feasible(Start, steps) && s.Acquire? && Enabled(Exec(Start, steps), s)
    ensures
      var w := Exec(Start, steps);
      && (Apply(w, s) == w <==> s.ttlSeconds <= 0 || exists lease: Lease :: lease.key == s.key && Valid(w, lease))
      && (Apply(w, s) != w ==> Valid(Apply(w, s), Lease(s.key, s.newToken)))
  {
    RunKeepsInvariant(Start, steps);
    var w := Exec(Start, steps);
    if IsHeld(w.store, s.key, w.now) {
      assert Owns(w.store, Lease(s.key, w.store[s.key].token), w.now);
      assert Valid(w, Lease(s.key, w.store[s.key].token));
    } else if s.ttlSeconds > 0 {
      assert s.newToken in Apply(w, s).grants && s.newToken !in w.grants;
    }
  }

  /** In every run: releasing a lease ends that lease and no other, and releasing one that is no longer valid does nothing at all. */
  lemma ReleaseEndsOnlyItself(steps: seq<Step>, lease: Lease, other: Lease)
    requires Feasible(Start, steps)
    ensures
      var w := Exec(Start, steps);
      var w' := Apply(w, Release(lease));
      && !Valid(w', lease)
      && (other != lease ==> (Valid(w', other) <==> Valid(w, other)))
      && (!Valid(w, lease) ==> w' == w)
  {
    RunKeepsInvariant(Start, steps);
    var w := Exec(Start, steps);
    StepKeepsInvariant(w, Release(lease));
    assert Valid(w, lease) <==> Owns(w.store, lease, w.now);
    assert Valid(w, other) <==> Owns(w.store, other, w.now);
    assert Valid(Apply(w, Release(lease)), other) <==> Owns(Apply(w, Release(lease)).store, other, w.now);
  }

  /** A valid lease stays valid through any run that neither outlasts it nor releases it: nobody else can take it away. */
  lemma {:induction false} LeaseIsKept(w: World, steps: seq<Step>, lease: Lease)
    requires Inv(w) && Feasible(w, steps) && Valid(w, lease)
    requires Exec(w, steps).now < w.grants[lease.token].until
    requires forall i :: 0 <= i < |steps| ==> steps[i] != Release(lease)
    ensures Valid(Exec(w, steps), lease)
    decreases |steps|
  {
    if steps != [] {
      var w' := Apply(w, steps[0]);
      StepKeepsInvariant(w, steps[0]);
      ClockRuns(w', steps[1..]);
      if steps[0].Release? {
        assert Owns(w.store, lease, w.now);
        assert Owns(w.store, steps[0].lease, w.now) ==> steps[0].lease.token != lease.token by {
          assert Valid(w, steps[0].lease) <==> Owns(w.store, steps[0].lease, w.now);
        }
      }
      LeaseIsKept(w', steps[1..], lease);
    }
  }

  lemma {:induction false} ClockRuns(w: World, steps: seq<Step>)
    ensures Exec(w, steps).now >= w.now
    decreases |steps|
  {
    if steps != [] {
      ClockRuns(Apply(w, steps[0]), steps[1..]);
    }
  }

  lemma {:induction false} GrantStays(w: World, steps: seq<Step>, token: nat)
    requires Feasible(w, steps) && token in w.grants
    ensures token in Exec(w, steps).grants && Exec(w, steps).grants[token] == w.grants[token]
    decreases |steps|
  {
    if steps != [] {
      GrantStays(Apply(w, steps[0]), steps[1..], token);
    }
  }

  /**
   * In every run: the lease that an acquire gives is valid for exactly its time to live, in seconds from then on, whatever
   * happens in between short of its own release.
   */
  lemma LeaseLastsItsTime(steps: seq<Step>, s: Step, later: seq<Step>)
    requires Feasible(Start, steps) && s.Acquire? && Enabled(Exec(Start, steps), s) && Apply(Exec(Start, steps), s) != Exec(Start, steps)
    requires Feasible(Apply(Exec(Start, steps), s), later)
    requires forall i :: 0 <= i < |later| ==> later[i] != Release(Lease(s.key, s.newToken))
    ensures
      var w := Exec(Start, steps);
      var w' := Exec(Apply(w, s), later);
      Valid(w', Lease(s.key, s.newToken)) <==> w'.now < w.now + 1000 * s.ttlSeconds
  {
    RunKeepsInvariant(Start, steps);
    var w := Exec(Start, steps);
    AcquireRefusedIffHeld(steps, s);
    StepKeepsInvariant(w, s);
    GrantStays(Apply(w, s), later, s.newToken);
    if Exec(Apply(w, s), later).now < w.now + 1000 * s.ttlSeconds {
      LeaseIsKept(Apply(w, s), later, Lease(s.key, s.newToken));
    }
  }

  class RedisLock {
    var store: map<string, Held>
    var now: int
    ghost var grants: map<nat, Grant>
    ghost var released: set<nat>

    constructor ()
      ensures Stored() == Start
    {
      store, now, grants, released := map[], 0, map[], {};
    }

    ghost function Stored(): World
      reads this
    {
      World(store, now, grants, released)
    }

    /** `SET key token EX ttl NX` */
    method Acquire(key: string, ttlSeconds: int, token: nat) returns (lease: Result<Option<Lease>, Error>)
      requires token !in grants
      modifies this`store, this`grants
      ensures Stored() == Apply(old(Stored()), Step.Acquire(key, ttlSeconds, token))
      ensures lease == if ttlSeconds <= 0 then Err(InvalidExpireTime) else Ok(if IsHeld(old(store), key, now) then None else Some(Lease(key, token)))
    {
      if ttlSeconds <= 0 {
        return Err(InvalidExpireTime);
      }
      if key in store && now < store[key].until {
        return Ok(None);
      }
      store := store[key := Held(token, now + ttlSeconds * 1000)];
      grants := grants[token := Grant(key, now + ttlSeconds * 1000)];
      lease := Ok(Some(Lease(key, token)));
    }

    /** The script: compare the stored token with the lease's, and only then delete. */
    method Release(lease: Lease)
      modifies this`store, this`released
      ensures Stored() == Apply(old(Stored()), Step.Release(lease))
    {
      if lease.key in store && now < store[lease.key].until && store[lease.key].token == lease.token {
        store := store - {lease.key};
        released := released + {lease.token};
      }
    }
  }
}
