/**
 * The fixed-window rate limiter, in its in-memory form and in the INCR/EXPIRE form that runs as a Redis script.
 * Times are milliseconds, windows whole seconds.
 */
module RateLimit {
  import opened Wrappers

  datatype Entry = Entry(count: int, expiresAt: int)

  datatype Decision = Decision(allowed: bool, remaining: int, retryAfterSeconds: int)

  /** `Math.ceil(ms / 1000)` */
  function CeilSeconds(ms: int): (s: int)
    ensures 1000 * (s - 1) < ms <= 1000 * s
  {
    (ms + 999) / 1000
  }

  function Max(a: int, b: int): int {
    if a > b then a else b
  }

  function ToDecision(count: int, ttlSeconds: int, limit: int, windowSeconds: int): Decision {
    if count <= limit then Decision(true, Max(0, limit - count), 0)
    else Decision(false, Max(0, limit - count), Max(1, if ttlSeconds > 0 then ttlSeconds else windowSeconds))
  }

  /** The entry that a call leaves behind: a new window when there is none or it has expired, else one more call in it. */
  function Next(store: map<string, Entry>, key: string, windowSeconds: int, now: int): Entry {
    if key !in store || now >= store[key].expiresAt then Entry(1, now + windowSeconds * 1000)
    else Entry(store[key].count + 1, store[key].expiresAt)
  }

  function Decide(entry: Entry, limit: int, windowSeconds: int, now: int): Decision {
    ToDecision(entry.count, CeilSeconds(entry.expiresAt - now), limit, windowSeconds)
  }

  class InMemoryRateLimiter {
    var store: map<string, Entry>

    constructor ()
      ensures store == map[]
    {
      store := map[];
    }

    method Consume(key: string, limit: int, windowSeconds: int, now: int) returns (decision: Decision)
      modifies this
      ensures store == old(store)[key := Next(old(store), key, windowSeconds, now)]
      ensures decision == Decide(Next(old(store), key, windowSeconds, now), limit, windowSeconds, now)
    {
      var entry: Entry;
      if key !in store || now >= store[key].expiresAt {
        entry := Entry(1, now + windowSeconds * 1000);
      } else {
        entry := Entry(store[key].count + 1, store[key].expiresAt);
      }
      store := store[key := entry];
      var ttlSeconds := CeilSeconds(entry.expiresAt - now);
      decision := ToDecision(entry.count, ttlSeconds, limit, windowSeconds);
    }
  }

  // ---------------------------------------------------------------------------------------------
  // Call sequences
  // ---------------------------------------------------------------------------------------------

  datatype Call = Call(key: string, limit: int, windowSeconds: int, now: int)

  function After(store: map<string, Entry>, call: Call): map<string, Entry> {
    store[call.key := Next(store, call.key, call.windowSeconds, call.now)]
  }

  function Answer(store: map<string, Entry>, call: Call): Decision {
    Decide(After(store, call)[call.key], call.limit, call.windowSeconds, call.now)
  }

  predicate ClockRuns(calls: seq<Call>) {
    forall i, j :: 0 <= i < j < |calls| ==> calls[i].now <= calls[j].now
  }

  predicate Configured(calls: seq<Call>, key: string, limit: int, windowSeconds: int) {
    forall i :: 0 <= i < |calls| && calls[i].key == key ==> calls[i].limit == limit && calls[i].windowSeconds == windowSeconds
  }

  /** How many calls on `key` in `[from, to)` are allowed. */
  function AllowedIn(store: map<string, Entry>, calls: seq<Call>, key: string, from: int, to: int): nat
    decreases |calls|
  {
    if calls == [] then 0
    else
      (if calls[0].key == key && from <= calls[0].now < to && Answer(store, calls[0]).allowed then 1 else 0)
      + AllowedIn(After(store, calls[0]), calls[1..], key, from, to)
  }

  /** How many calls on `key` are allowed in the window that expires at `expiry`. */
  function AllowedInWindow(store: map<string, Entry>, calls: seq<Call>, key: string, expiry: int): nat
    decreases |calls|
  {
    if calls == [] then 0
    else
      (if calls[0].key == key && After(store, calls[0])[key].expiresAt == expiry && Answer(store, calls[0]).allowed then 1 else 0)
      + AllowedInWindow(After(store, calls[0]), calls[1..], key, expiry)
  }

  /** Stored counters have counted at least one call. */
  predicate Counted(store: map<string, Entry>, key: string) {
    key in store ==> store[key].count >= 1
  }

  /** Once the current window outlasts the interval, only what is left of its limit is allowed. */
  lemma {:induction false} RestOfWindow(store: map<string, Entry>, calls: seq<Call>, key: string, limit: int, window: int, from: int, to: int)
    requires ClockRuns(calls) && Configured(calls, key, limit, window)
    requires key in store && store[key].expiresAt >= to
    ensures AllowedIn(store, calls, key, from, to) <= Max(0, limit - store[key].count)
    decreases |calls|
  {
    if calls != [] {
      if calls[0].key == key && calls[0].now >= store[key].expiresAt {
        NothingAfter(store, calls, key, from, to);
      } else {
        RestOfWindow(After(store, calls[0]), calls[1..], key, limit, window, from, to);
      }
    }
  }

  lemma {:induction false} NothingAfter(store: map<string, Entry>, calls: seq<Call>, key: string, from: int, to: int)
    requires forall i :: 0 <= i < |calls| ==> calls[i].now >= to
    ensures AllowedIn(store, calls, key, from, to) == 0
    decreases |calls|
  {
    if calls != [] {
      NothingAfter(After(store, calls[0]), calls[1..], key, from, to);
    }
  }

  /** From the start of the interval on: what is left of the open window, and one full window. */
  lemma {:induction false} RestAndOneMore(store: map<string, Entry>, calls: seq<Call>, key: string, limit: int, window: int, from: int)
    requires ClockRuns(calls) && Configured(calls, key, limit, window) && limit >= 1
    requires forall i :: 0 <= i < |calls| ==> calls[i].now >= from
    ensures AllowedIn(store, calls, key, from, from + window * 1000) <=
            if key in store then Max(0, limit - store[key].count) + limit else limit
    decreases |calls|
  {
    if calls != [] {
      var next := After(store, calls[0]);
      if calls[0].key == key && (key !in store || calls[0].now >= store[key].expiresAt) {
        RestOfWindow(next, calls[1..], key, limit, window, from, from + window * 1000);
      } else {
        RestAndOneMore(next, calls[1..], key, limit, window, from);
      }
    }
  }

  /**
   * With a fixed limit and window per key and a clock that does not run backwards, any half-open interval of window
   * length allows at most `2 * limit - 1` calls, from any counters and for call sequences of any length.
   */
  lemma {:induction false} SlidingBound(store: map<string, Entry>, calls: seq<Call>, key: string, limit: int, window: int, from: int)
    requires ClockRuns(calls) && Configured(calls, key, limit, window) && Counted(store, key)
    ensures AllowedIn(store, calls, key, from, from + window * 1000) <= if limit >= 1 then 2 * limit - 1 else 0
    decreases |calls|
  {
    if calls != [] {
      if calls[0].now >= from && limit >= 1 {
        RestAndOneMore(store, calls, key, limit, window, from);
      } else {
        SlidingBound(After(store, calls[0]), calls[1..], key, limit, window, from);
      }
    }
  }

  lemma {:induction false} PastWindow(store: map<string, Entry>, calls: seq<Call>, key: string, limit: int, window: int, expiry: int)
    requires Configured(calls, key, limit, window) && window > 0 && key in store && store[key].expiresAt > expiry
    ensures AllowedInWindow(store, calls, key, expiry) == 0
    decreases |calls|
  {
    if calls != [] {
      PastWindow(After(store, calls[0]), calls[1..], key, limit, window, expiry);
    }
  }

  /** Each window allows at most `limit` calls. */
  lemma {:induction false} WindowBound(store: map<string, Entry>, calls: seq<Call>, key: string, limit: int, window: int, expiry: int)
    requires Configured(calls, key, limit, window) && Counted(store, key) && window > 0
    ensures AllowedInWindow(store, calls, key, expiry) <=
            if key in store && store[key].expiresAt == expiry then Max(0, limit - store[key].count) else Max(0, limit)
    decreases |calls|
  {
    if calls != [] {
      var next := After(store, calls[0]);
      if key in store && store[key].expiresAt == expiry && next[key].expiresAt != expiry {
        PastWindow(next, calls[1..], key, limit, window, expiry);
      } else {
        WindowBound(next, calls[1..], key, limit, window, expiry);
      }
    }
  }

  // ---------------------------------------------------------------------------------------------
  // The sliding bound is met
  // ---------------------------------------------------------------------------------------------

  function Burst(n: nat, key: string, limit: int, window: int, now: int): seq<Call> {
    seq(n, _ => Call(key, limit, window, now))
  }

  /** A burst inside an open window: the calls that are left are allowed, and the window is then used up. */
  lemma {:induction false} BurstUsesWindow(store: map<string, Entry>, n: nat, rest: seq<Call>, key: string, limit: int, window: int, now: int,
                                           from: int, to: int)
    requires key in store && now < store[key].expiresAt && store[key].count + n <= limit && from <= now < to
    ensures AllowedIn(store, Burst(n, key, limit, window, now) + rest, key, from, to) ==
            n + AllowedIn(store[key := Entry(store[key].count + n, store[key].expiresAt)], rest, key, from, to)
    decreases n
  {
    var calls := Burst(n, key, limit, window, now) + rest;
    if n == 0 {
      assert calls == rest;
      assert store[key := Entry(store[key].count + n, store[key].expiresAt)] == store;
    } else {
      assert calls[1..] == Burst(n - 1, key, limit, window, now) + rest;
      var next := After(store, calls[0]);
      BurstUsesWindow(next, n - 1, rest, key, limit, window, now, from, to);
      assert next[key := Entry(next[key].count + (n - 1), next[key].expiresAt)] == store[key := Entry(store[key].count + n, store[key].expiresAt)];
    }
  }

  /** One call opens a window; just before it ends the rest of its limit is used, and at its end a whole new limit. */
  function WorstCase(key: string, limit: int, window: int): seq<Call>
    requires limit >= 1
  {
    [Call(key, limit, window, 0)] + (Burst(limit - 1, key, limit, window, window * 1000 - 1) + Burst(limit, key, limit, window, window * 1000))
  }

  /** For every limit and window some call sequence reaches the bound, so it cannot be improved. */
  lemma SlidingBoundIsTight(key: string, limit: int, window: int)
    requires limit >= 1 && window >= 1
    ensures ClockRuns(WorstCase(key, limit, window)) && Configured(WorstCase(key, limit, window), key, limit, window)
    ensures AllowedIn(map[], WorstCase(key, limit, window), key, window * 1000 - 1, (window * 1000 - 1) + window * 1000) == 2 * limit - 1
  {
    WorstCaseIsFeasible(key, limit, window);
    WorstCaseCount(key, limit, window, window * 1000);
  }

  lemma WorstCaseIsFeasible(key: string, limit: int, window: int)
    requires limit >= 1 && window >= 1
    ensures ClockRuns(WorstCase(key, limit, window)) && Configured(WorstCase(key, limit, window), key, limit, window)
  {}

  lemma WorstCaseCount(key: string, limit: int, window: int, w: int)
    requires limit >= 1 && window >= 1 && w == window * 1000
    ensures AllowedIn(map[], WorstCase(key, limit, window), key, w - 1, w - 1 + w) == 2 * limit - 1
  {
    FirstCallIsOutside(key, limit, window, Burst(limit - 1, key, limit, window, w - 1) + Burst(limit, key, limit, window, w), w);
    BurstsCount(key, limit, window, w);
  }

  lemma BurstsCount(key: string, limit: int, window: int, w: int)
    requires limit >= 1 && window >= 1 && w == window * 1000
    ensures
      var bursts := Burst(limit - 1, key, limit, window, w - 1) + Burst(limit, key, limit, window, w);
      AllowedIn(map[key := Entry(1, w)], bursts, key, w - 1, w - 1 + w) == 2 * limit - 1
  {
    var from, to := w - 1, w - 1 + w;
    BurstInWindow(limit - 1, Burst(limit, key, limit, window, w), key, limit, window, w - 1, Entry(1, w), from, to);
    BurstFillsNewWindow(key, limit, window, w, Entry(limit, w), from, to);
  }

  lemma BurstInWindow(n: nat, rest: seq<Call>, key: string, limit: int, window: int, now: int, entry: Entry, from: int, to: int)
    requires now < entry.expiresAt && entry.count + n <= limit && from <= now < to
    ensures AllowedIn(map[key := entry], Burst(n, key, limit, window, now) + rest, key, from, to) ==
            n + AllowedIn(map[key := Entry(entry.count + n, entry.expiresAt)], rest, key, from, to)
  {
    BurstUsesWindow(map[key := entry], n, rest, key, limit, window, now, from, to);
    assert map[key := entry][key := Entry(entry.count + n, entry.expiresAt)] == map[key := Entry(entry.count + n, entry.expiresAt)];
  }

  lemma FirstCallIsOutside(key: string, limit: int, window: int, rest: seq<Call>, w: int)
    requires limit >= 1 && w == window * 1000 && w >= 2
    ensures AllowedIn(map[], [Call(key, limit, window, 0)] + rest, key, w - 1, w - 1 + w) ==
            AllowedIn(map[key := Entry(1, w)], rest, key, w - 1, w - 1 + w)
  {}

  lemma BurstFillsNewWindow(key: string, limit: int, window: int, now: int, expired: Entry, from: int, to: int)
    requires limit >= 1 && window >= 1 && expired.expiresAt <= now && from <= now < to
    ensures AllowedIn(map[key := expired], Burst(limit, key, limit, window, now), key, from, to) == limit
  {
    var calls := Burst(limit, key, limit, window, now);
    assert calls[1..] == Burst(limit - 1, key, limit, window, now) + [];
    BurstUsesWindow(After(map[key := expired], calls[0]), limit - 1, [], key, limit, window, now, from, to);
  }

  // ---------------------------------------------------------------------------------------------
  // Retry-After
  // ---------------------------------------------------------------------------------------------

  function Final(store: map<string, Entry>, calls: seq<Call>): map<string, Entry>
    decreases |calls|
  {
    if calls == [] then store else Final(After(store, calls[0]), calls[1..])
  }

  /** No window outlasts the present by more than its length. */
  lemma {:induction false} WindowsEndInTime(store: map<string, Entry>, calls: seq<Call>, key: string, limit: int, window: int, now: int)
    requires ClockRuns(calls) && Configured(calls, key, limit, window)
    requires Counted(store, key) && (key in store ==> store[key].expiresAt <= now + window * 1000)
    requires forall i :: 0 <= i < |calls| ==> calls[i].now <= now
    ensures Counted(Final(store, calls), key)
    ensures key in Final(store, calls) ==> Final(store, calls)[key].expiresAt <= now + window * 1000
    decreases |calls|
  {
    if calls != [] {
      WindowsEndInTime(After(store, calls[0]), calls[1..], key, limit, window, now);
    }
  }

  /**
   * After any history on `key` with this limit and window, a denial's `Retry-After` is the least whole number of
   * seconds after which the next call is allowed, and it lies between one second and the window.
   */
  lemma RetryAfterIsExact(calls: seq<Call>, call: Call, delaySeconds: nat)
    requires ClockRuns(calls + [call]) && Configured(calls + [call], call.key, call.limit, call.windowSeconds) && call.limit >= 1
    requires !Answer(Final(map[], calls), call).allowed
    ensures
      var denied := Answer(Final(map[], calls), call);
      var store := After(Final(map[], calls), call);
      && 1 <= denied.retryAfterSeconds <= call.windowSeconds
      && (Answer(store, call.(now := call.now + delaySeconds * 1000)).allowed <==> delaySeconds >= denied.retryAfterSeconds)
  {
    var all := calls + [call];
    forall i | 0 <= i < |calls| ensures calls[i] == all[i] && calls[i].now <= call.now {
      assert all[|calls|] == call;
    }
    WindowsEndInTime(map[], calls, call.key, call.limit, call.windowSeconds, call.now);
  }

  lemma {:induction false} WindowsMoveOn(store: map<string, Entry>, calls: seq<Call>, key: string, limit: int, window: int)
    requires Configured(calls, key, limit, window) && window > 0 && key in store
    ensures key in Final(store, calls) && Final(store, calls)[key].expiresAt >= store[key].expiresAt
    decreases |calls|
  {
    if calls != [] {
      WindowsMoveOn(After(store, calls[0]), calls[1..], key, limit, window);
    }
  }

  /** The counter of a window has counted its allowed calls, and then those that were denied. */
  lemma {:induction false} CountsAllowed(store: map<string, Entry>, calls: seq<Call>, key: string, limit: int, window: int)
    requires Configured(calls, key, limit, window) && window > 0 && limit >= 0 && Counted(store, key) && key in Final(store, calls)
    ensures
      var end := Final(store, calls)[key];
      Min(limit, end.count) == AllowedInWindow(store, calls, key, end.expiresAt)
                               + if key in store && store[key].expiresAt == end.expiresAt then Min(limit, store[key].count) else 0
    decreases |calls|
  {
    if calls != [] {
      var next := After(store, calls[0]);
      CountsAllowed(next, calls[1..], key, limit, window);
      if key in next {
        WindowsMoveOn(next, calls[1..], key, limit, window);
      }
    }
  }

  function Min(a: int, b: int): int {
    if a < b then a else b
  }

  lemma {:induction false} FinalOneMore(store: map<string, Entry>, calls: seq<Call>, call: Call)
    ensures Final(store, calls + [call]) == After(Final(store, calls), call)
    decreases |calls|
  {
    if calls == [] {
      assert [call][1..] == [] && calls + [call] == [call];
    } else {
      assert (calls + [call])[1..] == calls[1..] + [call];
      FinalOneMore(After(store, calls[0]), calls[1..], call);
    }
  }

  /**
   * After any history on `key` with this limit and window: a call is allowed while its window has allowed fewer than
   * `limit`, `remaining` is what the window still has left after it, and only a denial asks to wait.
   */
  lemma RemainingIsWhatIsLeft(calls: seq<Call>, call: Call)
    requires Configured(calls + [call], call.key, call.limit, call.windowSeconds) && call.limit >= 0 && call.windowSeconds > 0
    ensures
      var decision, window := Answer(Final(map[], calls), call), After(Final(map[], calls), call)[call.key].expiresAt;
      var before := AllowedInWindow(map[], calls, call.key, window);
      && (decision.allowed <==> before < call.limit)
      && decision.remaining == call.limit - before - (if decision.allowed then 1 else 0)
      && (decision.allowed <==> decision.retryAfterSeconds == 0)
  {
    var all, key, store := calls + [call], call.key, Final(map[], calls);
    assert all[|calls|] == call;
    forall i | 0 <= i < |calls| ensures calls[i] == all[i] {}
    assert Configured(calls, key, call.limit, call.windowSeconds);
    var window := After(store, call)[key].expiresAt;
    FinalOneMore(map[], calls, call);
    CountsAllowed(map[], all, key, call.limit, call.windowSeconds);
    AllowedOneMore(map[], calls, call, key, window);
    StaysCounted(map[], calls, key);
    if key in store && store[key].expiresAt == window {
      CountsAllowed(map[], calls, key, call.limit, call.windowSeconds);
    }
  }

  lemma {:induction false} StaysCounted(store: map<string, Entry>, calls: seq<Call>, key: string)
    requires Counted(store, key)
    ensures Counted(Final(store, calls), key)
    decreases |calls|
  {
    if calls != [] {
      StaysCounted(After(store, calls[0]), calls[1..], key);
    }
  }

  lemma {:induction false} AllowedOneMore(store: map<string, Entry>, calls: seq<Call>, call: Call, key: string, window: int)
    requires call.key == key && After(Final(store, calls), call)[key].expiresAt == window
    ensures AllowedInWindow(store, calls + [call], key, window) ==
            AllowedInWindow(store, calls, key, window) + if Answer(Final(store, calls), call).allowed then 1 else 0
    decreases |calls|
  {
    if calls == [] {
      assert [call][1..] == [] && calls + [call] == [call];
    } else {
      assert (calls + [call])[1..] == calls[1..] + [call];
      AllowedOneMore(After(store, calls[0]), calls[1..], call, key, window);
    }
  }

  /** Calls on one key neither see nor change the counter of another. */
  lemma {:induction false} KeysAreIndependent(store: map<string, Entry>, other: map<string, Entry>, calls: seq<Call>, key: string)
    requires key in store <==> key in other
    requires key in store ==> store[key] == other[key]
    ensures
      var own := OnKey(calls, key);
      && Answers(store, calls, key) == Answers(other, own, key)
      && |Answers(store, calls, key)| == |own|
    decreases |calls|
  {
    if calls != [] {
      if calls[0].key == key {
        assert OnKey(calls, key)[1..] == OnKey(calls[1..], key);
        KeysAreIndependent(After(store, calls[0]), After(other, calls[0]), calls[1..], key);
      } else {
        assert OnKey(calls, key) == OnKey(calls[1..], key);
        KeysAreIndependent(After(store, calls[0]), other, calls[1..], key);
      }
    }
  }

  function OnKey(calls: seq<Call>, key: string): seq<Call> {
    if calls == [] then [] else (if calls[0].key == key then [calls[0]] else []) + OnKey(calls[1..], key)
  }

  function Answers(store: map<string, Entry>, calls: seq<Call>, key: string): seq<Decision>
    decreases |calls|
  {
    if calls == [] then []
    else (if calls[0].key == key then [Answer(store, calls[0])] else []) + Answers(After(store, calls[0]), calls[1..], key)
  }

  // ---------------------------------------------------------------------------------------------
  // The Redis form
  // ---------------------------------------------------------------------------------------------

  /** `TTL` answers in seconds, rounded to the nearest. */
  function RoundSeconds(ms: int): int {
    (ms + 500) / 1000
  }

  function RedisAnswer(store: map<string, Entry>, call: Call): Decision {
    var entry := Next(store, call.key, call.windowSeconds, call.now);
    ToDecision(entry.count, RoundSeconds(entry.expiresAt - call.now), call.limit, call.windowSeconds)
  }

  /**
   * It allows what the in-memory form allows, with the same remainder. Only the wait of a denial differs: it may be a second
   * shorter, or a whole window when less than half a second is left.
   */
  lemma RedisDecidesAlike(store: map<string, Entry>, call: Call)
    requires call.windowSeconds > 0
    ensures
      var one, other := RedisAnswer(store, call), Answer(store, call);
      && one.allowed == other.allowed && one.remaining == other.remaining
      && (one.retryAfterSeconds == other.retryAfterSeconds || one.retryAfterSeconds == other.retryAfterSeconds - 1
          || (one.retryAfterSeconds == call.windowSeconds && After(store, call)[call.key].expiresAt - call.now < 500))
  {}

  /** A counter key and the instant at which Redis drops it, if one was set. */
  datatype Counter = Counter(value: int, dropAt: Option<int>)

  predicate Live(counters: map<string, Counter>, key: string, now: int) {
    key in counters && (counters[key].dropAt == None || now < counters[key].dropAt.value)
  }

  class RedisRateLimiter {
    var counters: map<string, Counter>

    constructor ()
      ensures counters == map[]
    {
      counters := map[];
    }

    method Incr(key: string, now: int) returns (count: int)
      modifies this
      ensures count == (if Live(old(counters), key, now) then old(counters)[key].value else 0) + 1
      ensures counters == old(counters)[key := Counter(count, if Live(old(counters), key, now) then old(counters)[key].dropAt else None)]
    {
      if Live(counters, key, now) {
        count := counters[key].value + 1;
        counters := counters[key := Counter(count, counters[key].dropAt)];
      } else {
        count := 1;
        counters := counters[key := Counter(1, None)];
      }
    }

    method Ttl(key: string, now: int) returns (reply: int)
      ensures reply == if !Live(counters, key, now) then -2
                       else if counters[key].dropAt == None then -1
                       else RoundSeconds(counters[key].dropAt.value - now)
    {
      if !Live(counters, key, now) {
        return -2;
      }
      reply := if counters[key].dropAt == None then -1 else RoundSeconds(counters[key].dropAt.value - now);
    }

    /** The script: it counts as the in-memory form does, and answers with the rounded time to live. */
    method Consume(key: string, limit: int, windowSeconds: int, now: int, ghost store: map<string, Entry>) returns (decision: Decision)
      requires Mirrors(counters, store, now)
      modifies this
      ensures Mirrors(counters, store[key := Next(store, key, windowSeconds, now)], now)
      ensures decision == RedisAnswer(store, Call(key, limit, windowSeconds, now))
    {
      var count := Incr(key, now);
      if count == 1 {
        counters := counters[key := Counter(1, Some(now + windowSeconds * 1000))];
      }
      var ttl := Ttl(key, now);
      decision := ToDecision(count, ttl, limit, windowSeconds);
    }
  }

  /** The counters that Redis still holds are the windows that have not expired. */
  ghost predicate Mirrors(counters: map<string, Counter>, store: map<string, Entry>, now: int) {
    forall key ::
      && (Live(counters, key, now) <==> key in store && now < store[key].expiresAt)
      && (Live(counters, key, now) ==> counters[key] == Counter(store[key].count, Some(store[key].expiresAt)) && store[key].count >= 1)
  }

  /** And as time passes both forget the same windows. */
  lemma MirrorsLater(counters: map<string, Counter>, store: map<string, Entry>, now: int, later: int)
    requires Mirrors(counters, store, now) && later >= now
    ensures Mirrors(counters, store, later)
  {}

  /**
   * After a denial by the Redis form, waiting for `Retry-After` is enough exactly when the rest of the window was not
   * rounded down to whole seconds; it is never short by half a second.
   */
  lemma {:induction false} RedisRetryAfterIff(calls: seq<Call>, call: Call)
    requires ClockRuns(calls + [call]) && Configured(calls + [call], call.key, call.limit, call.windowSeconds) && call.limit >= 1
    requires !RedisAnswer(Final(map[], calls), call).allowed
    ensures
      var denied, store := RedisAnswer(Final(map[], calls), call), After(Final(map[], calls), call);
      var left, wait := store[call.key].expiresAt - call.now, denied.retryAfterSeconds * 1000;
      && (Answer(store, call.(now := call.now + wait)).allowed <==> left < 500 || left % 1000 == 0 || left % 1000 >= 500)
      && wait > left - 500
  {
    var all := calls + [call];
    forall i | 0 <= i < |calls| ensures calls[i] == all[i] && calls[i].now <= call.now {
      assert all[|calls|] == call;
    }
    WindowsEndInTime(map[], calls, call.key, call.limit, call.windowSeconds, call.now);
  }

  lemma {:induction false} BurstCounts(n: nat, key: string, limit: int, window: int, now: int, entry: Entry)
    requires now < entry.expiresAt
    ensures Final(map[key := entry], Burst(n, key, limit, window, now)) == map[key := Entry(entry.count + n, entry.expiresAt)]
  {
    if n > 0 {
      var next := Entry(entry.count + 1, entry.expiresAt);
      assert After(map[key := entry], Call(key, limit, window, now)) == map[key := next];
      assert Burst(n, key, limit, window, now)[1..] == Burst(n - 1, key, limit, window, now);
      BurstCounts(n - 1, key, limit, window, now, next);
    }
  }

  lemma FullWindow(key: string, limit: int, window: int)
    requires limit >= 1 && window >= 1
    ensures Final(map[], Burst(limit, key, limit, window, 0)) == map[key := Entry(limit, window * 1000)]
  {
    var calls := Burst(limit, key, limit, window, 0);
    assert After(map[], calls[0]) == map[key := Entry(1, window * 1000)];
    assert calls[1..] == Burst(limit - 1, key, limit, window, 0);
    BurstCounts(limit - 1, key, limit, window, 0, Entry(1, window * 1000));
  }

  /** It does fall short: whatever the limit, the window and such a rest of it, some denied call is denied again after that wait. */
  lemma RedisRetryAfterFallsShort(key: string, limit: int, window: int, left: int)
    requires limit >= 1 && 500 <= left <= window * 1000 && 0 < left % 1000 < 500
    ensures
      var calls, call := Burst(limit, key, limit, window, 0), Call(key, limit, window, window * 1000 - left);
      var denied, store := RedisAnswer(Final(map[], calls), call), After(Final(map[], calls), call);
      && ClockRuns(calls + [call]) && Configured(calls + [call], key, limit, window) && store[key].expiresAt - call.now == left
      && !denied.allowed && !RedisAnswer(store, call.(now := call.now + denied.retryAfterSeconds * 1000)).allowed
  {
    FullWindow(key, limit, window);
  }
}
