/** The interceptor of a marked route, run without interference: which requests reach the handler and what they get back. */
module IdempotencyInterceptor {
  import opened Wrappers
  import opened Text
  import opened Idempotency

  const MAX_KEY_LENGTH := 255

  datatype Header = Absent | One(value: string) | Many(values: seq<string>)

  datatype Caller = Caller(tenantId: Option<string>, actorId: Option<string>)

  /** What the handler does when it is called: its writes, then a value or an error. */
  datatype Behaviour = Behaviour(payloads: seq<Payload>, result: Option<Body>)

  /** `body` is the parsed body as `JSON.stringify` prints it. */
  datatype Request = Request(header: Header, caller: Caller, verb: Option<string>, routePath: Option<string>, url: Option<string>,
                             body: Option<string>, metadataStatus: Option<int>, responseStatus: int)

  datatype Outcome =
    | KeyRequired
    | ScopeUnavailable
    | InProgress
    | KeyReused
    | HandlerFailed
    | Replayed(response: Response)
    | Handled(body: Body)

  datatype Store = Store(rows: map<Key, KeyRow>, effects: seq<Effect>)

  function ReadHeader(header: Header): Option<string> {
    match header
    case Absent => None
    case One(value) => if |value| > 0 then Some(value) else None
    case Many(values) => if |values| > 0 && |values[0]| > 0 then Some(values[0]) else None
  }

  predicate IsValidKey(key: string) {
    |key| <= MAX_KEY_LENGTH && forall i :: 0 <= i < |key| ==> 32 <= key[i] as int && key[i] as int != 127
  }

  predicate IsNonEmpty(value: Option<string>) {
    value.Some? && |value.value| > 0
  }

  function ScopeOf(caller: Caller): Option<string> {
    if IsNonEmpty(caller.tenantId) then Some("t:" + caller.tenantId.value)
    else if IsNonEmpty(caller.actorId) then Some("u:" + caller.actorId.value)
    else None
  }

  function UpToQuery(url: string): string {
    if url == "" || url[0] == '?' then "" else [url[0]] + UpToQuery(url[1..])
  }

  function PathOf(request: Request): string {
    if IsNonEmpty(request.routePath) then request.routePath.value
    else
      var path := UpToQuery(if request.url.Some? then request.url.value else "");
      if path == "" then "unmatched" else path
  }

  function VerbOf(request: Request): string {
    if request.verb.Some? then request.verb.value else "POST"
  }

  function EndpointOf(request: Request): string {
    VerbOf(request) + " " + PathOf(request)
  }

  function BodyText(request: Request): string {
    if request.body.Some? then request.body.value else "null"
  }

  /** A hash without collisions. */
  function Sha256(text: string): Fingerprint {
    "sha256:" + text
  }

  function FingerprintOf(request: Request): Fingerprint {
    Sha256(Upper(VerbOf(request)) + "\n" + PathOf(request) + "\n" + BodyText(request))
  }

  /** The unique key that the request claims, unless it is refused before. */
  function KeyOf(request: Request): Option<Key> {
    var header, scope := ReadHeader(request.header), ScopeOf(request.caller);
    if header == None || !IsValidKey(header.value) || scope == None then None
    else Some(Key(scope.value, EndpointOf(request), header.value))
  }

  function StatusOf(request: Request): int {
    if request.metadataStatus.Some? then request.metadataStatus.value
    else if request.responseStatus != 0 then request.responseStatus
    else 200
  }

  /** Two callers share a scope only when they are the same tenant, or the same actor outside any tenant. */
  lemma ScopesAreDisjoint(a: Caller, b: Caller)
    requires ScopeOf(a).Some? && ScopeOf(a) == ScopeOf(b)
    ensures if IsNonEmpty(a.tenantId) then a.tenantId == b.tenantId else !IsNonEmpty(b.tenantId) && a.actorId == b.actorId
  {
    var scope := ScopeOf(a).value;
    assert scope[0] == if IsNonEmpty(a.tenantId) then 't' else 'u';
    assert scope[0] == if IsNonEmpty(b.tenantId) then 't' else 'u';
    assert scope[2..] == if IsNonEmpty(a.tenantId) then a.tenantId.value else a.actorId.value;
    assert scope[2..] == if IsNonEmpty(b.tenantId) then b.tenantId.value else b.actorId.value;
  }

  function WritesOf(key: Key, tx: TxId, payloads: seq<Payload>): seq<Effect> {
    seq(|payloads|, i requires 0 <= i < |payloads| => Effect(key, tx, payloads[i]))
  }

  function Serve(store: Store, request: Request, behaviour: Behaviour, tx: TxId): (Store, Outcome) {
    var header := ReadHeader(request.header);
    if header == None || !IsValidKey(header.value) then (store, KeyRequired)
    else if ScopeOf(request.caller) == None then (store, ScopeUnavailable)
    else
      var key := KeyOf(request).value;
      if key in store.rows then
        (store, match ExistingClaim(Some(store.rows[key]), FingerprintOf(request))
                case Replay(response) => Replayed(response)
                case FingerprintMismatch => KeyReused
                case _ => InProgress)
      else if behaviour.result == None then (store, HandlerFailed)
      else
        var body := behaviour.result.value;
        (Store(store.rows[key := KeyRow(FingerprintOf(request), Completed, Some(Response(StatusOf(request), StoredBody(body))), tx)],
               store.effects + WritesOf(key, tx, behaviour.payloads)),
         Handled(body))
  }

  /** The response is the handler's: its text, or `null` for none, with the route's status, else the one set on the reply, else 200. */
  predicate SaysWhatWasReturned(response: Response, request: Request, body: Body) {
    && (match body
        case Undefined => response.json == "null"
        case Json(text) => response.json == text)
    && (match request.metadataStatus
        case Some(status) => response.statusCode == status
        case None => response.statusCode == if request.responseStatus == 0 then 200 else request.responseStatus)
  }

  /** Sending a handled request again changes nothing and replays its response, whatever the handler would do now. */
  lemma RetryReplays(store: Store, request: Request, behaviour: Behaviour, tx: TxId, behaviour': Behaviour, tx': TxId)
    requires Serve(store, request, behaviour, tx).1.Handled?
    ensures
      var (after, first) := Serve(store, request, behaviour, tx);
      var (same, second) := Serve(after, request, behaviour', tx');
      && same == after && behaviour.result == Some(first.body)
      && second.Replayed? && SaysWhatWasReturned(second.response, request, first.body)
  {}

  // ---------------------------------------------------------------------------------------------
  // What every request comes to
  // ---------------------------------------------------------------------------------------------

  /** The header carries this value: at most 255 characters, none of them a control character. */
  predicate Presents(header: Header, value: string) {
    && (header == One(value) || (header.Many? && |header.values| > 0 && header.values[0] == value))
    && 1 <= |value| <= 255 && forall i :: 0 <= i < |value| ==> 32 <= value[i] as int && value[i] as int != 127
  }

  lemma {:induction false} CutsAtQuery(url: string) returns (rest: string)
    ensures url == UpToQuery(url) + rest && '?' !in UpToQuery(url) && (rest == "" || rest[0] == '?')
  {
    if url == "" || url[0] == '?' {
      rest := url;
    } else {
      var front := UpToQuery(url[1..]);
      rest := CutsAtQuery(url[1..]);
      assert UpToQuery(url) == [url[0]] + front;
      assert [url[0]] + front + rest == [url[0]] + (front + rest) == url;
    }
  }

  /** The path is the template of the matched route, else the URL up to its query, and never empty. */
  lemma PathIsRouteOrUrl(request: Request, path: string, query: string)
    requires '?' !in path && (query == "" || query[0] == '?')
    ensures
      if request.routePath.Some? && request.routePath.value != "" then PathOf(request) == request.routePath.value
      else
        && (request.url == None ==> PathOf(request) == "unmatched")
        && (request.url == Some(path + query) ==> PathOf(request) == if path == "" then "unmatched" else path)
  {
    if request.url == Some(path + query) {
      var rest := CutsAtQuery(path + query);
      SameCut(path, query, UpToQuery(path + query), rest);
    }
  }

  lemma {:induction false} SameCut(a: string, b: string, a': string, b': string)
    requires a + b == a' + b' && '?' !in a && '?' !in a' && (b == "" || b[0] == '?') && (b' == "" || b'[0] == '?')
    ensures a == a'
    decreases |a|
  {
    assert a != "" ==> (a + b)[0] == a[0];
    assert a' != "" ==> (a' + b')[0] == a'[0];
    if a != "" && a' != "" {
      assert (a + b)[1..] == a[1..] + b && (a' + b')[1..] == a'[1..] + b';
      SameCut(a[1..], b, a'[1..], b');
      assert a == [a[0]] + a[1..] && a' == [a'[0]] + a'[1..];
    } else {
      assert a == "" ==> a + b == b;
      assert a' == "" ==> a' + b' == b';
    }
  }

  /** The key of a request with that header value. */
  function KeyFor(request: Request, value: string): Key {
    Key(if request.caller.tenantId.Some? && request.caller.tenantId.value != "" then "t:" + request.caller.tenantId.value
        else if request.caller.actorId.Some? then "u:" + request.caller.actorId.value else "",
        (if request.verb.Some? then request.verb.value else "POST") + " " + PathOf(request),
        value)
  }

  /** Without a usable header, or a tenant or actor to scope the key to, nothing happens. */
  lemma RefusedBeforeClaim(store: Store, request: Request, behaviour: Behaviour, tx: TxId)
    ensures Serve(store, request, behaviour, tx).1 == KeyRequired <==> !exists value :: Presents(request.header, value)
    ensures
      Serve(store, request, behaviour, tx).1 == ScopeUnavailable <==>
      && (exists value :: Presents(request.header, value))
      && (request.caller.tenantId == None || request.caller.tenantId.value == "")
      && (request.caller.actorId == None || request.caller.actorId.value == "")
    ensures Serve(store, request, behaviour, tx).1 in {KeyRequired, ScopeUnavailable} ==> Serve(store, request, behaviour, tx).0 == store
  {
    var header := ReadHeader(request.header);
    if header.Some? && IsValidKey(header.value) {
      assert Presents(request.header, header.value);
    }
    if value :| Presents(request.header, value) {
      assert header == Some(value);
    }
  }

  /**
   * Otherwise: a free key runs the handler, whose writes and response are stored together or, when it fails, not at all; a
   * taken one runs nothing and is answered by what is stored under it.
   */
  lemma ServedByKey(store: Store, request: Request, behaviour: Behaviour, tx: TxId, value: string)
    requires Presents(request.header, value) && Serve(store, request, behaviour, tx).1 != ScopeUnavailable
    ensures
      var key, (after, outcome) := KeyFor(request, value), Serve(store, request, behaviour, tx);
      if key in store.rows then
        && after == store
        && outcome == if store.rows[key].fingerprint != FingerprintOf(request) then KeyReused
                      else if store.rows[key].status == Completed && store.rows[key].response.Some? then Replayed(store.rows[key].response.value)
                      else InProgress
      else if behaviour.result == None then after == store && outcome == HandlerFailed
      else
        && outcome == Handled(behaviour.result.value)
        && key in after.rows && after.rows == store.rows[key := after.rows[key]]
        && after.rows[key].fingerprint == FingerprintOf(request) && after.rows[key].status == Completed && after.rows[key].owner == tx
        && after.rows[key].response.Some? && SaysWhatWasReturned(after.rows[key].response.value, request, behaviour.result.value)
        && |after.effects| == |store.effects| + |behaviour.payloads| && store.effects <= after.effects
        && forall i :: 0 <= i < |behaviour.payloads| ==> after.effects[|store.effects| + i] == Effect(key, tx, behaviour.payloads[i])
  {
    UsesItsKey(store, request, behaviour, tx, value);
    WritesAreAppended(store.effects, KeyFor(request, value), tx, behaviour.payloads);
  }

  lemma UsesItsKey(store: Store, request: Request, behaviour: Behaviour, tx: TxId, value: string)
    requires Presents(request.header, value) && Serve(store, request, behaviour, tx).1 != ScopeUnavailable
    ensures ReadHeader(request.header) == Some(value) && IsValidKey(value) && ScopeOf(request.caller).Some?
    ensures KeyOf(request) == Some(KeyFor(request, value))
  {}

  lemma WritesAreAppended(effects: seq<Effect>, key: Key, tx: TxId, payloads: seq<Payload>)
    ensures
      var after := effects + WritesOf(key, tx, payloads);
      && |after| == |effects| + |payloads| && effects <= after
      && forall i :: 0 <= i < |payloads| ==> after[|effects| + i] == Effect(key, tx, payloads[i])
  {}

  /** HTTP methods hold neither blanks nor line breaks, and paths no line breaks. */
  predicate IsHttp(request: Request) {
    ' ' !in VerbOf(request) && '\n' !in VerbOf(request) && '\n' !in PathOf(request)
  }

  /** What the interceptor can tell apart: the parameters in the URL of a matched route are not part of it. */
  predicate SameRequest(a: Request, b: Request) {
    && ScopeOf(a.caller) == ScopeOf(b.caller) && ReadHeader(a.header) == ReadHeader(b.header)
    && VerbOf(a) == VerbOf(b) && PathOf(a) == PathOf(b) && BodyText(a) == BodyText(b)
  }

  lemma {:induction false} FirstSeparator(a: string, b: string, rest: string, rest': string, separator: char)
    requires separator !in a && separator !in b && a + [separator] + rest == b + [separator] + rest'
    ensures a == b && rest == rest'
    decreases |a|
  {
    var one, other := a + [separator] + rest, b + [separator] + rest';
    if a == "" || b == "" {
      assert one[0] == other[0];
      assert one[1..] == rest && other[1..] == rest';
    } else {
      assert one[0] == a[0] && other[0] == b[0];
      assert one[1..] == a[1..] + [separator] + rest && other[1..] == b[1..] + [separator] + rest';
      FirstSeparator(a[1..], b[1..], rest, rest', separator);
      assert a == [a[0]] + a[1..] && b == [b[0]] + b[1..];
    }
  }

  lemma SameKeyIff(a: Request, b: Request)
    requires KeyOf(a).Some? && IsHttp(a) && IsHttp(b)
    ensures KeyOf(a) == KeyOf(b) <==>
            (ScopeOf(a.caller) == ScopeOf(b.caller) && ReadHeader(a.header) == ReadHeader(b.header) &&
             VerbOf(a) == VerbOf(b) && PathOf(a) == PathOf(b))
  {
    if KeyOf(a) == KeyOf(b) {
      assert VerbOf(a) + [' '] + PathOf(a) == EndpointOf(a) && VerbOf(b) + [' '] + PathOf(b) == EndpointOf(b);
      FirstSeparator(VerbOf(a), VerbOf(b), PathOf(a), PathOf(b), ' ');
    }
  }

  lemma SameFingerprintIff(a: Request, b: Request)
    requires VerbOf(a) == VerbOf(b) && PathOf(a) == PathOf(b)
    ensures FingerprintOf(a) == FingerprintOf(b) <==> BodyText(a) == BodyText(b)
  {
    var front := Upper(VerbOf(a)) + "\n" + PathOf(a) + "\n";
    if FingerprintOf(a) == FingerprintOf(b) {
      assert FingerprintOf(a)[7..] == front + BodyText(a) && FingerprintOf(b)[7..] == front + BodyText(b);
      assert (front + BodyText(a))[|front|..] == BodyText(a) && (front + BodyText(b))[|front|..] == BodyText(b);
    }
  }

  /**
   * Once a request was handled, another one is answered with its response exactly when scope, key, method, route and body
   * agree; with the same key and another body it is refused. Neither runs a handler.
   */
  lemma SecondRequest(store: Store, request: Request, behaviour: Behaviour, tx: TxId, other: Request, behaviour': Behaviour, tx': TxId)
    requires IsHttp(request) && IsHttp(other) && Serve(store, request, behaviour, tx).1.Handled?
    ensures
      var (after, first) := Serve(store, request, behaviour, tx);
      var second := Serve(after, other, behaviour', tx');
      && (KeyOf(other) == KeyOf(request) && FingerprintOf(other) == FingerprintOf(request) <==> SameRequest(request, other))
      && (SameRequest(request, other) ==>
            second.0 == after && second.1.Replayed? && SaysWhatWasReturned(second.1.response, request, first.body))
      && (KeyOf(other) == KeyOf(request) && !SameRequest(request, other) ==> second == (after, KeyReused))
  {
    SameKeyIff(request, other);
    if KeyOf(request) == KeyOf(other) {
      SameFingerprintIff(request, other);
    }
  }

  /** On a matched route, a request for another resource is taken for a repetition of the first. */
  lemma ParametersAreIgnored(store: Store, request: Request, behaviour: Behaviour, tx: TxId, url: string, behaviour': Behaviour, tx': TxId)
    requires IsNonEmpty(request.routePath) && Serve(store, request, behaviour, tx).1.Handled?
    ensures
      var (after, first) := Serve(store, request, behaviour, tx);
      var (same, second) := Serve(after, request.(url := Some(url)), behaviour', tx');
      same == after && second.Replayed? && SaysWhatWasReturned(second.response, request, first.body)
  {}

  // ---------------------------------------------------------------------------------------------
  // The interceptor is one schedule of the concurrent protocol
  // ---------------------------------------------------------------------------------------------

  function WriteSteps(tx: TxId, payloads: seq<Payload>): seq<Step> {
    seq(|payloads|, i requires 0 <= i < |payloads| => Write(tx, payloads[i]))
  }

  /** The handler's writes, made one by one and followed by more steps, pile up in its open transaction. */
  lemma {:induction false} WritesPileUp(w: World, tx: TxId, payloads: seq<Payload>, more: seq<Step>)
    requires tx in w.open && IsRunning(w.open[tx])
    ensures
      var t := w.open[tx];
      var w' := w.(open := w.open[tx := t.(writes := t.writes + WritesOf(t.key, tx, payloads))]);
      && (Feasible(w, WriteSteps(tx, payloads) + more) <==> Feasible(w', more))
      && (Feasible(w', more) ==> Exec(w, WriteSteps(tx, payloads) + more) == Exec(w', more))
    decreases |payloads|
  {
    var t := w.open[tx];
    if payloads == [] {
      assert WriteSteps(tx, payloads) + more == more;
      assert t.writes + WritesOf(t.key, tx, payloads) == t.writes;
      assert w.(open := w.open[tx := t]) == w;
    } else {
      var steps := WriteSteps(tx, payloads) + more;
      var next := Apply(w, Write(tx, payloads[0]));
      assert steps[0] == Write(tx, payloads[0]) && steps[1..] == WriteSteps(tx, payloads[1..]) + more;
      WritesPileUp(next, tx, payloads[1..], more);
      assert t.writes + WritesOf(t.key, tx, payloads) == next.open[tx].writes + WritesOf(t.key, tx, payloads[1..]);
      assert next.open[tx := next.open[tx].(writes := next.open[tx].writes + WritesOf(t.key, tx, payloads[1..]))]
          == w.open[tx := t.(writes := t.writes + WritesOf(t.key, tx, payloads))];
    }
  }

  lemma TwoSteps(w: World, first: Step, second: Step, rest: seq<Step>)
    requires Enabled(w, first) && Enabled(Apply(w, first), second)
    ensures
      var w' := Apply(Apply(w, first), second);
      && (Feasible(w, [first, second] + rest) <==> Feasible(w', rest))
      && (Feasible(w', rest) ==> Exec(w, [first, second] + rest) == Exec(w', rest))
  {}

  /** The steps that a request goes through when no other transaction holds its key. */
  function Schedule(store: Store, request: Request, behaviour: Behaviour, tx: TxId): seq<Step> {
    if KeyOf(request) == None then []
    else
      var key := KeyOf(request).value;
      var begin := [Begin(tx, key, FingerprintOf(request)), Step.Claim(tx)];
      if key in store.rows then begin
      else begin + (WriteSteps(tx, behaviour.payloads) +
                    match behaviour.result
                    case None => [Abort(tx)]
                    case Some(body) => [Finish(tx, StatusOf(request), body), Commit(tx)])
  }

  /** No open transaction has claimed the key. */
  ghost predicate IsFree(w: World, key: Key) {
    forall other :: other in w.open && w.open[other].row.Some? ==> w.open[other].key != key
  }

  /** What the interceptor does to the committed rows and effects is what this schedule of protocol steps does. */
  lemma ServeIsASchedule(w: World, request: Request, behaviour: Behaviour, tx: TxId)
    requires tx !in w.used && tx !in w.open && (KeyOf(request).Some? ==> IsFree(w, KeyOf(request).value))
    ensures
      var steps := Schedule(Store(w.rows, w.effects), request, behaviour, tx);
      var store := Serve(Store(w.rows, w.effects), request, behaviour, tx).0;
      Feasible(w, steps) && Exec(w, steps).rows == store.rows && Exec(w, steps).effects == store.effects && Exec(w, steps).open == w.open
  {
    var store := Store(w.rows, w.effects);
    var steps := Schedule(store, request, behaviour, tx);
    if steps != [] {
      var key := steps[0].key;
      var w1 := Apply(w, steps[0]);
      assert !Blocked(w1, tx);
      var w2 := Apply(w1, Step.Claim(tx));
      if key in w.rows {
        TwoSteps(w, steps[0], Step.Claim(tx), []);
        assert steps == [steps[0], Step.Claim(tx)] + [];
        assert w2.open == w.open;
      } else {
        ClaimedRunsOn(w, w2, request, behaviour, tx, key);
        TwoSteps(w, steps[0], Step.Claim(tx), steps[2..]);
        assert steps == [steps[0], Step.Claim(tx)] + steps[2..];
      }
    }
  }

  lemma ClaimedRunsOn(w: World, w2: World, request: Request, behaviour: Behaviour, tx: TxId, key: Key)
    requires tx !in w.open && w2.rows == w.rows && w2.effects == w.effects
    requires w2.open == w.open[tx := Tx(key, FingerprintOf(request), Some(KeyRow(FingerprintOf(request), Processing, None, tx)), [])]
    ensures
      var end := match behaviour.result case None => [Abort(tx)] case Some(body) => [Finish(tx, StatusOf(request), body), Commit(tx)];
      var rest := WriteSteps(tx, behaviour.payloads) + end;
      && Feasible(w2, rest) && Exec(w2, rest).open == w.open
      && (behaviour.result == None ==> Exec(w2, rest).rows == w.rows && Exec(w2, rest).effects == w.effects)
      && (behaviour.result.Some? ==>
            && Exec(w2, rest).rows == w.rows[key := KeyRow(FingerprintOf(request), Completed,
                                                          Some(Response(StatusOf(request), StoredBody(behaviour.result.value))), tx)]
            && Exec(w2, rest).effects == w.effects + WritesOf(key, tx, behaviour.payloads))
  {
    var t := w2.open[tx];
    var written := w2.(open := w2.open[tx := t.(writes := t.writes + WritesOf(key, tx, behaviour.payloads))]);
    assert [] + WritesOf(key, tx, behaviour.payloads) == WritesOf(key, tx, behaviour.payloads);
    match behaviour.result
    case None =>
      WritesPileUp(w2, tx, behaviour.payloads, [Abort(tx)]);
      assert [Abort(tx)][1..] == [];
      assert Apply(written, Abort(tx)).open == w.open;
    case Some(body) =>
      var end: seq<Step> := [Finish(tx, StatusOf(request), body), Commit(tx)];
      WritesPileUp(w2, tx, behaviour.payloads, end);
      TwoSteps(written, Finish(tx, StatusOf(request), body), Commit(tx), []);
      assert end == end + [];
      assert Apply(Apply(written, end[0]), Commit(tx)).open == w.open;
  }

  class Route {
    var rows: map<Key, KeyRow>
    var effects: seq<Effect>

    constructor ()
      ensures Stored() == Store(map[], [])
    {
      rows, effects := map[], [];
    }

    function Stored(): Store
      reads this
    {
      Store(rows, effects)
    }

    /** `claim` inside the ambient transaction: inserts the row unless the unique key is taken. */
    method Claim(key: Key, fingerprint: Fingerprint, tx: TxId) returns (kind: ClaimKind)
      modifies this
      ensures effects == old(effects)
      ensures key !in old(rows) ==> kind == Acquired && rows == old(rows)[key := KeyRow(fingerprint, Processing, None, tx)]
      ensures key in old(rows) ==> kind == ExistingClaim(Some(old(rows)[key]), fingerprint) && rows == old(rows)
    {
      if key !in rows {
        rows := rows[key := KeyRow(fingerprint, Processing, None, tx)];
        return Acquired;
      }
      var existing := rows[key];
      if existing.fingerprint != fingerprint {
        return FingerprintMismatch;
      }
      if existing.status == Processing {
        return InFlight;
      }
      if existing.response == None {
        return InFlight;
      }
      kind := Replay(existing.response.value);
    }

    /** `complete`: fails when there is no claim row. */
    method Complete(key: Key, statusCode: int, body: Body) returns (ok: bool)
      modifies this
      ensures effects == old(effects) && (ok <==> key in old(rows))
      ensures
        var json := match body case Undefined => "null" case Json(text) => text;
        rows == if ok then old(rows)[key := old(rows)[key].(status := Completed, response := Some(Response(statusCode, json)))] else old(rows)
    {
      if key !in rows {
        return false;
      }
      rows := rows[key := rows[key].(status := Completed, response := Some(Response(statusCode, StoredBody(body))))];
      ok := true;
    }

    method HandleMarkedRoute(request: Request, behaviour: Behaviour, tx: TxId) returns (outcome: Outcome)
      modifies this
      ensures (Stored(), outcome) == Serve(old(Stored()), request, behaviour, tx)
    {
      var header := ReadHeader(request.header);
      if header == None || !IsValidKey(header.value) {
        return KeyRequired;
      }
      var scope := ScopeOf(request.caller);
      if scope == None {
        return ScopeUnavailable;
      }
      var key := KeyOf(request).value;
      var rowsBefore, effectsBefore := rows, effects;
      var claim := Claim(key, FingerprintOf(request), tx);
      match claim {
        case Replay(response) =>
          return Replayed(response);
        case InFlight =>
          rows, effects := rowsBefore, effectsBefore;
          return InProgress;
        case FingerprintMismatch =>
          rows, effects := rowsBefore, effectsBefore;
          return KeyReused;
        case Acquired =>
      }
      for i := 0 to |behaviour.payloads|
        invariant rows == rowsBefore[key := KeyRow(FingerprintOf(request), Processing, None, tx)]
        invariant effects == effectsBefore + WritesOf(key, tx, behaviour.payloads)[..i]
      {
        effects := effects + [Effect(key, tx, behaviour.payloads[i])];
      }
      if behaviour.result == None {
        rows, effects := rowsBefore, effectsBefore;
        return HandlerFailed;
      }
      var completed := Complete(key, StatusOf(request), behaviour.result.value);
      outcome := Handled(behaviour.result.value);
      assert effects == effectsBefore + WritesOf(key, tx, behaviour.payloads);
      assert rows == Serve(Store(rowsBefore, effectsBefore), request, behaviour, tx).0.rows;
    }
  }
}
