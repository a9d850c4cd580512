/**
 * The outbound HTTP client: a retry loop around a dispatch that follows redirects by recursion. The network is an
 * arbitrary function from the number of fetches made so far to what the next fetch meets.
 */
module HttpClient {
  import opened Wrappers

  datatype Method = Get | Head | Post | Put | Patch | Delete

  datatype Trigger = OnGet | OnHead | OnNetwork | OnTimeout | On429 | On503

  datatype Policy = Policy(maxRetries: int, retryOn: set<Trigger>)

  /** A URL after parsing, or text that does not parse. */
  datatype Target = Malformed | Url(host: string, rest: string)

  datatype Request = Request(method_: Method, target: Target, policy: Option<Policy>, hasIdempotencyKey: bool)

  datatype Response = Response(status: int, body: string)

  /** What a dispatch throws: errors of the platform, or of this client. */
  datatype Thrown = InvalidUrl | NativeTimeout | NativeAbort | NativeOther | Timeout | Aborted | TooLarge | Network

  datatype Body = Body(bytes: nat, text: string, parses: bool)

  datatype Raw = Raw(status: int, location: Option<Target>, contentLength: Option<int>, body: Result<Body, Thrown>)

  /** One fetch: its reply, and whether the caller's signal or the timeout signal has fired when its catch block runs. */
  datatype Exchange = Exchange(reply: Result<Raw, Thrown>, callerAborted: bool, timedOut: bool)

  datatype Config = Config(maxRedirects: int, maxResponseBytes: int, scopePolicy: Option<Policy>)

  datatype Sent = Sent(method_: Method, url: Target)

  type Outcome = Result<Response, Thrown>

  const DEFAULT_POLICY: Policy := Policy(2, {OnGet, OnHead, OnNetwork, OnTimeout, On429, On503})

  // ---------------------------------------------------------------------------------------------
  // Decisions
  // ---------------------------------------------------------------------------------------------

  predicate IsSafe(m: Method) {
    m == Get || m == Head
  }

  predicate IsRedirect(status: int) {
    status in {301, 302, 303, 307, 308}
  }

  function ResolveRetry(config: Config, req: Request): Option<Policy> {
    if req.policy.Some? then req.policy
    else if config.scopePolicy.Some? then config.scopePolicy
    else if !IsSafe(req.method_) && !req.hasIdempotencyKey then None
    else Some(DEFAULT_POLICY)
  }

  predicate ShouldRetryStatus(status: int, policy: Policy) {
    (status == 429 && On429 in policy.retryOn) || (status == 503 && On503 in policy.retryOn)
  }

  predicate ShouldRetryError(error: Thrown, policy: Policy) {
    (error == Timeout && OnTimeout in policy.retryOn) || (error == Network && OnNetwork in policy.retryOn)
  }

  predicate ShouldRetry(outcome: Outcome, policy: Policy) {
    match outcome
    case Ok(response) => ShouldRetryStatus(response.status, policy)
    case Err(error) => ShouldRetryError(error, policy)
  }

  function Rethrow(error: Thrown, callerAborted: bool, timedOut: bool): Thrown {
    if callerAborted then Aborted
    else if timedOut || error == NativeTimeout then Timeout
    else if error == NativeAbort then Aborted
    else if error == Timeout || error == Aborted || error == TooLarge then error
    else Network
  }

  function ReadBody(config: Config, raw: Raw): Outcome {
    if raw.contentLength.Some? && raw.contentLength.value > config.maxResponseBytes then Err(TooLarge)
    else
      match raw.body
      case Err(error) => Err(error)
      case Ok(body) =>
        if body.bytes > config.maxResponseBytes then Err(TooLarge)
        else if !body.parses then Err(NativeOther)
        else Ok(Response(raw.status, body.text))
  }

  /** Where `#followRedirect` sends the request next, if anywhere: never to another host. */
  function RedirectTarget(config: Config, req: Request, raw: Raw, redirects: nat): Option<Target> {
    if !IsRedirect(raw.status) || !IsSafe(req.method_) || raw.location == None || redirects >= config.maxRedirects then None
    else if raw.location.value.Url? && req.target.Url? && raw.location.value.host != req.target.host then None
    else raw.location
  }

  // ---------------------------------------------------------------------------------------------
  // One attempt, and all of them
  // ---------------------------------------------------------------------------------------------

  function Hops(config: Config, redirects: nat): nat {
    if config.maxRedirects > redirects then config.maxRedirects - redirects else 0
  }

  /** The outcome of one attempt and everything fetched so far. */
  function Dispatch(config: Config, net: nat -> Exchange, req: Request, sent: seq<Sent>, redirects: nat): (Outcome, seq<Sent>)
    decreases Hops(config, redirects)
  {
    if req.target.Malformed? then (Err(InvalidUrl), sent)
    else
      var exchange := net(|sent|);
      var sent1 := sent + [Sent(req.method_, req.target)];
      var (tried, sent2) :=
        match exchange.reply
        case Err(error) => (Err(error), sent1)
        case Ok(raw) =>
          match RedirectTarget(config, req, raw, redirects)
          case None => (ReadBody(config, raw), sent1)
          case Some(Malformed) => (Err(NativeOther), sent1)
          case Some(next) => Dispatch(config, net, req.(target := next), sent1, redirects + 1);
      match tried
      case Ok(response) => (tried, sent2)
      case Err(error) => (Err(Rethrow(error, exchange.callerAborted, exchange.timedOut)), sent2)
  }

  function MaxAttempts(policy: Option<Policy>): int {
    1 + if policy.Some? then policy.value.maxRetries else 0
  }

  predicate IsFinal(policy: Option<Policy>, attempt: nat, outcome: Outcome) {
    policy == None || attempt >= policy.value.maxRetries || !ShouldRetry(outcome, policy.value)
  }

  /** The retry loop from one attempt on. */
  function Attempts(config: Config, net: nat -> Exchange, req: Request, policy: Option<Policy>, sent: seq<Sent>, attempt: nat): (Outcome, seq<Sent>)
    decreases MaxAttempts(policy) - attempt
  {
    if attempt >= MaxAttempts(policy) then (Err(Network), sent)
    else
      var (outcome, sent1) := Dispatch(config, net, req, sent, 0);
      if IsFinal(policy, attempt, outcome) then (outcome, sent1)
      else Attempts(config, net, req, policy, sent1, attempt + 1)
  }

  class UndiciHttpClient {
    const config: Config
    const net: nat -> Exchange
    var sent: seq<Sent>

    constructor (config: Config, net: nat -> Exchange)
      ensures this.config == config && this.net == net && sent == []
    {
      this.config, this.net, sent := config, net, [];
    }

    method DispatchRequest(req: Request, redirects: nat) returns (outcome: Outcome)
      modifies this
      ensures (outcome, sent) == Dispatch(config, net, req, old(sent), redirects)
      decreases Hops(config, redirects), 1
    {
      if req.target.Malformed? {
        return Err(InvalidUrl);
      }
      var exchange := net(|sent|);
      sent := sent + [Sent(req.method_, req.target)];
      var tried: Outcome;
      match exchange.reply {
        case Err(error) =>
          tried := Err(error);
        case Ok(raw) =>
          var followed := FollowRedirect(req, raw, redirects);
          tried := if followed.Some? then followed.value else ReadBody(config, raw);
      }
      if tried.Ok? {
        return tried;
      }
      outcome := Err(Rethrow(tried.error, exchange.callerAborted, exchange.timedOut));
    }

    /** `None` when the response is to be read as it is. */
    method FollowRedirect(req: Request, raw: Raw, redirects: nat) returns (followed: Option<Outcome>)
      requires req.target.Url?
      modifies this
      ensures
        match RedirectTarget(config, req, raw, redirects)
        case None => followed == None && sent == old(sent)
        case Some(Malformed) => followed == Some(Err(NativeOther)) && sent == old(sent)
        case Some(next) => followed.Some? && (followed.value, sent) == Dispatch(config, net, req.(target := next), old(sent), redirects + 1)
      decreases Hops(config, redirects), 0
    {
      if !IsRedirect(raw.status) || !IsSafe(req.method_) {
        return None;
      }
      if raw.location == None || redirects >= config.maxRedirects {
        return None;
      }
      var next := raw.location.value;
      if next.Malformed? {
        return Some(Err(NativeOther));
      }
      if next.host != req.target.host {
        return None;
      }
      var outcome := DispatchRequest(req.(target := next), redirects + 1);
      followed := Some(outcome);
    }

    method Send(req: Request) returns (outcome: Outcome)
      modifies this
      ensures (outcome, sent) == Attempts(config, net, req, ResolveRetry(config, req), old(sent), 0)
    {
      var policy := ResolveRetry(config, req);
      var attempt := 0;
      while attempt < MaxAttempts(policy)
        invariant 0 <= attempt
        invariant Attempts(config, net, req, policy, old(sent), 0) == Attempts(config, net, req, policy, sent, attempt)
      {
        var tried := DispatchRequest(req, 0);
        match tried {
          case Ok(response) =>
            if policy == None || attempt >= policy.value.maxRetries || !ShouldRetryStatus(response.status, policy.value) {
              return tried;
            }
          case Err(error) =>
            if policy == None || attempt >= policy.value.maxRetries || !ShouldRetryError(error, policy.value) {
              return tried;
            }
        }
        attempt := attempt + 1;
      }
      outcome := Err(Network);
    }
  }

  // ---------------------------------------------------------------------------------------------
  // Bounds
  // ---------------------------------------------------------------------------------------------

  /** Consecutive fetches of one attempt: the request itself, then the redirect that each response asked for. */
  predicate IsChain(net: nat -> Exchange, req: Request, sent: seq<Sent>, first: nat, last: nat)
    requires first < last <= |sent|
  {
    && sent[first] == Sent(req.method_, req.target)
    && forall n :: first <= n < last - 1 ==> Redirects(net, sent, n)
  }

  predicate Redirects(net: nat -> Exchange, sent: seq<Sent>, n: nat)
    requires n + 1 < |sent|
  {
    && net(n).reply.Ok? && IsRedirect(net(n).reply.value.status)
    && net(n).reply.value.location == Some(sent[n + 1].url)
    && sent[n + 1].method_ == sent[n].method_ && IsSafe(sent[n].method_)
    && sent[n].url.Url? && sent[n + 1].url.Url? && sent[n + 1].url.host == sent[n].url.host
  }

  /** One attempt fetches at least once and at most once per allowed hop, along one chain of same-host redirects. */
  lemma {:induction false} DispatchFollowsChain(config: Config, net: nat -> Exchange, req: Request, sent: seq<Sent>, redirects: nat)
    requires req.target.Url?
    ensures
      var sent' := Dispatch(config, net, req, sent, redirects).1;
      && |sent| < |sent'| <= |sent| + 1 + Hops(config, redirects)
      && sent == sent'[..|sent|]
      && IsChain(net, req, sent', |sent|, |sent'|)
      && (!IsSafe(req.method_) ==> |sent'| == |sent| + 1)
    decreases Hops(config, redirects)
  {
    var exchange := net(|sent|);
    var sent1 := sent + [Sent(req.method_, req.target)];
    if exchange.reply.Ok? {
      var target := RedirectTarget(config, req, exchange.reply.value, redirects);
      if target.Some? && target.value.Url? {
        var next := req.(target := target.value);
        DispatchFollowsChain(config, net, next, sent1, redirects + 1);
        var sent' := Dispatch(config, net, next, sent1, redirects + 1).1;
        assert Dispatch(config, net, req, sent, redirects).1 == sent';
        assert sent'[|sent|] == sent'[..|sent1|][|sent|] == sent1[|sent|];
        assert sent'[..|sent|] == sent'[..|sent1|][..|sent|];
        assert sent'[|sent1|] == Sent(next.method_, next.target);
        assert Redirects(net, sent', |sent|);
      }
    }
  }

  function Product(a: nat, b: nat): nat {
    a * b
  }

  /** `request` fetches at most `(1 + maxRetries) * (1 + maxRedirects)` times, whatever the network does. */
  lemma {:induction false} FetchBound(config: Config, net: nat -> Exchange, req: Request, policy: Option<Policy>, sent: seq<Sent>, attempt: nat)
    requires attempt <= MaxAttempts(policy)
    ensures |Attempts(config, net, req, policy, sent, attempt).1| <= |sent| + Product(MaxAttempts(policy) - attempt, 1 + Hops(config, 0))
    ensures sent <= Attempts(config, net, req, policy, sent, attempt).1
    decreases MaxAttempts(policy) - attempt
  {
    if attempt < MaxAttempts(policy) {
      var (outcome, sent1) := Dispatch(config, net, req, sent, 0);
      if req.target.Url? {
        DispatchFollowsChain(config, net, req, sent, 0);
      }
      var left := MaxAttempts(policy) - attempt - 1;
      assert Product(left + 1, 1 + Hops(config, 0)) == Product(left, 1 + Hops(config, 0)) + 1 + Hops(config, 0);
      if !IsFinal(policy, attempt, outcome) {
        FetchBound(config, net, req, policy, sent1, attempt + 1);
      }
    }
  }

  /** Every fetch goes to the host of the original request, with the original method. */
  lemma {:induction false} SameHost(config: Config, net: nat -> Exchange, req: Request, policy: Option<Policy>, sent: seq<Sent>, attempt: nat, n: nat)
    requires req.target.Url?
    requires |sent| <= n < |Attempts(config, net, req, policy, sent, attempt).1|
    ensures
      var fetched := Attempts(config, net, req, policy, sent, attempt).1[n];
      fetched.method_ == req.method_ && fetched.url.Url? && fetched.url.host == req.target.host
    decreases MaxAttempts(policy) - attempt
  {
    var (outcome, sent1) := Dispatch(config, net, req, sent, 0);
    DispatchFollowsChain(config, net, req, sent, 0);
    if n < |sent1| {
      ChainStaysOnHost(net, req, sent1, |sent|, |sent1|, n);
    }
    if !IsFinal(policy, attempt, outcome) {
      FetchBound(config, net, req, policy, sent1, attempt + 1);
      if n >= |sent1| {
        SameHost(config, net, req, policy, sent1, attempt + 1, n);
      }
    }
  }

  lemma {:induction false} ChainStaysOnHost(net: nat -> Exchange, req: Request, sent: seq<Sent>, first: nat, last: nat, n: nat)
    requires first <= n < last <= |sent| && IsChain(net, req, sent, first, last) && req.target.Url?
    ensures sent[n].method_ == req.method_ && sent[n].url.Url? && sent[n].url.host == req.target.host
    decreases n
  {
    if n > first {
      ChainStaysOnHost(net, req, sent, first, last, n - 1);
      assert Redirects(net, sent, n - 1);
    }
  }

  /** A write without a policy and without an idempotency key is fetched exactly once. */
  lemma WritesAreNotRepeated(config: Config, net: nat -> Exchange, req: Request)
    requires req.target.Url? && !IsSafe(req.method_) && req.policy == None && config.scopePolicy == None && !req.hasIdempotencyKey
    ensures Attempts(config, net, req, ResolveRetry(config, req), [], 0).1 == [Sent(req.method_, req.target)]
  {}

  // ---------------------------------------------------------------------------------------------
  // What is returned
  // ---------------------------------------------------------------------------------------------

  /** The outcome of the `k`-th attempt, when every one is made. */
  function AttemptOutcome(config: Config, net: nat -> Exchange, req: Request, sent: seq<Sent>, k: nat): (Outcome, seq<Sent>)
    decreases k
  {
    var (outcome, sent1) := Dispatch(config, net, req, sent, 0);
    if k == 0 then (outcome, sent1) else AttemptOutcome(config, net, req, sent1, k - 1)
  }

  /** The request ends with the first attempt whose outcome is final, and with nothing after it. */
  lemma {:induction false} FirstFinalWins(config: Config, net: nat -> Exchange, req: Request, policy: Option<Policy>, sent: seq<Sent>, attempt: nat, k: nat)
    requires attempt + k < MaxAttempts(policy)
    requires forall j :: 0 <= j < k ==> !IsFinal(policy, attempt + j, AttemptOutcome(config, net, req, sent, j).0)
    requires IsFinal(policy, attempt + k, AttemptOutcome(config, net, req, sent, k).0)
    ensures Attempts(config, net, req, policy, sent, attempt) == AttemptOutcome(config, net, req, sent, k)
    decreases k
  {
    var (outcome, sent1) := Dispatch(config, net, req, sent, 0);
    if k > 0 {
      assert AttemptOutcome(config, net, req, sent, 0).0 == outcome;
      forall j | 0 <= j < k - 1
        ensures !IsFinal(policy, attempt + 1 + j, AttemptOutcome(config, net, req, sent1, j).0)
      {
        assert AttemptOutcome(config, net, req, sent, j + 1) == AttemptOutcome(config, net, req, sent1, j);
      }
      FirstFinalWins(config, net, req, policy, sent1, attempt + 1, k - 1);
    }
  }

  /** With a nonnegative number of retries some attempt is final, so the throw after the loop is not reached. */
  lemma {:induction false} SomeAttemptIsFinal(config: Config, net: nat -> Exchange, req: Request, policy: Option<Policy>, sent: seq<Sent>, attempt: nat)
    returns (k: nat)
    requires attempt < MaxAttempts(policy)
    ensures attempt + k < MaxAttempts(policy)
    ensures forall j :: 0 <= j < k ==> !IsFinal(policy, attempt + j, AttemptOutcome(config, net, req, sent, j).0)
    ensures IsFinal(policy, attempt + k, AttemptOutcome(config, net, req, sent, k).0)
    decreases MaxAttempts(policy) - attempt
  {
    var (outcome, sent1) := Dispatch(config, net, req, sent, 0);
    if IsFinal(policy, attempt, outcome) {
      k := 0;
    } else {
      k := SomeAttemptIsFinal(config, net, req, policy, sent1, attempt + 1);
      k := k + 1;
      forall j | 0 <= j < k
        ensures !IsFinal(policy, attempt + j, AttemptOutcome(config, net, req, sent, j).0)
      {
        if j > 0 {
          assert AttemptOutcome(config, net, req, sent, j) == AttemptOutcome(config, net, req, sent1, j - 1);
          assert !IsFinal(policy, attempt + 1 + (j - 1), AttemptOutcome(config, net, req, sent1, j - 1).0);
        }
      }
    }
  }

  /** No fetch at all, and the network error after the loop, exactly when the policy asks for a negative number of retries. */
  lemma FallsThroughIffNegative(config: Config, net: nat -> Exchange, req: Request)
    requires req.target.Url?
    ensures
      var policy := ResolveRetry(config, req);
      Attempts(config, net, req, policy, [], 0) == (Err(Network), []) <==> policy.Some? && policy.value.maxRetries < 0
  {
    var policy := ResolveRetry(config, req);
    if MaxAttempts(policy) > 0 {
      var (outcome, sent1) := Dispatch(config, net, req, [], 0);
      DispatchFollowsChain(config, net, req, [], 0);
      if !IsFinal(policy, 0, outcome) {
        FetchBound(config, net, req, policy, sent1, 1);
      }
    }
  }

  /** After the caller's signal has fired, an attempt's error is `Aborted`, which no policy retries. */
  lemma AbortIsFinal(config: Config, net: nat -> Exchange, req: Request, policy: Option<Policy>, sent: seq<Sent>, attempt: nat)
    requires req.target.Url? && attempt < MaxAttempts(policy) && net(|sent|).callerAborted
    requires Dispatch(config, net, req, sent, 0).0.Err?
    ensures Attempts(config, net, req, policy, sent, attempt) == (Err(Aborted), Dispatch(config, net, req, sent, 0).1)
  {}

  /** Errors leave the client in one of four forms (or as the platform's own error for a URL that does not parse). */
  lemma ErrorsAreTranslated(config: Config, net: nat -> Exchange, req: Request, sent: seq<Sent>, redirects: nat)
    ensures
      var outcome := Dispatch(config, net, req, sent, redirects).0;
      outcome.Err? ==> if req.target.Malformed? then outcome.error == InvalidUrl else outcome.error in {Aborted, Timeout, TooLarge, Network}
  {}

  // ---------------------------------------------------------------------------------------------
  // What the answer is
  // ---------------------------------------------------------------------------------------------

  /** The reply can be handed to the caller: a body within the limits that is JSON if it says so, and no redirect to follow. */
  predicate IsReadable(config: Config, req: Request, raw: Raw, redirects: nat) {
    && (raw.contentLength.Some? ==> raw.contentLength.value <= config.maxResponseBytes)
    && raw.body.Ok? && raw.body.value.bytes <= config.maxResponseBytes && raw.body.value.parses
    && !Follows(config, req, raw, redirects)
  }

  /** A redirect that is followed, or that would be if its location were a URL. */
  predicate Follows(config: Config, req: Request, raw: Raw, redirects: nat) {
    && raw.status in {301, 302, 303, 307, 308} && (req.method_ == Get || req.method_ == Head)
    && raw.location.Some? && redirects < config.maxRedirects
    && (raw.location.value.Url? && req.target.Url? ==> raw.location.value.host == req.target.host)
  }

  /** One fetch of an attempt: it goes on exactly at a redirect it follows; else the reply, if readable, is the answer. */
  lemma OneFetch(config: Config, net: nat -> Exchange, req: Request, sent: seq<Sent>, redirects: nat)
    requires req.target.Url?
    ensures
      var exchange, (outcome, sent') := net(|sent|), Dispatch(config, net, req, sent, redirects);
      && sent + [Sent(req.method_, req.target)] <= sent'
      && (|sent'| > |sent| + 1 <==>
            exchange.reply.Ok? && Follows(config, req, exchange.reply.value, redirects) && exchange.reply.value.location.value.Url?)
      && (|sent'| == |sent| + 1 ==>
            && (outcome.Ok? <==> exchange.reply.Ok? && IsReadable(config, req, exchange.reply.value, redirects))
            && (outcome.Ok? ==> outcome.value == Response(exchange.reply.value.status, exchange.reply.value.body.value.text)))
  {
    DispatchFollowsChain(config, net, req, sent, redirects);
    var sent' := Dispatch(config, net, req, sent, redirects).1;
    if net(|sent|).reply.Ok? {
      var next := RedirectTarget(config, req, net(|sent|).reply.value, redirects);
      if next.Some? && next.value.Url? {
        DispatchFollowsChain(config, net, req.(target := next.value), sent + [Sent(req.method_, req.target)], redirects + 1);
      }
    }
    assert sent'[..|sent| + 1] == sent + [Sent(req.method_, req.target)];
  }

  /** An attempt that gives an answer gives the status and the text of the last reply it fetched. */
  lemma {:induction false} AnswerIsLastReply(config: Config, net: nat -> Exchange, req: Request, sent: seq<Sent>, redirects: nat, last: nat)
    requires req.target.Url? && |Dispatch(config, net, req, sent, redirects).1| == last + 1
    requires Dispatch(config, net, req, sent, redirects).0.Ok?
    ensures net(last).reply.Ok? && net(last).reply.value.body.Ok?
    ensures
      var raw := net(last).reply.value;
      && Dispatch(config, net, req, sent, redirects).0 == Ok(Response(raw.status, raw.body.value.text))
      && raw.body.value.bytes <= config.maxResponseBytes && raw.body.value.parses
    decreases Hops(config, redirects)
  {
    OneFetch(config, net, req, sent, redirects);
    if last > |sent| {
      var next := net(|sent|).reply.value.location.value;
      AnswerIsLastReply(config, net, req.(target := next), sent + [Sent(req.method_, req.target)], redirects + 1, last);
    }
  }

  predicate IsTooLarge(config: Config, raw: Raw)
    requires raw.body.Ok?
  {
    (raw.contentLength.Some? && raw.contentLength.value > config.maxResponseBytes) || raw.body.value.bytes > config.maxResponseBytes
  }

  /** The error of a fetch that ends an attempt, by what has happened: the signals come first. */
  lemma ErrorOfFetch(config: Config, net: nat -> Exchange, req: Request, sent: seq<Sent>, redirects: nat)
    requires req.target.Url? && |Dispatch(config, net, req, sent, redirects).1| == |sent| + 1
    requires Dispatch(config, net, req, sent, redirects).0.Err?
    ensures
      var exchange, error := net(|sent|), Dispatch(config, net, req, sent, redirects).0.error;
      if exchange.callerAborted then error == Aborted
      else if exchange.timedOut || exchange.reply == Err(NativeTimeout) then error == Timeout
      else if exchange.reply == Err(NativeAbort) then error == Aborted
      else if exchange.reply == Err(NativeOther) then error == Network
      else exchange.reply.Ok? && !Follows(config, req, exchange.reply.value, redirects) && exchange.reply.value.body.Ok? ==>
             error == if IsTooLarge(config, exchange.reply.value) then TooLarge else Network
  {}

  /** An outcome that a retry may mend: a status of 429 or 503, a timeout or a network error, as far as the policy names it. */
  predicate MayBeMended(outcome: Outcome, policy: Policy) {
    match outcome
    case Ok(response) => (response.status == 429 && On429 in policy.retryOn) || (response.status == 503 && On503 in policy.retryOn)
    case Err(error) => (error == Timeout && OnTimeout in policy.retryOn) || (error == Network && OnNetwork in policy.retryOn)
  }

  /** The policy of the request, else that of the scope, else two retries where sending twice does no harm, else none. */
  predicate Governs(config: Config, req: Request, policy: Option<Policy>) {
    if req.policy.Some? then policy == req.policy
    else if config.scopePolicy.Some? then policy == config.scopePolicy
    else if req.method_ == Get || req.method_ == Head || req.hasIdempotencyKey then
      policy.Some? && policy.value.maxRetries == 2 && policy.value.retryOn >= {OnNetwork, OnTimeout, On429, On503}
    else policy == None
  }

  /** A request goes on to another attempt exactly while its policy has retries left and the outcome may be mended. */
  lemma RetriedIff(config: Config, net: nat -> Exchange, req: Request, sent: seq<Sent>, attempt: nat)
    ensures Governs(config, req, ResolveRetry(config, req))
    ensures
      var policy := ResolveRetry(config, req);
      var (outcome, sent1) := Dispatch(config, net, req, sent, 0);
      if policy == None then Attempts(config, net, req, policy, sent, 0) == (outcome, sent1)
      else if attempt < policy.value.maxRetries && MayBeMended(outcome, policy.value)
      then Attempts(config, net, req, policy, sent, attempt) == Attempts(config, net, req, policy, sent1, attempt + 1)
      else attempt <= policy.value.maxRetries ==> Attempts(config, net, req, policy, sent, attempt) == (outcome, sent1)
  {}

  /** The whole body has arrived, within the limits, and is not JSON. */
  predicate IsUnparsable(config: Config, raw: Raw) {
    && (raw.contentLength.Some? ==> raw.contentLength.value <= config.maxResponseBytes)
    && raw.body.Ok? && raw.body.value.bytes <= config.maxResponseBytes && !raw.body.value.parses
  }

  /** An attempt whose last response, after any number of redirects, has such a body ends in a network error unless a signal has fired. */
  lemma {:induction false} UnparsableIsNetworkError(config: Config, net: nat -> Exchange, req: Request, sent: seq<Sent>, redirects: nat, last: nat)
    requires req.target.Url? && |Dispatch(config, net, req, sent, redirects).1| == last + 1
    requires net(last).reply.Ok? && IsUnparsable(config, net(last).reply.value)
    requires forall n: nat :: |sent| <= n <= last ==> !net(n).callerAborted && !net(n).timedOut
    ensures Dispatch(config, net, req, sent, redirects).0 == Err(Network)
    decreases Hops(config, redirects)
  {
    DispatchFollowsChain(config, net, req, sent, redirects);
    if net(|sent|).reply.Ok? {
      var next := RedirectTarget(config, req, net(|sent|).reply.value, redirects);
      if next.Some? && next.value.Url? {
        UnparsableIsNetworkError(config, net, req.(target := next.value), sent + [Sent(req.method_, req.target)], redirects + 1, last);
      }
    }
  }

  /** And it is retried as one. */
  lemma UnparsableIsRetried(config: Config, net: nat -> Exchange, req: Request, policy: Policy, sent: seq<Sent>, attempt: nat, last: nat)
    requires req.target.Url? && attempt < policy.maxRetries && |Dispatch(config, net, req, sent, 0).1| == last + 1
    requires net(last).reply.Ok? && IsUnparsable(config, net(last).reply.value)
    requires forall n: nat :: |sent| <= n <= last ==> !net(n).callerAborted && !net(n).timedOut
    ensures
      var sent1 := Dispatch(config, net, req, sent, 0).1;
      Attempts(config, net, req, Some(policy), sent, attempt) ==
      if OnNetwork in policy.retryOn then Attempts(config, net, req, Some(policy), sent1, attempt + 1) else (Err(Network), sent1)
  {
    UnparsableIsNetworkError(config, net, req, sent, 0, last);
  }

  /** The method triggers of a policy are never looked at: adding or dropping them changes nothing. */
  lemma {:induction false} MethodTriggersAreIgnored(config: Config, net: nat -> Exchange, req: Request, policy: Policy, retryOn: set<Trigger>,
                                                    sent: seq<Sent>, attempt: nat)
    requires policy.retryOn - {OnGet, OnHead} == retryOn - {OnGet, OnHead}
    ensures Attempts(config, net, req, Some(policy), sent, attempt) == Attempts(config, net, req, Some(policy.(retryOn := retryOn)), sent, attempt)
    decreases MaxAttempts(Some(policy)) - attempt
  {
    forall t | t in {OnNetwork, OnTimeout, On429, On503} ensures t in policy.retryOn <==> t in retryOn {
      assert t in policy.retryOn - {OnGet, OnHead} <==> t in retryOn - {OnGet, OnHead};
    }
    if attempt < MaxAttempts(Some(policy)) {
      var (outcome, sent1) := Dispatch(config, net, req, sent, 0);
      if !IsFinal(Some(policy), attempt, outcome) {
        MethodTriggersAreIgnored(config, net, req, policy, retryOn, sent1, attempt + 1);
      }
    }
  }
}
