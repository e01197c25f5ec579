/** Reference definitions for the endpoint load balancer: the endpoint records,
    the sliding-window rate limiter, the failure cooldown, one round-robin
    selection and the retry loop of a fetch, all as functions on values.
    The class in module LoadBalancer is proved to compute exactly these. */
module BalancerSpec {
  import opened Wrappers

  /** Tuning constants of the balancer. */
  const RATE_LIMIT_WINDOW: int := 10000   // milliseconds
  const RATE_LIMIT_MAX: int := 50         // requests per window
  const MAX_FAILURES: int := 3
  const FAILURE_COOLDOWN: int := 60000    // milliseconds
  const DEFAULT_RETRIES: int := 3

  /** An endpoint as the caller configures it. */
  datatype EndpointConfig = EndpointConfig(address: string, provider: string)

  /** An endpoint as the balancer keeps it: identity plus failure bookkeeping. */
  datatype Endpoint = Endpoint(address: string, provider: string, failures: nat, lastFailure: int)

  /** Everything a selection or a fetch reads and changes: the endpoint list,
      the round-robin cursor and the per-address request timestamps. */
  datatype State = State(endpoints: seq<Endpoint>, cursor: int, counts: map<string, seq<int>>)

  /** The cursor is a position in the list, or 0 when the list is empty. */
  ghost predicate ValidState(st: State) {
    if |st.endpoints| == 0 then st.cursor == 0 else 0 <= st.cursor < |st.endpoints|
  }

  /** Fresh bookkeeping for each configured endpoint, in configured order. */
  function InitialEndpoints(configs: seq<EndpointConfig>): (eps: seq<Endpoint>)
    ensures |eps| == |configs|
    ensures forall j :: 0 <= j < |configs| ==>
      eps[j].address == configs[j].address && eps[j].provider == configs[j].provider &&
      eps[j].failures == 0 && eps[j].lastFailure == 0
  {
    if configs == [] then []
    else [Endpoint(configs[0].address, configs[0].provider, 0, 0)] + InitialEndpoints(configs[1..])
  }

  function InitialState(configs: seq<EndpointConfig>): (st: State)
    ensures ValidState(st) && st.cursor == 0 && st.counts == map[]
  {
    State(InitialEndpoints(configs), 0, map[])
  }

  // ---------------------------------------------------------------------------
  // Rate limiter

  /** The timestamps recorded for an address; none when it was never used. */
  function Requests(counts: map<string, seq<int>>, address: string): seq<int> {
    if address in counts then counts[address] else []
  }

  /** The in-order subsequence of `ts` still inside the window at `now`. */
  function Recent(ts: seq<int>, now: int): (r: seq<int>)
    ensures |r| <= |ts|
  {
    if ts == [] then []
    else if now - ts[0] < RATE_LIMIT_WINDOW then [ts[0]] + Recent(ts[1..], now)
    else Recent(ts[1..], now)
  }

  /** The pruned log holds exactly the logged times inside the window. */
  lemma {:induction false} RecentMembers(ts: seq<int>, now: int)
    ensures forall t :: t in Recent(ts, now) <==> t in ts && now - t < RATE_LIMIT_WINDOW
  {
    if ts != [] {
      RecentMembers(ts[1..], now);
      assert forall t :: t in ts <==> t == ts[0] || t in ts[1..];
    }
  }

  /** Pruning keeps the order of the log: it distributes over concatenation. */
  lemma {:induction false} RecentConcat(xs: seq<int>, ys: seq<int>, now: int)
    ensures Recent(xs + ys, now) == Recent(xs, now) + Recent(ys, now)
  {
    if xs == [] {
      assert xs + ys == ys;
    } else {
      assert (xs + ys)[1..] == xs[1..] + ys;
      RecentConcat(xs[1..], ys, now);
    }
  }

  predicate RateLimited(counts: map<string, seq<int>>, address: string, now: int) {
    |Recent(Requests(counts, address), now)| >= RATE_LIMIT_MAX
  }

  /** The request log after the lazy pruning that a rate-limit check performs. */
  function Prune(counts: map<string, seq<int>>, address: string, now: int): map<string, seq<int>>
  {
    counts[address := Recent(Requests(counts, address), now)]
  }

  /** The request log after a request to `address` is sent at `now`. */
  function Record(counts: map<string, seq<int>>, address: string, now: int): map<string, seq<int>>
  {
    counts[address := Requests(counts, address) + [now]]
  }

  // ---------------------------------------------------------------------------
  // Selection

  /** The failure cooldown: three or more failures, the last one under a minute ago. */
  predicate CoolingDown(e: Endpoint, now: int) {
    e.failures >= MAX_FAILURES && now - e.lastFailure < FAILURE_COOLDOWN
  }

  /** Whether the selector would accept endpoint `j` at `now`. */
  predicate Eligible(st: State, j: int, now: int)
    requires 0 <= j < |st.endpoints|
  {
    !CoolingDown(st.endpoints[j], now) && !RateLimited(st.counts, st.endpoints[j].address, now)
  }

  /** The effect of examining one candidate, and whether it is accepted. */
  datatype Examined = Examined(endpoints: seq<Endpoint>, counts: map<string, seq<int>>, accepted: bool)

  function Examine(st: State, i: int, now: int): (r: Examined)
    requires 0 <= i < |st.endpoints|
    ensures |r.endpoints| == |st.endpoints|
    ensures forall j :: 0 <= j < |st.endpoints| && j != i ==> r.endpoints[j] == st.endpoints[j]
    ensures r.endpoints[i].address == st.endpoints[i].address
  {
    var e := st.endpoints[i];
    if CoolingDown(e, now) then Examined(st.endpoints, st.counts, false)
    else
      var eps := if e.failures >= MAX_FAILURES then st.endpoints[i := e.(failures := 0)] else st.endpoints;
      var counts := Prune(st.counts, e.address, now);
      Examined(eps, counts, |Requests(counts, e.address)| < RATE_LIMIT_MAX)
  }

  /** `%` on a value below twice the modulus subtracts it at most once. */
  lemma Wrap(a: int, n: int)
    requires 0 < n && 0 <= a < 2 * n
    ensures a % n == if a < n then a else a - n
  {
    if a >= n {
      assert a == 1 * n + (a - n);
    }
  }

  /** Endpoint identities never change: the list keeps its length and addresses. */
  ghost predicate SameAddresses(st: State, st': State) {
    |st'.endpoints| == |st.endpoints| &&
    forall j :: 0 <= j < |st.endpoints| ==> st'.endpoints[j].address == st.endpoints[j].address
  }

  /** The outcome of one selection: the chosen index, the new state, and how
      many candidates were examined. */
  datatype Selection = Selection(chosen: Option<nat>, state: State, examined: nat)

  /** The scan that examines candidates from the cursor on, `attempts` of
      them having been examined already; when every candidate is skipped it
      falls back to the first endpoint. */
  function Scan(st: State, attempts: nat, now: int): (r: Selection)
    requires ValidState(st) && 0 < |st.endpoints| && attempts <= |st.endpoints|
    decreases |st.endpoints| - attempts
    ensures ValidState(r.state) && |r.state.endpoints| == |st.endpoints|
    ensures r.chosen.Some? && r.chosen.value < |st.endpoints|
    ensures attempts <= r.examined <= |st.endpoints|
  {
    if attempts == |st.endpoints| then Selection(Some(0), st, attempts)
    else
      var next := Advanced(st, now);
      if Examine(st, st.cursor, now).accepted then Selection(Some(st.cursor), next, attempts + 1)
      else Scan(next, attempts + 1, now)
  }

  /** One call of the selector; it has nothing to choose only when the list is empty. */
  function Select(st: State, now: int): (r: Selection)
    requires ValidState(st)
    ensures ValidState(r.state) && |r.state.endpoints| == |st.endpoints|
    ensures r.chosen.Some? <==> |st.endpoints| > 0
    ensures r.chosen.Some? ==> r.chosen.value < |st.endpoints|
    ensures r.examined <= |st.endpoints|
  {
    if |st.endpoints| == 0 then Selection(None, st, 0) else Scan(st, 0, now)
  }

  /** The state after the candidate at the cursor is examined. */
  function Advanced(st: State, now: int): (next: State)
    requires ValidState(st) && 0 < |st.endpoints|
    ensures ValidState(next) && |next.endpoints| == |st.endpoints|
    ensures next.cursor == (st.cursor + 1) % |st.endpoints|
  {
    var ex := Examine(st, st.cursor, now);
    State(ex.endpoints, (st.cursor + 1) % |st.endpoints|, ex.counts)
  }

  /** A skipped candidate: the scan goes on from the advanced state. */
  lemma ScanSkips(st: State, attempts: nat, now: int)
    requires ValidState(st) && attempts < |st.endpoints|
    requires !Examine(st, st.cursor, now).accepted
    ensures Scan(st, attempts, now) == Scan(Advanced(st, now), attempts + 1, now)
  {
  }

  /** An accepted candidate ends the scan. */
  lemma ScanAccepts(st: State, attempts: nat, now: int)
    requires ValidState(st) && attempts < |st.endpoints|
    requires Examine(st, st.cursor, now).accepted
    ensures Scan(st, attempts, now) == Selection(Some(st.cursor), Advanced(st, now), attempts + 1)
  {
  }

  lemma {:induction false} ScanKeepsAddresses(st: State, attempts: nat, now: int)
    requires ValidState(st) && 0 < |st.endpoints| && attempts <= |st.endpoints|
    decreases |st.endpoints| - attempts
    ensures SameAddresses(st, Scan(st, attempts, now).state)
  {
    if attempts < |st.endpoints| {
      var ex := Examine(st, st.cursor, now);
      var next := State(ex.endpoints, (st.cursor + 1) % |st.endpoints|, ex.counts);
      if !ex.accepted {
        ScanKeepsAddresses(next, attempts + 1, now);
      }
    }
  }

  /** A selection never changes which addresses the list holds. */
  lemma SelectKeepsAddresses(st: State, now: int)
    requires ValidState(st)
    ensures SameAddresses(st, Select(st, now).state)
  {
    if |st.endpoints| > 0 {
      ScanKeepsAddresses(st, 0, now);
    }
  }

  // ---------------------------------------------------------------------------
  // Failure bookkeeping

  function MarkFailed(st: State, i: int, now: int): (st': State)
    requires 0 <= i < |st.endpoints|
    ensures |st'.endpoints| == |st.endpoints| && st'.cursor == st.cursor && st'.counts == st.counts
    ensures st'.endpoints[i].failures == st.endpoints[i].failures + 1
    ensures st'.endpoints[i].lastFailure == now
    ensures st'.endpoints[i].address == st.endpoints[i].address
    ensures st'.endpoints[i].provider == st.endpoints[i].provider
    ensures forall j :: 0 <= j < |st.endpoints| && j != i ==> st'.endpoints[j] == st.endpoints[j]
  {
    var e := st.endpoints[i];
    st.(endpoints := st.endpoints[i := e.(failures := e.failures + 1, lastFailure := now)])
  }

  function MarkSucceeded(st: State, i: int): (st': State)
    requires 0 <= i < |st.endpoints|
    ensures |st'.endpoints| == |st.endpoints| && st'.cursor == st.cursor && st'.counts == st.counts
    ensures st'.endpoints[i] == st.endpoints[i].(failures := 0)
    ensures forall j :: 0 <= j < |st.endpoints| && j != i ==> st'.endpoints[j] == st.endpoints[j]
  {
    var e := st.endpoints[i];
    if e.failures > 0 then st.(endpoints := st.endpoints[i := e.(failures := 0)]) else st
  }

  // ---------------------------------------------------------------------------
  // The retry loop of a fetch

  type Json = string

  /** What the network answers one request with: a status and a body that
      parses as JSON or not, or a transport error (including the timeout). */
  datatype Reply = Response(status: int, body: Option<Json>) | TransportFailure

  /** The clock reading and the reply of one attempt. */
  datatype Attempt = Attempt(now: int, reply: Reply)

  datatype FetchError =
    | NoAvailableEndpoints
    | HttpStatus(status: int)
    | TransportError
    | InvalidJson
    | AllEndpointsFailed

  datatype FetchResult = Success(data: Json) | Failure(error: FetchError)

  /** How the retry loop classifies a reply. */
  datatype Outcome = Delivered(data: Json) | Throttled | Failed(error: FetchError)

  function Classify(reply: Reply): (o: Outcome)
    ensures o.Throttled? <==> reply.Response? && reply.status == 429
    ensures o.Delivered? <==> reply.Response? && 200 <= reply.status <= 299 && reply.body.Some?
    ensures o.Delivered? ==> o.data == reply.body.value
  {
    match reply
    case TransportFailure => Failed(TransportError)
    case Response(status, body) =>
      if status == 429 then Throttled
      else if !(200 <= status <= 299) then Failed(HttpStatus(status))
      else if body.None? then Failed(InvalidJson)
      else Delivered(body.value)
  }

  /** One attempt against endpoint `i`: the request is logged at send time,
      then the endpoint's failure count is cleared on delivery or bumped otherwise. */
  function Attempted(st: State, i: int, now: int, outcome: Outcome): (st': State)
    requires 0 <= i < |st.endpoints|
    ensures |st'.endpoints| == |st.endpoints| && st'.cursor == st.cursor
    ensures st'.endpoints[i].address == st.endpoints[i].address
    ensures forall j :: 0 <= j < |st.endpoints| && j != i ==> st'.endpoints[j] == st.endpoints[j]
    ensures st'.counts == Record(st.counts, st.endpoints[i].address, now)
    ensures outcome.Delivered? ==> st'.endpoints[i].failures == 0
    ensures !outcome.Delivered? ==>
      st'.endpoints[i].failures == st.endpoints[i].failures + 1 && st'.endpoints[i].lastFailure == now
  {
    var logged := st.(counts := Record(st.counts, st.endpoints[i].address, now));
    if outcome.Delivered? then MarkSucceeded(logged, i) else MarkFailed(logged, i, now)
  }

  /** The result of a fetch: what it returns or throws, the final state, the
      endpoint index each attempt was sent to, and how many times it slept. */
  datatype Run = Run(result: FetchResult, state: State, sent: seq<nat>, sleeps: nat)

  /** The retry loop from a point where `|sent|` attempts have been made and
      `attemptsLeft` remain. */
  function FetchLoop(st: State, attemptsLeft: int, lastError: Option<FetchError>,
                     world: nat -> Attempt, sent: seq<nat>, sleeps: nat): (r: Run)
    requires ValidState(st)
    decreases attemptsLeft
    ensures ValidState(r.state) && |r.state.endpoints| == |st.endpoints|
  {
    if attemptsLeft <= 0 then
      Run(Failure(if lastError.Some? then lastError.value else AllEndpointsFailed), st, sent, sleeps)
    else
      var k := |sent|;
      var now := world(k).now;
      var sel := Select(st, now);
      if sel.chosen.None? then Run(Failure(NoAvailableEndpoints), sel.state, sent, sleeps)
      else
        var i := sel.chosen.value;
        var outcome := Classify(world(k).reply);
        var st' := Attempted(sel.state, i, now, outcome);
        if outcome.Delivered? then Run(Success(outcome.data), st', sent + [i], sleeps)
        else
          // a 429 keeps the previous error and never pauses; any other failure
          // becomes the last error and pauses when attempts remain
          var error := if outcome.Failed? then Some(outcome.error) else lastError;
          var pause := if outcome.Failed? && attemptsLeft - 1 > 0 then 1 else 0;
          FetchLoop(st', attemptsLeft - 1, error, world, sent + [i], sleeps + pause)
  }

  /** One turn of the retry loop, unfolded: a selection, an attempt, and
      either the delivered result or the rest of the loop. */
  lemma FetchLoopStep(st: State, attemptsLeft: int, lastError: Option<FetchError>,
                      world: nat -> Attempt, sent: seq<nat>, sleeps: nat, i: nat, st': State)
    requires ValidState(st) && attemptsLeft > 0
    requires Select(st, world(|sent|).now).chosen == Some(i)
    requires st' == Attempted(Select(st, world(|sent|).now).state, i, world(|sent|).now, Classify(world(|sent|).reply))
    ensures ValidState(st')
    ensures var outcome := Classify(world(|sent|).reply);
      FetchLoop(st, attemptsLeft, lastError, world, sent, sleeps) ==
      if outcome.Delivered? then Run(Success(outcome.data), st', sent + [i], sleeps)
      else FetchLoop(st', attemptsLeft - 1, if outcome.Failed? then Some(outcome.error) else lastError,
                     world, sent + [i], sleeps + if outcome.Failed? && attemptsLeft - 1 > 0 then 1 else 0)
  {
  }

  /** A whole fetch with a budget of `retries` attempts. */
  function Fetch(st: State, retries: int, world: nat -> Attempt): Run
    requires ValidState(st)
  {
    FetchLoop(st, retries, None, world, [], 0)
  }
}
