/** The load balancer as the program runs it: an object whose methods update
    its endpoint list, cursor and request log in place, and the process-wide
    registry of balancers keyed by chain name. Every method is proved to
    compute what module BalancerSpec defines. */
module LoadBalancer {
  import opened Wrappers
  import opened BalancerSpec

  /** One row of the statistics report. */
  datatype EndpointStats = EndpointStats(address: string, provider: string, failures: nat, healthy: bool)

  datatype BalancerStats = BalancerStats(endpoints: seq<EndpointStats>, currentIndex: int)

  class APILoadBalancer {
    var endpoints: seq<Endpoint>
    var currentIndex: int
    var requestCounts: map<string, seq<int>>

    /** The abstract value of the balancer. */
    function Snapshot(): State
      reads this
    {
      State(endpoints, currentIndex, requestCounts)
    }

    ghost predicate Valid()
      reads this
    {
      ValidState(Snapshot())
    }

    /** Copies each configured endpoint with zeroed failure bookkeeping. */
    constructor (configs: seq<EndpointConfig>)
      ensures Valid()
      ensures Snapshot() == InitialState(configs)
    {
      var eps: seq<Endpoint> := [];
      var j := 0;
      while j < |configs|
        invariant 0 <= j <= |configs| && |eps| == j
        invariant forall k :: 0 <= k < j ==> eps[k] == Endpoint(configs[k].address, configs[k].provider, 0, 0)
      {
        eps := eps + [Endpoint(configs[j].address, configs[j].provider, 0, 0)];
        j := j + 1;
      }
      endpoints := eps;
      currentIndex := 0;
      requestCounts := map[];
    }

    /** Prunes the address's log to the window and reports whether it is full. */
    method IsRateLimited(address: string, now: int) returns (limited: bool)
      modifies this`requestCounts
      ensures requestCounts == Prune(old(requestCounts), address, now)
      ensures limited == RateLimited(old(requestCounts), address, now)
    {
      var requests := if address in requestCounts then requestCounts[address] else [];
      var recent := [];
      var j := 0;
      while j < |requests|
        invariant 0 <= j <= |requests|
        invariant recent == Recent(requests[..j], now)
        invariant requestCounts == old(requestCounts)
      {
        RecentSnoc(requests[..j], requests[j], now);
        assert requests[..j + 1] == requests[..j] + [requests[j]];
        if now - requests[j] < RATE_LIMIT_WINDOW {
          recent := recent + [requests[j]];
        }
        j := j + 1;
      }
      assert requests[..|requests|] == requests;
      assert requests == Requests(requestCounts, address);
      requestCounts := requestCounts[address := recent];
      limited := |recent| >= RATE_LIMIT_MAX;
    }

    /** Appends `now` to the address's log. */
    method RecordRequest(address: string, now: int)
      modifies this`requestCounts
      ensures requestCounts == Record(old(requestCounts), address, now)
    {
      var requests := if address in requestCounts then requestCounts[address] else [];
      requestCounts := requestCounts[address := requests + [now]];
    }

    method MarkFailure(i: nat, now: int)
      requires i < |endpoints|
      modifies this`endpoints
      ensures Snapshot() == MarkFailed(old(Snapshot()), i, now)
    {
      var e := endpoints[i];
      endpoints := endpoints[i := e.(failures := e.failures + 1, lastFailure := now)];
    }

    method MarkSuccess(i: nat)
      requires i < |endpoints|
      modifies this`endpoints
      ensures Snapshot() == MarkSucceeded(old(Snapshot()), i)
    {
      var e := endpoints[i];
      if e.failures > 0 {
        endpoints := endpoints[i := e.(failures := 0)];
      }
    }

    /** The body of one attempt: log the request, classify the reply, and
        update the endpoint's failure count. */
    method TryEndpoint(i: nat, now: int, reply: Reply) returns (outcome: Outcome)
      requires Valid() && i < |endpoints|
      modifies this
      ensures Valid()
      ensures outcome == Classify(reply)
      ensures Snapshot() == Attempted(old(Snapshot()), i, now, outcome)
    {
      RecordRequest(endpoints[i].address, now);
      outcome := Classify(reply);
      if outcome.Delivered? {
        MarkSuccess(i);
      } else {
        MarkFailure(i, now);
      }
    }

    /** One turn of the selection loop: examine the endpoint at the cursor,
        advance the cursor, clear an expired cooldown and prune the
        endpoint's request log; say whether it may take the request. */
    method ExamineCandidate(now: int) returns (i: nat, accepted: bool)
      requires Valid() && 0 < |endpoints|
      modifies this
      ensures Valid()
      ensures i == old(currentIndex)
      ensures accepted == Examine(old(Snapshot()), i, now).accepted
      ensures Snapshot() == Advanced(old(Snapshot()), now)
    {
      ghost var pre := Snapshot();
      i := currentIndex;
      var endpoint := endpoints[i];
      currentIndex := (currentIndex + 1) % |endpoints|;
      ghost var ex := Examine(pre, i, now);
      if endpoint.failures >= MAX_FAILURES {
        if now - endpoint.lastFailure < FAILURE_COOLDOWN {
          return i, false;
        }
        endpoints := endpoints[i := endpoint.(failures := 0)];
      }
      assert endpoints == ex.endpoints;
      var limited := IsRateLimited(endpoint.address, now);
      accepted := !limited;
    }

    /** Round-robin selection with cooldown and rate-limit exclusion. */
    method GetNextEndpoint(now: int) returns (chosen: Option<nat>)
      requires Valid()
      modifies this
      ensures Valid()
      ensures chosen == Select(old(Snapshot()), now).chosen
      ensures Snapshot() == Select(old(Snapshot()), now).state
    {
      ghost var start := Snapshot();
      var attempts := 0;
      while attempts < |endpoints|
        invariant Valid() && |endpoints| == |start.endpoints|
        invariant 0 <= attempts <= |endpoints|
        invariant |endpoints| > 0 ==> Scan(Snapshot(), attempts, now) == Scan(start, 0, now)
        invariant |endpoints| == 0 ==> Snapshot() == start
      {
        ghost var pre := Snapshot();
        var i, accepted := ExamineCandidate(now);
        if !accepted {
          ScanSkips(pre, attempts, now);
          attempts := attempts + 1;
          continue;
        }
        ScanAccepts(pre, attempts, now);
        return Some(i);
      }
      if |endpoints| > 0 {
        chosen := Some(0);
      } else {
        chosen := None;
      }
    }

    /** Sends the request to successive endpoints until one answers with
        parsed data or the budget of `retries` attempts is spent. The clock
        reading and the reply of attempt number k are `world(k)`. Also
        returns the index of the endpoint each attempt went to, in order, and
        the number of pauses between attempts. */
    method Fetch(retries: int, world: nat -> Attempt)
      returns (result: FetchResult, sent: seq<nat>, sleeps: nat)
      requires Valid()
      modifies this
      ensures Valid()
      ensures var run := BalancerSpec.Fetch(old(Snapshot()), retries, world);
        result == run.result && Snapshot() == run.state && sent == run.sent && sleeps == run.sleeps
    {
      ghost var start := Snapshot();
      var lastError: Option<FetchError> := None;
      var attemptsLeft := retries;
      sent := [];
      sleeps := 0;
      while attemptsLeft > 0
        invariant Valid()
        invariant FetchLoop(Snapshot(), attemptsLeft, lastError, world, sent, sleeps) ==
                  FetchLoop(start, retries, None, world, [], 0)
        decreases attemptsLeft
      {
        ghost var pre := Snapshot();
        var now := world(|sent|).now;
        var choice := GetNextEndpoint(now);
        if choice.None? {
          return Failure(NoAvailableEndpoints), sent, sleeps;
        }
        var i := choice.value;
        var outcome := TryEndpoint(i, now, world(|sent|).reply);
        FetchLoopStep(pre, attemptsLeft, lastError, world, sent, sleeps, i, Snapshot());
        sent := sent + [i];
        if outcome.Delivered? {
          return Success(outcome.data), sent, sleeps;
        }
        if outcome.Failed? {
          lastError := Some(outcome.error);
        }
        attemptsLeft := attemptsLeft - 1;
        if outcome.Failed? && attemptsLeft > 0 {
          sleeps := sleeps + 1;
        }
      }
      result := Failure(if lastError.Some? then lastError.value else AllEndpointsFailed);
    }

    /** The statistics report; an endpoint counts as healthy below the failure threshold. */
    function GetStats(): (s: BalancerStats)
      reads this
      ensures s.currentIndex == currentIndex && |s.endpoints| == |endpoints|
      ensures forall j :: 0 <= j < |endpoints| ==>
        s.endpoints[j].address == endpoints[j].address &&
        s.endpoints[j].provider == endpoints[j].provider &&
        s.endpoints[j].failures == endpoints[j].failures &&
        (s.endpoints[j].healthy <==> endpoints[j].failures < MAX_FAILURES)
    {
      BalancerStats(StatsRows(endpoints), currentIndex)
    }
  }

  function StatsRows(eps: seq<Endpoint>): (rows: seq<EndpointStats>)
    ensures |rows| == |eps|
    ensures forall j :: 0 <= j < |eps| ==>
      rows[j] == EndpointStats(eps[j].address, eps[j].provider, eps[j].failures, eps[j].failures < MAX_FAILURES)
  {
    if eps == [] then []
    else [EndpointStats(eps[0].address, eps[0].provider, eps[0].failures, eps[0].failures < MAX_FAILURES)]
         + StatsRows(eps[1..])
  }

  lemma RecentSnoc(ts: seq<int>, t: int, now: int)
    ensures Recent(ts + [t], now) ==
            Recent(ts, now) + (if now - t < RATE_LIMIT_WINDOW then [t] else [])
  {
    RecentConcat(ts, [t], now);
  }

  /** The two balancers registered for one chain. */
  datatype Pair = Pair(api: APILoadBalancer, rpc: APILoadBalancer)

  /** The process-wide map from chain name to its pair of balancers. */
  class Registry {
    var balancers: map<string, Pair>
    ghost var Repr: set<object>
    /** The chain each registered balancer was built for. */
    ghost var owner: map<object, string>

    ghost predicate Valid()
      reads this, Repr
    {
      forall chain :: chain in balancers ==>
        balancers[chain].api in Repr && balancers[chain].rpc in Repr &&
        balancers[chain].api != balancers[chain].rpc &&
        // each balancer belongs to exactly one chain, so no two chains share one
        balancers[chain].api in owner && owner[balancers[chain].api] == chain &&
        balancers[chain].rpc in owner && owner[balancers[chain].rpc] == chain &&
        balancers[chain].api.Valid() && balancers[chain].rpc.Valid()
    }

    constructor ()
      ensures Valid() && balancers == map[] && Repr == {}
    {
      balancers := map[];
      Repr := {};
      owner := map[];
    }

    /** The first lookup of a chain builds its pair; later lookups return it
        and ignore the endpoint lists they pass. */
    method GetLoadBalancer(chain: string, apiEndpoints: seq<EndpointConfig>, rpcEndpoints: seq<EndpointConfig>)
      returns (pair: Pair)
      requires Valid()
      modifies this
      ensures Valid() && chain in balancers && pair == balancers[chain]
      ensures balancers.Keys == old(balancers.Keys) + {chain} && fresh(Repr - old(Repr))
      ensures forall c :: c in old(balancers) ==> balancers[c] == old(balancers[c])
      ensures forall c :: c in balancers && c != chain ==>
        pair.api != balancers[c].api && pair.api != balancers[c].rpc &&
        pair.rpc != balancers[c].api && pair.rpc != balancers[c].rpc
      ensures chain in old(balancers) ==> balancers == old(balancers) && Repr == old(Repr)
      ensures chain !in old(balancers) ==>
        fresh(pair.api) && fresh(pair.rpc) && pair.api != pair.rpc &&
        pair.api.Snapshot() == InitialState(apiEndpoints) &&
        pair.rpc.Snapshot() == InitialState(rpcEndpoints) &&
        balancers == old(balancers)[chain := pair] && Repr == old(Repr) + {pair.api, pair.rpc}
    {
      if chain !in balancers {
        var api := new APILoadBalancer(apiEndpoints);
        var rpc := new APILoadBalancer(rpcEndpoints);
        Register(chain, api, rpc);
      }
      pair := balancers[chain];
    }

    /** Records a new chain with its two newly built balancers. */
    method Register(chain: string, api: APILoadBalancer, rpc: APILoadBalancer)
      requires Valid() && chain !in balancers
      requires api.Valid() && rpc.Valid() && api != rpc
      requires api !in Repr && rpc !in Repr && api !in owner && rpc !in owner
      modifies this
      ensures Valid()
      ensures balancers == old(balancers)[chain := Pair(api, rpc)] && Repr == old(Repr) + {api, rpc}
    {
      balancers := balancers[chain := Pair(api, rpc)];
      Repr := Repr + {api, rpc};
      owner := owner[api := chain][rpc := chain];
    }

    /** A fetch through one registered balancer with the default budget;
        no other balancer and no registration changes. */
    method FetchThrough(b: APILoadBalancer, world: nat -> Attempt) returns (result: FetchResult)
      requires Valid() && b in Repr && b.Valid()
      modifies b
      ensures Valid()
      ensures var run := BalancerSpec.Fetch(old(b.Snapshot()), DEFAULT_RETRIES, world);
        result == run.result && b.Snapshot() == run.state
      ensures forall x: APILoadBalancer :: x in Repr && x != b ==> x.Snapshot() == old(x.Snapshot())
    {
      var sent, sleeps;
      result, sent, sleeps := b.Fetch(DEFAULT_RETRIES, world);
    }

    /** Fetches through the chain's API balancer, registering the chain with
        no RPC endpoints when it is new. */
    method FetchFromAPI(chain: string, apiEndpoints: seq<EndpointConfig>, world: nat -> Attempt)
      returns (result: FetchResult)
      requires Valid()
      modifies this, Repr
      ensures Valid() && chain in balancers && balancers.Keys == old(balancers.Keys) + {chain}
      ensures fresh(Repr - old(Repr))
      ensures chain !in old(balancers) ==>
        balancers[chain].rpc.Snapshot() == InitialState([]) &&
        var run := BalancerSpec.Fetch(InitialState(apiEndpoints), DEFAULT_RETRIES, world);
        result == run.result && balancers[chain].api.Snapshot() == run.state
      ensures chain in old(balancers) ==>
        balancers == old(balancers) &&
        var run := BalancerSpec.Fetch(old(balancers[chain].api.Snapshot()), DEFAULT_RETRIES, world);
        result == run.result && balancers[chain].api.Snapshot() == run.state
      ensures forall c :: c in old(balancers) ==> balancers[c] == old(balancers[c])
      ensures chain !in old(balancers) ==> fresh(balancers[chain].api) && fresh(balancers[chain].rpc)
      ensures forall b: APILoadBalancer :: b in old(Repr) && b != balancers[chain].api ==>
        b.Snapshot() == old(b.Snapshot())
      ensures forall c :: c in old(balancers) && c != chain ==>
        balancers[c].api.Snapshot() == old(balancers[c].api.Snapshot()) &&
        balancers[c].rpc.Snapshot() == old(balancers[c].rpc.Snapshot())
    {
      var pair := GetLoadBalancer(chain, apiEndpoints, []);
      result := FetchThrough(pair.api, world);
    }

    /** Fetches through the chain's RPC balancer, registering the chain with
        no API endpoints when it is new. */
    method FetchFromRPC(chain: string, rpcEndpoints: seq<EndpointConfig>, world: nat -> Attempt)
      returns (result: FetchResult)
      requires Valid()
      modifies this, Repr
      ensures Valid() && chain in balancers && balancers.Keys == old(balancers.Keys) + {chain}
      ensures fresh(Repr - old(Repr))
      ensures chain !in old(balancers) ==>
        balancers[chain].api.Snapshot() == InitialState([]) &&
        var run := BalancerSpec.Fetch(InitialState(rpcEndpoints), DEFAULT_RETRIES, world);
        result == run.result && balancers[chain].rpc.Snapshot() == run.state
      ensures chain in old(balancers) ==>
        balancers == old(balancers) &&
        var run := BalancerSpec.Fetch(old(balancers[chain].rpc.Snapshot()), DEFAULT_RETRIES, world);
        result == run.result && balancers[chain].rpc.Snapshot() == run.state
      ensures forall c :: c in old(balancers) ==> balancers[c] == old(balancers[c])
      ensures chain !in old(balancers) ==> fresh(balancers[chain].api) && fresh(balancers[chain].rpc)
      ensures forall b: APILoadBalancer :: b in old(Repr) && b != balancers[chain].rpc ==>
        b.Snapshot() == old(b.Snapshot())
      ensures forall c :: c in old(balancers) && c != chain ==>
        balancers[c].api.Snapshot() == old(balancers[c].api.Snapshot()) &&
        balancers[c].rpc.Snapshot() == old(balancers[c].rpc.Snapshot())
    {
      var pair := GetLoadBalancer(chain, [], rpcEndpoints);
      result := FetchThrough(pair.rpc, world);
    }

    /** A chain first registered by an API fetch keeps an RPC balancer with
        no endpoints however many API fetches follow: a later RPC fetch
        ignores the endpoints it passes and throws "no available endpoints". */
    method RpcAfterApiRegistration(chain: string, apiEndpoints: seq<EndpointConfig>,
                                   rpcEndpoints: seq<EndpointConfig>,
                                   first: nat -> Attempt, second: nat -> Attempt, third: nat -> Attempt)
      returns (apiResult: FetchResult, rpcResult: FetchResult)
      requires Valid() && chain !in balancers
      modifies this, Repr
      ensures apiResult == BalancerSpec.Fetch(InitialState(apiEndpoints), DEFAULT_RETRIES, first).result
      ensures rpcResult == Failure(NoAvailableEndpoints)
    {
      apiResult := FetchFromAPI(chain, apiEndpoints, first);
      var again := FetchFromAPI(chain, apiEndpoints, second);
      rpcResult := FetchFromRPC(chain, rpcEndpoints, third);
    }

    /** The statistics of both balancers of a chain, or nothing for an unknown chain. */
    function GetLoadBalancerStats(chain: string): (s: Option<(BalancerStats, BalancerStats)>)
      reads this, Repr
      requires Valid()
      ensures s.None? <==> chain !in balancers
      ensures s.Some? ==> s.value.0.currentIndex == balancers[chain].api.currentIndex &&
                          |s.value.0.endpoints| == |balancers[chain].api.endpoints| &&
                          s.value.1.currentIndex == balancers[chain].rpc.currentIndex &&
                          |s.value.1.endpoints| == |balancers[chain].rpc.endpoints|
    {
      if chain !in balancers then None
      else Some((balancers[chain].api.GetStats(), balancers[chain].rpc.GetStats()))
    }

    /** Forgets one chain's balancers. */
    method ClearLoadBalancer(chain: string)
      requires Valid()
      modifies this
      ensures Valid() && balancers == old(balancers) - {chain} && Repr == old(Repr)
    {
      balancers := balancers - {chain};
    }
  }
}
