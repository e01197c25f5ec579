# Multi-endpoint load balancer and Keplr chain conversion

This project models, in Dafny, the resilient request dispatcher of a Cosmos
blockchain explorer, together with the conversion of a chain record into the
description the Keplr wallet expects.

The dispatcher is the `APILoadBalancer` class of `lib/loadBalancer.ts`. It holds
an ordered list of equivalent node endpoints, each with:

- a failure counter,
- the time of its last failure,
- a per-address log of request times.

A fetch uses these in four steps:

- It selects endpoints round-robin from a cursor.
- It skips an endpoint that is cooling down (three or more failures, the last
  under a minute ago). An expired cooldown is cleared the first time the
  endpoint is examined.
- It skips an endpoint whose address has 50 or more requests in the last
  10 seconds. If every endpoint is skipped, it falls back to the first one.
- It retries up to a budget of attempts (3 by default), pausing 500 ms after a
  failure that leaves attempts to spend. A 429 reply counts as a failure of its
  endpoint, but it is not remembered as the error to report and is not followed
  by a pause.

A process-wide registry maps each chain name to a pair of balancers, one for
REST API nodes and one for RPC nodes. The first lookup of a chain builds the
pair from the lists it is given; later lookups ignore their lists.

The model is split into five modules:

- `BalancerSpec` (`balancer_spec.dfy`) defines the balancer's state and every
  operation as functions on values:
  - `Select`: one round-robin selection;
  - `Attempted`: one request and its failure bookkeeping;
  - `FetchLoop`/`Fetch`: the whole retry loop.
- `LoadBalancer` (`balancer.dfy`) is the imperative model:
  - class `APILoadBalancer`: its fields are updated in place by methods that
    follow the source's statements and loops;
  - class `Registry`: the map from chain names to balancer pairs.

  Every `APILoadBalancer` method's postcondition says that the new state,
  and the result, are exactly what the `BalancerSpec` function gives for the
  old state. The registry's methods are stated on its map: a lookup adds a
  pair of newly built balancers only for a new chain, and a clear removes
  exactly one chain. Its two fetches give the result and new state that
  `BalancerSpec.Fetch` defines for the chosen balancer. They also say that
  every other chain keeps its entry and its balancers' states. No two chains
  ever share a balancer object.
- `BalancerProperties` (`balancer_props.dfy`) proves what those definitions
  promise:
  - the rate window;
  - the first-eligible rule and the fallback of a selection;
  - round-robin fairness;
  - which endpoints a fetch sends to, what it returns, how many attempts it
    makes and how often it pauses.
- `Keplr` (`keplr.dfy`) models `convertChainToKeplr`.
- `Wrappers` (`wrappers.dfy`) holds the `Option` type that the others share.

The network is a parameter `world: nat -> Attempt`. For attempt number `k` of a
fetch it gives the clock reading (`world(k).now`) and the reply
(`world(k).reply`). A reply is either a status code with a body that parses as
JSON (or does not), or a transport failure, which includes the 15-second
timeout. The pause between attempts is not timed: it is counted, in `sleeps`.
Each attempt also records which endpoint it went to, in `sent`.

Points of the code worth noting, all modelled as written:

- After a failed budget, the error thrown is the last one that was not a 429.
  If every failure was a 429, it is the generic "all endpoints failed" error.
  A 429 never becomes that error, even when it is the most recent failure.
- There is no pause after a 429.
- A budget of zero or less throws the generic error without selecting.
- `clearLoadBalancer` makes the registry forget a chain, so the next lookup
  builds a new pair.

A consequence of the registry's first-registration rule is proved as
`Registry.RpcAfterApiRegistration`:

- A chain first seen by `fetchFromAPI` gets an RPC balancer with no endpoints.
- Every later `fetchFromRPC` for that chain therefore throws "no available
  endpoints", whatever RPC endpoints it passes, until `clearLoadBalancer`
  forgets the chain.

## Model

| member | source | states |
|---|---|---|
| BalancerSpec.InitialEndpoints | lib/loadBalancer.ts:23-30 | each configured endpoint is copied in order with its address and provider, zero failures and last failure 0 |
| BalancerSpec.InitialState | lib/loadBalancer.ts:15-30 | a new balancer has the cursor at 0 and an empty request log |
| BalancerSpec.RecentMembers | lib/loadBalancer.ts:52-54 | the pruned log holds exactly the logged times less than the window before `now` |
| BalancerSpec.RecentConcat | lib/loadBalancer.ts:52-54 | the pruning filter keeps the order of the log (it distributes over concatenation) |
| BalancerSpec.Examine | lib/loadBalancer.ts:35-45 | examining one candidate changes at most that endpoint and never its address |
| BalancerSpec.Scan | lib/loadBalancer.ts:34-47 | the scan always yields an index of the list, keeps the list's length and examines at most every endpoint once |
| BalancerSpec.Select | lib/loadBalancer.ts:31-48 | a selection yields nothing exactly when the list is empty, otherwise an index of the list |
| BalancerSpec.Advanced | lib/loadBalancer.ts:35-36 | the cursor moves one place round the list, `(cursor + 1) % n`, and the list keeps its length |
| BalancerSpec.SelectKeepsAddresses | lib/loadBalancer.ts:31-48 | a selection never changes which address is at which position |
| BalancerSpec.MarkFailed | lib/loadBalancer.ts:63-70 | a failure adds one to that endpoint's count and stamps its time; nothing else changes |
| BalancerSpec.MarkSucceeded | lib/loadBalancer.ts:71-76 | a success clears that endpoint's failures; nothing else changes |
| BalancerSpec.Classify | lib/loadBalancer.ts:95-104 | a reply is throttled iff its status is 429, and delivers iff its status is 2xx and its body parses, returning that body |
| BalancerSpec.Attempted | lib/loadBalancer.ts:90-108 | one attempt logs the request at send time, then clears the endpoint's failures on delivery or adds one and stamps the time otherwise |
| BalancerSpec.FetchLoop | lib/loadBalancer.ts:84-113 | the retry loop keeps the state valid and the list's length |
| BalancerSpec.FetchLoopStep | lib/loadBalancer.ts:84-112 | the one-step unfolding of `FetchLoop`: select, attempt, then return the data or continue with one attempt fewer, the last non-429 error and a pause after a failure that leaves attempts |
| LoadBalancer.APILoadBalancer.constructor | lib/loadBalancer.ts:23-30 | the new balancer's state is `InitialState` of its configuration |
| LoadBalancer.APILoadBalancer.IsRateLimited | lib/loadBalancer.ts:49-57 | the address's log is replaced by its pruned form and the answer is whether 50 or more requests remain |
| LoadBalancer.APILoadBalancer.RecordRequest | lib/loadBalancer.ts:58-62 | the current time is appended to the address's log |
| LoadBalancer.APILoadBalancer.MarkFailure | lib/loadBalancer.ts:63-70 | the new state is `MarkFailed` of the old |
| LoadBalancer.APILoadBalancer.MarkSuccess | lib/loadBalancer.ts:71-76 | the new state is `MarkSucceeded` of the old |
| LoadBalancer.APILoadBalancer.TryEndpoint | lib/loadBalancer.ts:90-108 | the outcome is the reply's classification and the new state is `Attempted` of the old |
| LoadBalancer.APILoadBalancer.ExamineCandidate | lib/loadBalancer.ts:35-45 | one turn of the selection loop returns the old cursor, whether that candidate is accepted, and the advanced state |
| LoadBalancer.APILoadBalancer.GetNextEndpoint | lib/loadBalancer.ts:31-48 | the loop returns the endpoint and leaves the state that `Select` defines for the old state |
| LoadBalancer.APILoadBalancer.Fetch | lib/loadBalancer.ts:77-114 | the loop's result, final state, endpoints sent to and pauses are those `Fetch` defines for the old state |
| LoadBalancer.APILoadBalancer.GetStats | lib/loadBalancer.ts:146-157 | one row per endpoint with its address, provider and failures, healthy iff below three failures, plus the cursor |
| LoadBalancer.StatsRows | lib/loadBalancer.ts:148-154 | the report's rows match the endpoints one for one |
| LoadBalancer.RecentSnoc | lib/loadBalancer.ts:52-54 | the filter over a log extended by one time is the old filter plus that time when it is inside the window |
| LoadBalancer.Registry.constructor | lib/loadBalancer.ts:159 | the registry starts empty |
| LoadBalancer.Registry.GetLoadBalancer | lib/loadBalancer.ts:160-179 | a new chain gets two fresh, distinct balancers built from its lists; a known chain gets its pair back and nothing changes; entries already registered keep their pairs, and the returned pair shares no balancer with any other chain |
| LoadBalancer.Registry.Register | lib/loadBalancer.ts:165-169 | the new chain's pair is added to the map and its two balancers to the registry, which stays valid: no balancer is shared between chains |
| LoadBalancer.Registry.FetchThrough | lib/loadBalancer.ts:187 | a registered balancer fetches with the default budget of three attempts, and no other balancer of the registry changes |
| LoadBalancer.Registry.FetchFromAPI | lib/loadBalancer.ts:180-188 | registers the chain with no RPC endpoints if it is new, then the result and the API balancer's state are those of a default fetch from its state before; a new chain's two balancers are fresh; every entry already registered and every other balancer is unchanged, in particular both balancers of every other chain |
| LoadBalancer.Registry.FetchFromRPC | lib/loadBalancer.ts:189-197 | registers the chain with no API endpoints if it is new, then the result and the RPC balancer's state are those of a default fetch from its state before; a new chain's two balancers are fresh; every entry already registered and every other balancer is unchanged, in particular both balancers of every other chain |
| LoadBalancer.Registry.RpcAfterApiRegistration | lib/loadBalancer.ts:160-197 | after an API fetch registers a chain and another API fetch follows, an RPC fetch for it throws "no available endpoints" whatever endpoints it passes |
| LoadBalancer.Registry.GetLoadBalancerStats | lib/loadBalancer.ts:198-205 | nothing exactly for an unknown chain; for a known chain, a report per balancer with its cursor and one row per endpoint |
| LoadBalancer.Registry.ClearLoadBalancer | lib/loadBalancer.ts:206-207 | exactly that chain is forgotten |
| BalancerProperties.RecentLater | lib/loadBalancer.ts:52-55 | pruning now and pruning again later equals pruning once later |
| BalancerProperties.WindowShrinks | lib/loadBalancer.ts:52-56 | the count inside the window never grows as time passes |
| BalancerProperties.RecordCountsOne | lib/loadBalancer.ts:58-62 | recording a request adds exactly one to that address's window and leaves every other address's log alone |
| BalancerProperties.FiftiethRequestLimits | lib/loadBalancer.ts:56 | with 49 requests in the window an address is not limited, and after one more recorded request it is |
| BalancerProperties.WindowExpires | lib/loadBalancer.ts:52-56 | once the window has passed every logged request, the address's window is empty |
| BalancerProperties.PruneKeepsVerdicts | lib/loadBalancer.ts:49-57 | the pruning a check performs changes no rate-limit verdict, now or later |
| BalancerProperties.ExamineEffect | lib/loadBalancer.ts:38-46 | a candidate is accepted iff it is neither cooling down nor rate-limited, and examining it clears an expired cooldown of that endpoint only |
| BalancerProperties.EligibleLater | lib/loadBalancer.ts:38-45 | an eligible endpoint stays eligible at any later time |
| BalancerProperties.AdvanceKeepsVerdict | lib/loadBalancer.ts:35-45 | examining the candidate at the cursor changes no eligibility verdict at that time or later |
| BalancerProperties.ScanCursor | lib/loadBalancer.ts:34-37 | the scan moves the cursor past exactly the candidates it examines |
| BalancerProperties.ScanKeepsEligibility | lib/loadBalancer.ts:34-47 | the scan changes no eligibility verdict at its time or later |
| BalancerProperties.ScanPassesIneligible | lib/loadBalancer.ts:38-45 | every candidate skipped before the one the scan ends on is ineligible |
| BalancerProperties.ScanChoosesFirstEligible | lib/loadBalancer.ts:34-47 | the scan ends on the first eligible candidate, or on the first endpoint when none of them is eligible |
| BalancerProperties.SelectChoosesFirstEligible | lib/loadBalancer.ts:31-48 | a selection returns the first eligible endpoint from the cursor on and moves the cursor just past it; with none eligible it returns the first endpoint and the cursor comes back; nothing only for an empty list |
| BalancerProperties.AllExcludedFallsBack | lib/loadBalancer.ts:47 | with every endpoint excluded, the first endpoint is returned after examining all of them |
| BalancerProperties.EligibleAtCursorIsChosen | lib/loadBalancer.ts:35-46 | an eligible endpoint at the cursor is the one returned, and the cursor moves one place |
| BalancerProperties.SelectKeepsEligibility | lib/loadBalancer.ts:31-48 | a selection changes no eligibility verdict at its time or later |
| BalancerProperties.ScanResets | lib/loadBalancer.ts:38-43 | the scan clears the expired cooldowns of exactly the candidates it examines and leaves every other endpoint as it was |
| BalancerProperties.SelectResets | lib/loadBalancer.ts:31-48 | after a selection each endpoint is reset or unchanged according to whether it was examined |
| BalancerProperties.RoundRobin | lib/loadBalancer.ts:31-48 | while every endpoint is eligible, successive selections from cursor c return c, c+1, ... modulo n in configured order |
| BalancerProperties.FirstDelivery | lib/loadBalancer.ts:95-104 | the first attempt in a range whose reply delivers, every earlier one not delivering |
| BalancerProperties.LoopSends | lib/loadBalancer.ts:84-112 | the loop makes at least one and at most its budget of attempts and only appends to the attempt record |
| BalancerProperties.LoopTargets | lib/loadBalancer.ts:85-91 | every attempt goes to an endpoint of the list |
| BalancerProperties.LoopFollowsReplies | lib/loadBalancer.ts:84-113 | on a non-empty list the result, the attempt count and the pauses depend on the replies alone |
| BalancerProperties.LoopDeliveryClears | lib/loadBalancer.ts:103 | the endpoint that delivers ends the fetch with no failures |
| BalancerProperties.ReplayDelivers | lib/loadBalancer.ts:95-110 | with a delivering reply within budget, the loop returns the first delivered data after that many attempts, having paused after each earlier non-429 failure |
| BalancerProperties.ReplayExhausts | lib/loadBalancer.ts:95-113 | with no delivering reply, the loop spends the budget and throws the last non-429 error (or the generic one) |
| BalancerProperties.FetchEdgeCases | lib/loadBalancer.ts:84-88 | a budget of zero or less throws the generic error untouched; an empty list throws "no available endpoints" untouched |
| BalancerProperties.FetchSends | lib/loadBalancer.ts:84-112 | a fetch makes between one and `retries` attempts, each to an endpoint of the list |
| BalancerProperties.FetchDelivered | lib/loadBalancer.ts:84-110 | when a reply within budget delivers, the fetch returns the first delivered data after exactly that many attempts, with one pause per earlier non-429 failure, and that endpoint has no failures |
| BalancerProperties.FetchExhausted | lib/loadBalancer.ts:84-113 | when none delivers, the fetch makes exactly `retries` attempts, throws the last non-429 error or the generic one, and pauses after each non-429 failure but the last attempt |
| Keplr.ConvertChainToKeplr | lib/keplr.ts:49-97 | identifiers with the chain-id fallback, first RPC and REST addresses, the coin type, "cosmos" as the default prefix, the first asset as the currency, fee and stake currency (ATOM otherwise), and the Ethereum features exactly for coin type 60 |
| Keplr.Bech32Roles | lib/keplr.ts:60-67 | each of the six prefixes is the account prefix plus its role's suffix, and the six are pairwise distinct |
| Keplr.AccountPrefixNonEmpty | lib/keplr.ts:50 | the account prefix is never empty |
| Keplr.CoinTypeOnlyChangesKeys | lib/keplr.ts:57-59 | the two coin types give descriptions that differ only in the coin type and the Ethereum features |

## Left out

- The health prober is not part of this model: `healthCheck`, `getHealthStatus`, the `healthStatus` map, the `health` field of `getStats` rows, and the probes and five-minute `setInterval` started by `getLoadBalancer`. They only write observational state that no modelled operation reads.
- The real HTTP call is replaced by the `world` parameter: URL building from the path, request options, the 15-second abort signal, status text and error messages.
- The 500 ms `setTimeout` pause is counted in `sleeps` instead of waiting.
- Console output is left out.
- `Date.now()` is read once per attempt, as `world(k).now`. The source reads the clock separately in the cooldown check, `isRateLimited`, `recordRequest` and `markFailure`; those readings are taken as equal within one attempt.
- `APILoadBalancer.GetNextEndpoint`, `ExamineCandidate` and `TryEndpoint` take that reading as a parameter.
- Interleaving of concurrent fetches on one balancer at their awaits is not modelled: each fetch runs to completion as one operation.
- The unused `rateLimit` and `lastRequest` endpoint fields are left out.
- Selection returns the endpoint's index rather than the endpoint object. The constructor copies every configured endpoint, so no endpoint object is shared between balancers or with the caller.
- JavaScript numbers are modelled as unbounded integers. Timestamps, failure counts and the retry budget never become fractional, `NaN` or infinite.
- `Keplr.ConvertChainToKeplr`: the fee currency's `gasPriceStep` is left out because it is floating-point arithmetic on `parseFloat(min_tx_fee)`, and so is the `parseInt` of an exponent given as a string. Exponents are integers in the model.
- The rest of `lib/keplr.ts` (wallet detection, enabling, chain suggestion, local storage, event listeners) is browser I/O and is not part of this model.
- `LoadBalancer.Registry.GetLoadBalancerStats`: for a known chain it states the cursor and the number of rows of each report. The rows themselves are stated by `APILoadBalancer.GetStats`.
