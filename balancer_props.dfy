/** What the reference definitions of module BalancerSpec promise: the rate
    window, the round-robin scan with its cooldown and rate-limit exclusions
    and its fallback, and the retry loop's result, attempt count and pauses. */
module BalancerProperties {
  import opened Wrappers
  import opened BalancerSpec

  // ---------------------------------------------------------------------------
  // Rate limiter

  /** Pruning again later gives what pruning once later gives. */
  lemma {:induction false} RecentLater(ts: seq<int>, now: int, later: int)
    requires now <= later
    ensures Recent(Recent(ts, now), later) == Recent(ts, later)
  {
    if ts != [] {
      RecentLater(ts[1..], now, later);
      if now - ts[0] < RATE_LIMIT_WINDOW {
        assert ([ts[0]] + Recent(ts[1..], now))[1..] == Recent(ts[1..], now);
      }
    }
  }

  /** The number of requests in the window never grows as time passes. */
  lemma WindowShrinks(ts: seq<int>, now: int, later: int)
    requires now <= later
    ensures |Recent(ts, later)| <= |Recent(ts, now)|
  {
    RecentLater(ts, now, later);
  }

  /** Recording a request adds exactly one to the address's window and
      touches no other address. */
  lemma RecordCountsOne(counts: map<string, seq<int>>, address: string, now: int)
    ensures |Recent(Requests(Record(counts, address, now), address), now)| ==
            |Recent(Requests(counts, address), now)| + 1
    ensures forall a :: a != address ==> Requests(Record(counts, address, now), a) == Requests(counts, a)
  {
    RecentConcat(Requests(counts, address), [now], now);
  }

  /** The check that finds a full window: the 50th request recorded inside the
      window makes the address rate-limited. */
  lemma FiftiethRequestLimits(counts: map<string, seq<int>>, address: string, now: int)
    requires |Recent(Requests(counts, address), now)| == RATE_LIMIT_MAX - 1
    ensures !RateLimited(counts, address, now)
    ensures RateLimited(Record(counts, address, now), address, now)
  {
    RecordCountsOne(counts, address, now);
  }

  /** Once the window has passed every recorded request, the address is free again. */
  lemma {:induction false} WindowExpires(ts: seq<int>, now: int)
    requires forall t :: t in ts ==> now - t >= RATE_LIMIT_WINDOW
    ensures Recent(ts, now) == []
  {
    if ts != [] {
      assert ts[0] in ts;
      assert forall t :: t in ts[1..] ==> t in ts;
      WindowExpires(ts[1..], now);
    }
  }

  /** The pruning a check performs changes no verdict, now or later. */
  lemma PruneKeepsVerdicts(counts: map<string, seq<int>>, address: string, now: int, a: string, later: int)
    requires now <= later
    ensures RateLimited(Prune(counts, address, now), a, later) == RateLimited(counts, a, later)
  {
    if a == address {
      RecentLater(Requests(counts, address), now, later);
    }
  }

  // ---------------------------------------------------------------------------
  // One candidate

  /** The candidate at offset `d` from cursor `c` in a list of `n`: the
      value of `(c + d) % n`, written without `%`. */
  function Pos(c: int, d: int, n: int): int
    requires 0 <= c < n && 0 <= d <= n
  {
    if c + d < n then c + d else c + d - n
  }

  /** How far `j` lies after cursor `c`, going round the list. */
  function Dist(c: int, j: int, n: int): int
    requires 0 <= c < n && 0 <= j < n
  {
    if c <= j then j - c else j + n - c
  }

  /** What examining an endpoint does to it: a cooldown that has run out is
      cleared by zeroing the failures. */
  function Reset(e: Endpoint, now: int): Endpoint {
    if e.failures >= MAX_FAILURES && !CoolingDown(e, now) then e.(failures := 0) else e
  }

  /** A candidate is accepted exactly when it is eligible; examining it
      clears an expired cooldown and changes no other endpoint. */
  lemma ExamineEffect(st: State, i: int, now: int)
    requires 0 <= i < |st.endpoints|
    ensures Examine(st, i, now).accepted == Eligible(st, i, now)
    ensures Examine(st, i, now).endpoints == st.endpoints[i := Reset(st.endpoints[i], now)]
  {
  }

  /** Examining candidates at `now` changes no eligibility verdict at `now`
      or later. */
  ghost predicate SameEligibility(st: State, st': State, now: int) {
    |st'.endpoints| == |st.endpoints| &&
    forall j, later :: 0 <= j < |st.endpoints| && now <= later ==>
      Eligible(st', j, later) == Eligible(st, j, later)
  }

  /** An eligible endpoint stays eligible as time passes. */
  lemma EligibleLater(st: State, j: int, now: int, later: int)
    requires 0 <= j < |st.endpoints| && now <= later
    requires Eligible(st, j, now)
    ensures Eligible(st, j, later)
  {
    WindowShrinks(Requests(st.counts, st.endpoints[j].address), now, later);
  }

  lemma PosStep(c: int, d: int, n: int)
    requires 0 <= c < n && 0 <= d < n
    ensures (c + 1) % n == Pos(c, 1, n)
    ensures Pos(Pos(c, 1, n), d, n) == Pos(c, d + 1, n)
  {
    Wrap(c + 1, n);
  }

  // ---------------------------------------------------------------------------
  // The scan

  /** Examining the candidate at the cursor changes no verdict about any
      endpoint at its own time or later. */
  lemma AdvanceKeepsVerdict(st: State, now: int, j: int, later: int)
    requires ValidState(st) && 0 < |st.endpoints|
    requires 0 <= j < |st.endpoints| && now <= later
    ensures Eligible(Advanced(st, now), j, later) == Eligible(st, j, later)
  {
    var e := st.endpoints[st.cursor];
    if !CoolingDown(e, now) {
      PruneKeepsVerdicts(st.counts, e.address, now, st.endpoints[j].address, later);
    }
  }

  /** The scan moves the cursor past exactly the candidates it examines. */
  lemma {:induction false} ScanCursor(st: State, attempts: nat, now: int)
    requires ValidState(st) && 0 < |st.endpoints| && attempts <= |st.endpoints|
    decreases |st.endpoints| - attempts
    ensures var n, r := |st.endpoints|, Scan(st, attempts, now);
      attempts <= r.examined <= n &&
      (attempts < n ==> attempts < r.examined) &&
      r.state.cursor == Pos(st.cursor, r.examined - attempts, n)
  {
    var n, c := |st.endpoints|, st.cursor;
    if attempts < n {
      var next := Advanced(st, now);
      PosStep(c, 0, n);
      if Examine(st, c, now).accepted {
        ScanAccepts(st, attempts, now);
      } else {
        ScanSkips(st, attempts, now);
        ScanCursor(next, attempts + 1, now);
        PosStep(c, Scan(next, attempts + 1, now).examined - attempts - 1, n);
      }
    }
  }

  /** The scan changes no eligibility verdict at its own time or later. */
  lemma {:induction false} ScanKeepsEligibility(st: State, attempts: nat, now: int)
    requires ValidState(st) && 0 < |st.endpoints| && attempts <= |st.endpoints|
    decreases |st.endpoints| - attempts
    ensures SameEligibility(st, Scan(st, attempts, now).state, now)
  {
    var n, c := |st.endpoints|, st.cursor;
    if attempts < n {
      var next := Advanced(st, now);
      var r := Scan(st, attempts, now);
      if Examine(st, c, now).accepted {
        ScanAccepts(st, attempts, now);
      } else {
        ScanSkips(st, attempts, now);
        ScanKeepsEligibility(next, attempts + 1, now);
      }
      forall j, later | 0 <= j < n && now <= later
        ensures Eligible(r.state, j, later) == Eligible(st, j, later)
      {
        AdvanceKeepsVerdict(st, now, j, later);
      }
    }
  }

  /** Candidate `d` after the advanced cursor is candidate `d + 1` after the
      old one, with the same verdict. */
  lemma NextCandidate(st: State, now: int, d: int)
    requires ValidState(st) && 0 < |st.endpoints| && 0 <= d < |st.endpoints| - 1
    ensures var n, next := |st.endpoints|, Advanced(st, now);
      Pos(next.cursor, d, n) == Pos(st.cursor, d + 1, n) &&
      Eligible(next, Pos(next.cursor, d, n), now) == Eligible(st, Pos(st.cursor, d + 1, n), now)
  {
    PosStep(st.cursor, d, |st.endpoints|);
    AdvanceKeepsVerdict(st, now, Pos(st.cursor, d + 1, |st.endpoints|), now);
  }

  /** An ineligible candidate at the cursor followed by `k` ineligible
      candidates after the advanced cursor makes `k + 1` ineligible ones. */
  lemma SkipStep(st: State, now: int, k: int)
    requires ValidState(st) && 0 < |st.endpoints| && 0 <= k < |st.endpoints|
    requires !Eligible(st, st.cursor, now)
    requires var next := Advanced(st, now);
      forall d :: 0 <= d < k ==> !Eligible(next, Pos(next.cursor, d, |st.endpoints|), now)
    ensures forall d :: 0 <= d < k + 1 ==> !Eligible(st, Pos(st.cursor, d, |st.endpoints|), now)
  {
    var n, next := |st.endpoints|, Advanced(st, now);
    forall d | 0 <= d < k + 1 ensures !Eligible(st, Pos(st.cursor, d, n), now) {
      if d > 0 {
        NextCandidate(st, now, d - 1);
        assert !Eligible(next, Pos(next.cursor, d - 1, n), now);
      }
    }
  }

  /** Every candidate the scan passes over before the one it ends on is
      ineligible. */
  lemma {:induction false} ScanPassesIneligible(st: State, attempts: nat, now: int)
    requires ValidState(st) && 0 < |st.endpoints| && attempts <= |st.endpoints|
    decreases |st.endpoints| - attempts
    ensures var n, r := |st.endpoints|, Scan(st, attempts, now);
      forall d :: 0 <= d < r.examined - attempts - 1 ==> !Eligible(st, Pos(st.cursor, d, n), now)
  {
    var n, c := |st.endpoints|, st.cursor;
    if attempts < n {
      var next := Advanced(st, now);
      ExamineEffect(st, c, now);
      if Eligible(st, c, now) {
        ScanAccepts(st, attempts, now);
      } else {
        ScanSkips(st, attempts, now);
        ScanPassesIneligible(next, attempts + 1, now);
        ScanCursor(next, attempts + 1, now);
        var m' := Scan(next, attempts + 1, now).examined - attempts - 1;
        if m' >= 1 {
          SkipStep(st, now, m' - 1);
        }
      }
    }
  }

  /** Where a scan from `attempts` that produced `r` ended: on an eligible
      candidate, the last it examined, or, when none of the candidates it may
      still examine is eligible, on the first endpoint. */
  ghost predicate EndsOnFirstEligible(st: State, attempts: nat, now: int, r: Selection)
    requires ValidState(st) && 0 < |st.endpoints| && attempts <= |st.endpoints|
  {
    var n, c, m := |st.endpoints|, st.cursor, r.examined - attempts;
    (1 <= m <= n - attempts && r.chosen == Some(Pos(c, m - 1, n)) && Eligible(st, Pos(c, m - 1, n), now)) ||
    (r.chosen == Some(0) && m == n - attempts &&
     forall d :: 0 <= d < n - attempts ==> !Eligible(st, Pos(c, d, n), now))
  }

  /** The inductive step of ScanChoosesFirstEligible past an ineligible
      candidate at the cursor. */
  lemma SkipEndsOnFirstEligible(st: State, attempts: nat, now: int)
    requires ValidState(st) && 0 < |st.endpoints| && attempts < |st.endpoints|
    requires !Eligible(st, st.cursor, now)
    requires EndsOnFirstEligible(Advanced(st, now), attempts + 1, now, Scan(Advanced(st, now), attempts + 1, now))
    ensures EndsOnFirstEligible(st, attempts, now, Scan(Advanced(st, now), attempts + 1, now))
  {
    var n, c, next := |st.endpoints|, st.cursor, Advanced(st, now);
    var r := Scan(next, attempts + 1, now);
    var m' := r.examined - attempts - 1;
    ScanCursor(next, attempts + 1, now);
    if 1 <= m' && r.chosen == Some(Pos(next.cursor, m' - 1, n)) &&
       Eligible(next, Pos(next.cursor, m' - 1, n), now) {
      NextCandidate(st, now, m' - 1);
    } else {
      SkipStep(st, now, n - attempts - 1);
    }
  }

  /** The scan ends on the first eligible candidate it examines, or falls
      back to the first endpoint when it finds none. */
  lemma {:induction false} ScanChoosesFirstEligible(st: State, attempts: nat, now: int)
    requires ValidState(st) && 0 < |st.endpoints| && attempts <= |st.endpoints|
    decreases |st.endpoints| - attempts
    ensures EndsOnFirstEligible(st, attempts, now, Scan(st, attempts, now))
  {
    var n, c := |st.endpoints|, st.cursor;
    if attempts < n {
      ExamineEffect(st, c, now);
      if Eligible(st, c, now) {
        ScanAccepts(st, attempts, now);
        assert Pos(c, 0, n) == c;
      } else {
        ScanChoosesFirstEligible(Advanced(st, now), attempts + 1, now);
        SkipEndsOnFirstEligible(st, attempts, now);
        ScanSkips(st, attempts, now);
      }
    }
  }

  /** One selection, as a whole: the next endpoint is the first eligible one
      from the cursor on, in configured order, and the cursor moves just past
      it; with none eligible it is the first endpoint and the cursor returns
      to where it was. It has no endpoint only when the list is empty. */
  lemma SelectChoosesFirstEligible(st: State, now: int)
    requires ValidState(st)
    ensures Select(st, now).chosen.None? <==> |st.endpoints| == 0
    ensures |st.endpoints| > 0 ==>
      var n, c, r := |st.endpoints|, st.cursor, Select(st, now);
      1 <= r.examined <= n &&
      r.state.cursor == Pos(c, r.examined, n) &&
      (forall d :: 0 <= d < r.examined - 1 ==> !Eligible(st, Pos(c, d, n), now)) &&
      ((r.chosen == Some(Pos(c, r.examined - 1, n)) && Eligible(st, Pos(c, r.examined - 1, n), now)) ||
       (r.chosen == Some(0) && r.examined == n && r.state.cursor == c &&
        forall d :: 0 <= d < n ==> !Eligible(st, Pos(c, d, n), now)))
  {
    if |st.endpoints| > 0 {
      ScanCursor(st, 0, now);
      ScanPassesIneligible(st, 0, now);
      ScanChoosesFirstEligible(st, 0, now);
    }
  }

  /** Liveness: with every endpoint excluded, a non-empty list still yields
      its first endpoint, and the cursor ends where it started. */
  lemma AllExcludedFallsBack(st: State, now: int)
    requires ValidState(st) && 0 < |st.endpoints|
    requires forall j :: 0 <= j < |st.endpoints| ==> !Eligible(st, j, now)
    ensures Select(st, now).chosen == Some(0)
    ensures Select(st, now).state.cursor == st.cursor
    ensures Select(st, now).examined == |st.endpoints|
  {
    SelectChoosesFirstEligible(st, now);
    var r := Select(st, now);
    assert !Eligible(st, Pos(st.cursor, r.examined - 1, |st.endpoints|), now);
  }

  /** An eligible endpoint at the cursor is the one selected. */
  lemma EligibleAtCursorIsChosen(st: State, now: int)
    requires ValidState(st) && 0 < |st.endpoints|
    requires Eligible(st, st.cursor, now)
    ensures Select(st, now).chosen == Some(st.cursor)
    ensures Select(st, now).examined == 1
    ensures Select(st, now).state.cursor == Pos(st.cursor, 1, |st.endpoints|)
  {
    SelectChoosesFirstEligible(st, now);
    assert Pos(st.cursor, 0, |st.endpoints|) == st.cursor;
  }

  /** A selection changes no eligibility verdict at its own time or later. */
  lemma SelectKeepsEligibility(st: State, now: int)
    requires ValidState(st)
    ensures SameEligibility(st, Select(st, now).state, now)
  {
    if |st.endpoints| > 0 {
      ScanKeepsEligibility(st, 0, now);
    }
  }

  /** The scan clears the expired cooldowns of exactly the endpoints it
      examines and leaves every other endpoint as it was. */
  lemma {:induction false} ScanResets(st: State, attempts: nat, now: int)
    requires ValidState(st) && 0 < |st.endpoints| && attempts <= |st.endpoints|
    decreases |st.endpoints| - attempts
    ensures var n, r := |st.endpoints|, Scan(st, attempts, now);
      r.examined - attempts <= n - attempts &&
      forall j :: 0 <= j < n ==>
        r.state.endpoints[j] ==
          if Dist(st.cursor, j, n) < r.examined - attempts then Reset(st.endpoints[j], now)
          else st.endpoints[j]
  {
    var n, c := |st.endpoints|, st.cursor;
    if attempts < n {
      var next := Advanced(st, now);
      ExamineEffect(st, c, now);
      PosStep(c, 0, n);
      if !Eligible(st, c, now) {
        ScanResets(next, attempts + 1, now);
      }
    }
  }

  lemma SelectResets(st: State, now: int)
    requires ValidState(st) && 0 < |st.endpoints|
    ensures var n, r := |st.endpoints|, Select(st, now);
      forall j :: 0 <= j < n ==>
        r.state.endpoints[j] ==
          if Dist(st.cursor, j, n) < r.examined then Reset(st.endpoints[j], now) else st.endpoints[j]
  {
    ScanResets(st, 0, now);
  }

  // ---------------------------------------------------------------------------
  // Round robin over successive selections

  /** The endpoints chosen by successive selections at the given times. */
  function Successive(st: State, nows: seq<int>): (chosen: seq<Option<nat>>)
    requires ValidState(st)
    ensures |chosen| == |nows|
    decreases |nows|
  {
    if nows == [] then []
    else
      var s := Select(st, nows[0]);
      [s.chosen] + Successive(s.state, nows[1..])
  }

  ghost predicate AllEligible(st: State, now: int) {
    forall j :: 0 <= j < |st.endpoints| ==> Eligible(st, j, now)
  }

  lemma MulAtLeast(d: int, n: int)
    requires 1 <= d && 0 < n
    ensures d * n >= n
  {
    assert d * n == (d - 1) * n + n;
  }

  /** The remainder is the unique one: `q * n + r` with `0 <= r < n` leaves `r`. */
  lemma ModUnique(a: int, n: int, q: int, r: int)
    requires 0 < n && 0 <= r < n && a == q * n + r
    ensures a % n == r
  {
    var q', r' := a / n, a % n;
    assert a == q' * n + r';
    assert (q - q') * n == r' - r by {
      assert (q - q') * n == q * n - q' * n;
    }
    if q > q' {
      MulAtLeast(q - q', n);
    } else if q < q' {
      MulAtLeast(q' - q, n);
    }
  }

  /** Starting one place further round the list and going `k - 1` places
      lands where going `k` places from the start does. */
  lemma ModShift(c: int, k: int, n: int)
    requires 0 <= c < n && 1 <= k
    ensures ((c + 1) % n + (k - 1)) % n == (c + k) % n
  {
    Wrap(c + 1, n);
    if c + 1 == n {
      assert c + k == (k - 1) + n;
      assert (k - 1) + n == ((k - 1) / n + 1) * n + (k - 1) % n;
      ModUnique((k - 1) + n, n, (k - 1) / n + 1, (k - 1) % n);
    }
  }

  /** Round-robin fairness: while no endpoint is cooling down or rate-limited,
      successive selections from cursor c return the endpoints c, c+1, ... in
      configured order, wrapping round to the first after the last, so any n
      successive ones return each endpoint exactly once. */
  lemma {:induction false} RoundRobin(st: State, nows: seq<int>)
    requires ValidState(st) && 0 < |st.endpoints|
    requires forall k :: 0 < k < |nows| ==> nows[k - 1] <= nows[k]
    requires |nows| > 0 ==> AllEligible(st, nows[0])
    ensures forall k :: 0 <= k < |nows| ==> Successive(st, nows)[k] == Some((st.cursor + k) % |st.endpoints|)
    decreases |nows|
  {
    if nows != [] {
      var n, c := |st.endpoints|, st.cursor;
      var s := Select(st, nows[0]);
      EligibleAtCursorIsChosen(st, nows[0]);
      SelectKeepsEligibility(st, nows[0]);
      PosStep(c, 0, n);
      if |nows| > 1 {
        forall j | 0 <= j < n ensures Eligible(s.state, j, nows[1]) {
          EligibleLater(st, j, nows[0], nows[1]);
        }
      }
      RoundRobin(s.state, nows[1..]);
      forall k | 0 <= k < |nows| ensures Successive(st, nows)[k] == Some((c + k) % n) {
        if k > 0 {
          ModShift(c, k, n);
        } else {
          Wrap(c, n);
        }
      }
    }
  }

  // ---------------------------------------------------------------------------
  // The retry loop

  /** The first attempt in [k, hi) whose reply delivers data, or hi. */
  function FirstDelivery(world: nat -> Attempt, k: nat, hi: nat): (d: nat)
    decreases hi - k
    ensures k <= hi ==> k <= d <= hi
    ensures forall j :: k <= j < d ==> !Classify(world(j).reply).Delivered?
    ensures d < hi ==> Classify(world(d).reply).Delivered?
  {
    if hi <= k then hi
    else if Classify(world(k).reply).Delivered? then k
    else FirstDelivery(world, k + 1, hi)
  }

  /** The error of the last failed attempt in [lo, hi) that was not a 429,
      or `fallback` when every one was a 429. */
  function LastError(world: nat -> Attempt, lo: nat, hi: nat, fallback: Option<FetchError>): FetchError
    decreases hi - lo
  {
    if hi <= lo then (if fallback.Some? then fallback.value else AllEndpointsFailed)
    else match Classify(world(hi - 1).reply)
      case Failed(e) => e
      case _ => LastError(world, lo, hi - 1, fallback)
  }

  /** How many attempts in [lo, hi) failed in a way other than a 429. */
  function Pauses(world: nat -> Attempt, lo: nat, hi: nat): nat
    decreases hi - lo
  {
    if hi <= lo then 0
    else (if Classify(world(lo).reply).Failed? then 1 else 0) + Pauses(world, lo + 1, hi)
  }

  lemma {:induction false} LastErrorShift(world: nat -> Attempt, lo: nat, hi: nat, fallback: Option<FetchError>)
    requires lo < hi
    ensures var o := Classify(world(lo).reply);
      LastError(world, lo, hi, fallback) ==
      LastError(world, lo + 1, hi, if o.Failed? then Some(o.error) else fallback)
    decreases hi - lo
  {
    if lo + 1 < hi {
      LastErrorShift(world, lo, hi - 1, fallback);
    }
  }

  /** The retry loop makes at least one attempt and at most its budget, and
      only appends to the record of attempts. */
  lemma {:induction false} LoopSends(st: State, attemptsLeft: int, lastError: Option<FetchError>,
                                     world: nat -> Attempt, sent: seq<nat>, sleeps: nat)
    requires ValidState(st) && 0 < |st.endpoints| && attemptsLeft > 0
    decreases attemptsLeft
    ensures var k, r := |sent|, FetchLoop(st, attemptsLeft, lastError, world, sent, sleeps);
      k < |r.sent| <= k + attemptsLeft && r.sent[..k] == sent
  {
    var k := |sent|;
    var now := world(k).now;
    var sel := Select(st, now);
    var i := sel.chosen.value;
    var o := Classify(world(k).reply);
    var st' := Attempted(sel.state, i, now, o);
    FetchLoopStep(st, attemptsLeft, lastError, world, sent, sleeps, i, st');
    if !o.Delivered? && attemptsLeft > 1 {
      var error := if o.Failed? then Some(o.error) else lastError;
      var pause := if o.Failed? && attemptsLeft - 1 > 0 then 1 else 0;
      LoopSends(st', attemptsLeft - 1, error, world, sent + [i], sleeps + pause);
      var r := FetchLoop(st', attemptsLeft - 1, error, world, sent + [i], sleeps + pause);
      assert r.sent[..k] == (r.sent[..k + 1])[..k];
    }
  }

  /** Every attempt of the retry loop goes to an endpoint of the list. */
  lemma {:induction false} LoopTargets(st: State, attemptsLeft: int, lastError: Option<FetchError>,
                                       world: nat -> Attempt, sent: seq<nat>, sleeps: nat)
    requires ValidState(st) && 0 < |st.endpoints| && attemptsLeft > 0
    requires forall j :: 0 <= j < |sent| ==> sent[j] < |st.endpoints|
    decreases attemptsLeft
    ensures var r := FetchLoop(st, attemptsLeft, lastError, world, sent, sleeps);
      forall j :: 0 <= j < |r.sent| ==> r.sent[j] < |st.endpoints|
  {
    var k := |sent|;
    var now := world(k).now;
    var sel := Select(st, now);
    var i := sel.chosen.value;
    var o := Classify(world(k).reply);
    var st' := Attempted(sel.state, i, now, o);
    FetchLoopStep(st, attemptsLeft, lastError, world, sent, sleeps, i, st');
    if !o.Delivered? && attemptsLeft > 1 {
      var error := if o.Failed? then Some(o.error) else lastError;
      var pause := if o.Failed? && attemptsLeft - 1 > 0 then 1 else 0;
      LoopTargets(st', attemptsLeft - 1, error, world, sent + [i], sleeps + pause);
    }
  }

  /** What the retry loop returns, how many attempts it has made in all and
      how many times it has paused, computed from the replies alone. */
  datatype Trace = Trace(result: FetchResult, attempts: nat, sleeps: nat)

  function Replay(world: nat -> Attempt, k: nat, attemptsLeft: int, lastError: Option<FetchError>, sleeps: nat): Trace
    decreases attemptsLeft
  {
    if attemptsLeft <= 0 then
      Trace(Failure(if lastError.Some? then lastError.value else AllEndpointsFailed), k, sleeps)
    else
      var o := Classify(world(k).reply);
      if o.Delivered? then Trace(Success(o.data), k + 1, sleeps)
      else
        Replay(world, k + 1, attemptsLeft - 1, if o.Failed? then Some(o.error) else lastError,
               sleeps + if o.Failed? && attemptsLeft - 1 > 0 then 1 else 0)
  }

  /** On a non-empty list the endpoints chosen and the state they leave do
      not affect what the retry loop returns, how many attempts it makes or
      how often it pauses: those follow from the replies alone. */
  lemma {:induction false} LoopFollowsReplies(st: State, attemptsLeft: int, lastError: Option<FetchError>,
                                              world: nat -> Attempt, sent: seq<nat>, sleeps: nat)
    requires ValidState(st) && 0 < |st.endpoints| && attemptsLeft > 0
    decreases attemptsLeft
    ensures var r, t := FetchLoop(st, attemptsLeft, lastError, world, sent, sleeps),
                        Replay(world, |sent|, attemptsLeft, lastError, sleeps);
      r.result == t.result && |r.sent| == t.attempts && r.sleeps == t.sleeps
  {
    var k := |sent|;
    var now := world(k).now;
    var sel := Select(st, now);
    var i := sel.chosen.value;
    var o := Classify(world(k).reply);
    var st' := Attempted(sel.state, i, now, o);
    FetchLoopStep(st, attemptsLeft, lastError, world, sent, sleeps, i, st');
    if !o.Delivered? && attemptsLeft > 1 {
      var error := if o.Failed? then Some(o.error) else lastError;
      var pause := if o.Failed? && attemptsLeft - 1 > 0 then 1 else 0;
      LoopFollowsReplies(st', attemptsLeft - 1, error, world, sent + [i], sleeps + pause);
    }
  }

  /** The endpoint that delivers ends the fetch with no failures. */
  lemma {:induction false} LoopDeliveryClears(st: State, attemptsLeft: int, lastError: Option<FetchError>,
                                              world: nat -> Attempt, sent: seq<nat>, sleeps: nat)
    requires ValidState(st) && 0 < |st.endpoints| && attemptsLeft > 0
    requires FetchLoop(st, attemptsLeft, lastError, world, sent, sleeps).result.Success?
    decreases attemptsLeft
    ensures var r := FetchLoop(st, attemptsLeft, lastError, world, sent, sleeps);
      |r.sent| > |sent| && r.sent[|r.sent| - 1] < |r.state.endpoints| &&
      r.state.endpoints[r.sent[|r.sent| - 1]].failures == 0
  {
    var k := |sent|;
    var now := world(k).now;
    var sel := Select(st, now);
    var i := sel.chosen.value;
    var o := Classify(world(k).reply);
    var st' := Attempted(sel.state, i, now, o);
    FetchLoopStep(st, attemptsLeft, lastError, world, sent, sleeps, i, st');
    if o.Delivered? {
      assert st'.endpoints[i].failures == 0;
    } else {
      var error := if o.Failed? then Some(o.error) else lastError;
      var pause := if o.Failed? && attemptsLeft - 1 > 0 then 1 else 0;
      assert attemptsLeft - 1 > 0;
      LoopDeliveryClears(st', attemptsLeft - 1, error, world, sent + [i], sleeps + pause);
    }
  }

  /** When an attempt within the budget delivers, the loop returns the data
      of the first one that does, having made exactly that many attempts and
      paused once after each earlier non-429 failure. */
  lemma {:induction false} ReplayDelivers(world: nat -> Attempt, k: nat, attemptsLeft: int,
                                          lastError: Option<FetchError>, sleeps: nat)
    requires attemptsLeft > 0 && FirstDelivery(world, k, k + attemptsLeft) < k + attemptsLeft
    decreases attemptsLeft
    ensures var t, d := Replay(world, k, attemptsLeft, lastError, sleeps), FirstDelivery(world, k, k + attemptsLeft);
      t == Trace(Success(Classify(world(d).reply).data), d + 1, sleeps + Pauses(world, k, d))
  {
    var o := Classify(world(k).reply);
    if !o.Delivered? {
      ReplayDelivers(world, k + 1, attemptsLeft - 1, if o.Failed? then Some(o.error) else lastError,
                     sleeps + if o.Failed? && attemptsLeft - 1 > 0 then 1 else 0);
    }
  }

  /** When no attempt within the budget delivers, the loop spends the whole
      budget and throws the last non-429 error, or the generic error when
      only 429s were seen, having paused after every non-429 failure but the
      last attempt. */
  lemma {:induction false} ReplayExhausts(world: nat -> Attempt, k: nat, attemptsLeft: int,
                                          lastError: Option<FetchError>, sleeps: nat)
    requires attemptsLeft > 0 && FirstDelivery(world, k, k + attemptsLeft) == k + attemptsLeft
    decreases attemptsLeft
    ensures Replay(world, k, attemptsLeft, lastError, sleeps) ==
            Trace(Failure(LastError(world, k, k + attemptsLeft, lastError)), k + attemptsLeft,
                  sleeps + Pauses(world, k, k + attemptsLeft - 1))
  {
    var o := Classify(world(k).reply);
    LastErrorShift(world, k, k + attemptsLeft, lastError);
    if attemptsLeft > 1 {
      ReplayExhausts(world, k + 1, attemptsLeft - 1, if o.Failed? then Some(o.error) else lastError,
                     sleeps + if o.Failed? then 1 else 0);
    }
  }

  /** A budget of zero or less throws the generic error without selecting
      an endpoint or recording a request; an empty list throws "no available
      endpoints" before any request is recorded. */
  lemma FetchEdgeCases(st: State, retries: int, world: nat -> Attempt)
    requires ValidState(st)
    ensures retries <= 0 ==> Fetch(st, retries, world) == Run(Failure(AllEndpointsFailed), st, [], 0)
    ensures retries > 0 && |st.endpoints| == 0 ==>
      Fetch(st, retries, world) == Run(Failure(NoAvailableEndpoints), st, [], 0)
  {
  }

  /** A fetch on a non-empty list with a positive budget makes at least one
      and at most `retries` attempts, each to an endpoint of the list. */
  lemma FetchSends(st: State, retries: int, world: nat -> Attempt)
    requires ValidState(st) && retries > 0 && |st.endpoints| > 0
    ensures var r := Fetch(st, retries, world);
      0 < |r.sent| <= retries && forall j :: 0 <= j < |r.sent| ==> r.sent[j] < |st.endpoints|
  {
    LoopSends(st, retries, None, world, [], 0);
    LoopTargets(st, retries, None, world, [], 0);
  }

  /** When one of the first `retries` replies delivers, the fetch returns the
      data of the first that does, after exactly that many attempts, having
      paused once after each earlier non-429 failure; the endpoint that
      delivered is left with no failures. */
  lemma FetchDelivered(st: State, retries: int, world: nat -> Attempt)
    requires ValidState(st) && retries > 0 && |st.endpoints| > 0
    requires FirstDelivery(world, 0, retries) < retries
    ensures var r, d := Fetch(st, retries, world), FirstDelivery(world, 0, retries);
      r.result == Success(Classify(world(d).reply).data) && |r.sent| == d + 1 &&
      r.sleeps == Pauses(world, 0, d) &&
      r.sent[d] < |r.state.endpoints| && r.state.endpoints[r.sent[d]].failures == 0
  {
    LoopFollowsReplies(st, retries, None, world, [], 0);
    ReplayDelivers(world, 0, retries, None, 0);
    LoopDeliveryClears(st, retries, None, world, [], 0);
  }

  /** When none of the first `retries` replies delivers, the fetch makes all
      `retries` attempts and throws the error of the last one that was not a
      429, or the generic error when all were 429s, having paused after every
      non-429 failure but the last attempt. */
  lemma FetchExhausted(st: State, retries: int, world: nat -> Attempt)
    requires ValidState(st) && retries > 0 && |st.endpoints| > 0
    requires FirstDelivery(world, 0, retries) == retries
    ensures var r := Fetch(st, retries, world);
      r.result == Failure(LastError(world, 0, retries, None)) && |r.sent| == retries &&
      r.sleeps == Pauses(world, 0, retries - 1)
  {
    LoopFollowsReplies(st, retries, None, world, [], 0);
    ReplayExhausts(world, 0, retries, None, 0);
  }
}
