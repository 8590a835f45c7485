/**
 * The market-data controller: a process-wide price cache refreshed at most
 * once per 5000 ms window, which keeps serving its old contents when a
 * refresh fails.
 *
 * The clock reading (`Date.now()`, milliseconds) and the outcome of the
 * exchange price request are arguments of each call. The cached value is
 * whatever the exchange service returned, modelled as a map from trading pair
 * name to price.
 */
module Market {

  /** Length of the freshness window, in milliseconds. */
  const RefreshWindowMs: int := 5000

  type Snapshot = map<string, real>

  /** Outcome of the exchange price request, supplied by the caller. */
  datatype Fetch = Succeeded(prices: Snapshot) | Failed

  /** The two module-level variables, as one value. */
  datatype CacheState = CacheState(cachedPrices: Snapshot, lastFetch: int)

  /** The state at start-up: nothing cached, never fetched. */
  const Initial: CacheState := CacheState(map[], 0)

  /** A call at `now` asks the exchange for prices only when the window has passed. */
  predicate NeedsRefresh(st: CacheState, now: int)
  {
    now - st.lastFetch > RefreshWindowMs
  }

  /** The state after one `getMarketData` call at `now` whose fetch (if made) ends with `f`. */
  function Step(st: CacheState, now: int, f: Fetch): CacheState
  {
    if NeedsRefresh(st, now) && f.Succeeded? then CacheState(f.prices, now) else st
  }

  /** Within the window the fetch outcome is irrelevant and the state is unchanged. */
  lemma FreshCallChangesNothing(st: CacheState, now: int, f: Fetch)
    requires now - st.lastFetch <= RefreshWindowMs
    ensures Step(st, now, f) == st
  {
  }

  /** A successful refresh replaces the whole cache and stamps the time. */
  lemma SuccessfulRefreshReplaces(st: CacheState, now: int, prices: Snapshot)
    requires NeedsRefresh(st, now)
    ensures Step(st, now, Succeeded(prices)) == CacheState(prices, now)
  {
  }

  /** A failed refresh keeps both the stale cache and its time stamp. */
  lemma FailedRefreshKeepsStale(st: CacheState, now: int)
    ensures Step(st, now, Failed) == st
  {
  }

  /**
   * The time stamp strictly increases on a successful refresh and never
   * decreases on any call.
   */
  lemma LastFetchMonotone(st: CacheState, now: int, f: Fetch)
    ensures Step(st, now, f).lastFetch >= st.lastFetch
    ensures Step(st, now, f) != st ==> Step(st, now, f).lastFetch > st.lastFetch
  {
  }

  /** From start-up, a call fetches exactly when the clock is past 5000 ms. */
  lemma FirstCallFetchesAfterWindow(now: int)
    ensures NeedsRefresh(Initial, now) <==> now > 5000
  {
  }

  /** The state after a run of calls, each with its own clock reading and fetch outcome. */
  function Run(st: CacheState, calls: seq<(int, Fetch)>): CacheState
    decreases |calls|
  {
    if calls == [] then st else Run(Step(st, calls[0].0, calls[0].1), calls[1..])
  }

  /** What each call of a run returns: the cache as that call leaves it. */
  function Responses(st: CacheState, calls: seq<(int, Fetch)>): (rs: seq<Snapshot>)
    ensures |rs| == |calls|
    decreases |calls|
  {
    if calls == [] then []
    else
      var st' := Step(st, calls[0].0, calls[0].1);
      [st'.cachedPrices] + Responses(st', calls[1..])
  }

  /** The time stamp never decreases over any run of calls. */
  lemma {:induction false} RunLastFetchMonotone(st: CacheState, calls: seq<(int, Fetch)>)
    ensures Run(st, calls).lastFetch >= st.lastFetch
    decreases |calls|
  {
    if calls != [] {
      LastFetchMonotone(st, calls[0].0, calls[0].1);
      RunLastFetchMonotone(Step(st, calls[0].0, calls[0].1), calls[1..]);
    }
  }

  /**
   * After a refresh stamped at time t, every call made no later than t + 5000
   * returns that same cache and changes nothing.
   */
  lemma {:induction false} ServedWithinWindow(st: CacheState, calls: seq<(int, Fetch)>)
    requires forall i :: 0 <= i < |calls| ==> calls[i].0 <= st.lastFetch + RefreshWindowMs
    ensures Run(st, calls) == st
    ensures forall i :: 0 <= i < |calls| ==> Responses(st, calls)[i] == st.cachedPrices
    decreases |calls|
  {
    if calls != [] {
      FreshCallChangesNothing(st, calls[0].0, calls[0].1);
      ServedWithinWindow(st, calls[1..]);
      var rs := Responses(st, calls);
      assert rs[1..] == Responses(st, calls[1..]);
      forall i | 0 <= i < |calls| ensures rs[i] == st.cachedPrices {
        if i > 0 { assert rs[i] == rs[1..][i - 1]; }
      }
    }
  }

  /**
   * A successful refresh at time t is what every later call up to t + 5000
   * returns, whatever those calls' fetches would have produced.
   */
  lemma RefreshHoldsForWindow(st: CacheState, t: int, prices: Snapshot, calls: seq<(int, Fetch)>)
    requires NeedsRefresh(st, t)
    requires forall i :: 0 <= i < |calls| ==> calls[i].0 <= t + RefreshWindowMs
    ensures forall i :: 0 <= i < |calls| ==> Responses(Step(st, t, Succeeded(prices)), calls)[i] == prices
    ensures Run(Step(st, t, Succeeded(prices)), calls) == CacheState(prices, t)
  {
    SuccessfulRefreshReplaces(st, t, prices);
    ServedWithinWindow(CacheState(prices, t), calls);
  }

  /** Failed fetches alone never change the cache: stale data keeps being served. */
  lemma {:induction false} FailuresServeStale(st: CacheState, calls: seq<(int, Fetch)>)
    requires forall i :: 0 <= i < |calls| ==> calls[i].1 == Failed
    ensures Run(st, calls) == st
    ensures forall i :: 0 <= i < |calls| ==> Responses(st, calls)[i] == st.cachedPrices
    decreases |calls|
  {
    if calls != [] {
      FailuresServeStale(st, calls[1..]);
      var rs := Responses(st, calls);
      assert rs[1..] == Responses(st, calls[1..]);
      forall i | 0 <= i < |calls| ensures rs[i] == st.cachedPrices {
        if i > 0 { assert rs[i] == rs[1..][i - 1]; }
      }
    }
  }

  /** The controller object: the cache and its time stamp, updated in place. */
  class MarketCache {
    var cachedPrices: Snapshot
    var lastFetch: int

    ghost function State(): CacheState
      reads this
    {
      CacheState(cachedPrices, lastFetch)
    }

    /** Start-up: an empty cache that has never been fetched. */
    constructor ()
      ensures State() == Initial
    {
      cachedPrices := map[];
      lastFetch := 0;
    }

    /**
     * Handle one market-data request at time `now`: refresh from the exchange
     * when the window has passed, keep the old cache when the refresh fails,
     * and return whatever is cached afterwards.
     */
    method GetMarketData(now: int, f: Fetch) returns (r: Snapshot)
      modifies this
      ensures State() == Step(old(State()), now, f)
      ensures r == cachedPrices
      ensures !NeedsRefresh(old(State()), now) || f.Failed? ==>
        cachedPrices == old(cachedPrices) && lastFetch == old(lastFetch)
      ensures NeedsRefresh(old(State()), now) && f.Succeeded? ==>
        cachedPrices == f.prices && lastFetch == now > old(lastFetch)
    {
      if now - lastFetch > RefreshWindowMs {
        match f
        case Succeeded(prices) =>
          cachedPrices := prices;
          lastFetch := now;
        case Failed =>
      }
      r := cachedPrices;
    }
  }
}
