/**
 * The chain cache (server.js:15-17, 66-80): the module-level `cachedChain`
 * and `cachedAt`, the 9-second time to live, and `ensureCachedChain`, which
 * serves a fresh chain, refreshes a stale or missing one, and falls back to
 * the stale chain when the refresh fails.
 *
 * The upstream fetch and the two clock readings are parameters: `now` is the
 * `Date.now()` taken on entry, `outcome` is what `fetchOptionChainFromNSE`
 * delivered (it is awaited only on a miss), and `after` is the second
 * `Date.now()`, taken once the fetch has returned.
 */
module ChainCache {
  import opened Wrappers
  import opened Snapshot

  /** `CACHE_TTL_MS` */
  const CacheTtlMs: int := 9 * 1000

  /** Why fetchOptionChainFromNSE threw: the network call failed, or the body was not JSON. */
  datatype UpstreamError = TransportFailure | MalformedBody

  /** What awaiting fetchOptionChainFromNSE gave. */
  datatype FetchOutcome = Fetched(chain: Chain) | FetchFailed(error: UpstreamError)

  /** The pair (`cachedChain`, `cachedAt`). */
  datatype Entry = Entry(chain: Chain, at: int)

  /** The state at process start: `cachedChain = null`, `cachedAt = 0`. */
  const Initial := Entry(NoChain, 0)

  /** The test on entry to ensureCachedChain: a truthy chain younger than the time to live. */
  predicate Fresh(e: Entry, now: int) {
    ChainTruthy(e.chain) && now - e.at < CacheTtlMs
  }

  /** One call of ensureCachedChain: the new pair, what it returns or throws, and whether it fetched. */
  datatype Step = Step(entry: Entry, result: Result<Chain, UpstreamError>, fetched: bool)

  /**
   * ensureCachedChain as a function of the pair before the call. A hit
   * returns the stored chain and fetches nothing; a miss fetches, and then
   * either stores the new chain with the post-fetch clock reading, or keeps
   * the pair and answers with the stale chain if there is a truthy one, the
   * upstream error otherwise.
   */
  function Next(e: Entry, now: int, outcome: FetchOutcome, after: int): (s: Step)
    ensures s.fetched <==> !Fresh(e, now)
    ensures !s.fetched ==> s.entry == e && s.result == Success(e.chain)
    ensures s.fetched && outcome.Fetched? ==> s.entry == Entry(outcome.chain, after) && s.result == Success(outcome.chain)
    ensures s.fetched && outcome.FetchFailed? ==> s.entry == e
    ensures s.fetched && outcome.FetchFailed? && ChainTruthy(e.chain) ==> s.result == Success(e.chain)
    ensures s.fetched && outcome.FetchFailed? && !ChainTruthy(e.chain) ==> s.result == Failure(outcome.error)
  {
    if Fresh(e, now) then Step(e, Success(e.chain), false)
    else
      match outcome
      case Fetched(chain) => Step(Entry(chain, after), Success(chain), true)
      case FetchFailed(err) =>
        if ChainTruthy(e.chain) then Step(e, Success(e.chain), true) else Step(e, Failure(err), true)
  }

  /** The cache as the process holds it. */
  class Cache {
    var cachedChain: Chain
    var cachedAt: int
    /** Every chain stored so far, with the clock reading stored beside it. */
    ghost var stored: seq<Entry>

    function Current(): Entry
      reads this
    {
      Entry(cachedChain, cachedAt)
    }

    /**
     * The pair is never written piecemeal: it is the initial pair until the
     * first successful fetch, and from then on the last chain stored
     * together with the clock reading taken right after fetching it.
     */
    ghost predicate Valid()
      reads this
    {
      Current() == if stored == [] then Initial else stored[|stored| - 1]
    }

    constructor ()
      ensures Valid() && stored == []
      ensures cachedChain == NoChain && cachedAt == 0
    {
      cachedChain := NoChain;
      cachedAt := 0;
      stored := [];
    }

    /** ensureCachedChain */
    method EnsureCachedChain(now: int, outcome: FetchOutcome, after: int)
      returns (result: Result<Chain, UpstreamError>, fetched: bool)
      requires Valid()
      modifies this
      ensures Valid()
      ensures var s := Next(old(Current()), now, outcome, after);
        Current() == s.entry && result == s.result && fetched == s.fetched
      ensures stored == old(stored) + (if fetched && outcome.Fetched? then [Current()] else [])
    {
      if ChainTruthy(cachedChain) && now - cachedAt < CacheTtlMs {
        return Success(cachedChain), false;
      }
      fetched := true;
      match outcome {
        case Fetched(chain) =>
          cachedChain := chain;
          cachedAt := after;
          stored := stored + [Current()];
          result := Success(cachedChain);
        case FetchFailed(err) =>
          if ChainTruthy(cachedChain) {
            result := Success(cachedChain);
          } else {
            result := Failure(err);
          }
      }
    }
  }
}

/** The freshness, staleness and fallback behaviour of ensureCachedChain across calls. */
module ChainCacheProperties {
  import opened Wrappers
  import opened Snapshot
  import opened ChainCache
  import Js

  /**
   * Freshness: after a call that fetched a truthy chain, a later call within
   * the time to live of the call (the clock not running backwards during the
   * fetch) returns that same chain and does not fetch.
   */
  lemma FreshAfterFetch(e: Entry, t1: int, o1: FetchOutcome, a1: int, t2: int, o2: FetchOutcome, a2: int)
    requires Next(e, t1, o1, a1).fetched && o1.Fetched? && ChainTruthy(o1.chain)
    requires t1 <= a1 && t2 - t1 < CacheTtlMs
    ensures var s2 := Next(Next(e, t1, o1, a1).entry, t2, o2, a2);
      !s2.fetched && s2.result == Success(o1.chain) && s2.entry == Entry(o1.chain, a1)
  {
  }

  /** Staleness: once the time to live has passed since the last store, the next call fetches. */
  lemma StaleAfterTtl(e: Entry, t1: int, o1: FetchOutcome, a1: int, t2: int, o2: FetchOutcome, a2: int)
    requires Next(e, t1, o1, a1).fetched && o1.Fetched?
    requires t2 - a1 >= CacheTtlMs
    ensures Next(Next(e, t1, o1, a1).entry, t2, o2, a2).fetched
  {
  }

  /** Stale fallback: a stored truthy chain survives a failed refresh, however old it is. */
  lemma StaleFallback(e: Entry, t1: int, chain: Chain, a1: int, t2: int, err: UpstreamError, a2: int)
    requires ChainTruthy(chain) && !Fresh(e, t1)
    ensures var e1 := Next(e, t1, Fetched(chain), a1).entry;
      Next(e1, t2, FetchFailed(err), a2) == Step(e1, Success(chain), !Fresh(e1, t2))
  {
  }

  /** Cold failure: with nothing ever stored, a failed fetch propagates its error. */
  lemma ColdFailure(now: int, err: UpstreamError, after: int)
    ensures Next(Initial, now, FetchFailed(err), after) == Step(Initial, Failure(err), true)
  {
  }

  /**
   * A falsy chain (the upstream body was `null`, `0`, `false` or `""`) is
   * stored but never served from the cache: every later call fetches again,
   * and a failed refresh then propagates the error.
   */
  lemma FalsyChainNeverHits(e: Entry, t1: int, v: Js.Value, a1: int, t2: int, err: UpstreamError, a2: int)
    requires !Js.Truthy(v) && !Fresh(e, t1)
    ensures var e1 := Next(e, t1, Fetched(Scalar(v)), a1).entry;
      Next(e1, t2, FetchFailed(err), a2) == Step(e1, Failure(err), true)
  {
  }

  /**
   * Freshness is measured from the store, not from the previous call: a hit
   * at 8000 ms after a store at 0 ms does not make a call at 9500 ms a hit.
   */
  lemma FreshnessCountsFromStore(chain: Chain, o: FetchOutcome)
    requires ChainTruthy(chain)
    ensures var e := Entry(chain, 0);
      && !Next(e, 8000, o, 8000).fetched
      && Next(Next(e, 8000, o, 8000).entry, 9500, o, 9500).fetched
  {
  }

  /** Every pair a call leaves behind is the old pair or the fetched chain with the post-fetch reading. */
  lemma WrittenTogether(e: Entry, now: int, outcome: FetchOutcome, after: int)
    ensures var s := Next(e, now, outcome, after);
      s.entry == e || (outcome.Fetched? && s.entry == Entry(outcome.chain, after))
  {
  }
}
