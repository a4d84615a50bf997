# Option-premium lookup server: cache and resolver model

A Dafny model of the core of `server.js`, a small Node/Express service that
serves NIFTY option premiums from the NSE option-chain API. The model covers
three pieces and the request handler that combines them:

- **Expiry conversion** (`formatExpiry`): the compact `YYYYMMDD` token becomes
  `DD-Mon-YYYY`, or `null` when the token is missing or not 8 characters long.
  Module `Expiry`, file `expiry.dfy`.
- **Chain cache** (`cachedChain`, `cachedAt`, `CACHE_TTL_MS`,
  `ensureCachedChain`): a class `ChainCache.Cache` with the two fields and the
  mutating method. The pure function `ChainCache.Next` specifies the method.
  It covers the hit, refresh, stale-fallback and cold-failure branches.
  File `chain_cache.dfy`.
- **Premium resolver** (`findLastPrice`): the two-pass search over the chain's
  rows, kept as a method with its two loops (`Resolver.FindLastPrice`). The
  method is proved equal to the function `Resolver.LastPrice`, and the
  properties are proved about that function. Files `snapshot.dfy` (the
  payload) and `resolver.dfy`.
- **`/fetch-live` handler**: parameter checks, the cache call, the four
  premiums and the echoed expiry. File `fetch_live.dfy`.

`js.dfy` holds the JavaScript semantics the code depends on:
- truthiness for `||`, `&&` and `!x`;
- nullishness for `??`;
- `===` on numbers, where NaN equals nothing;
- `Number(v)` and `String(v)`;
- `String.prototype.trim`, with the ECMAScript white-space and line-terminator set.

Numbers are `NaN`, the two infinities, or an exact real.
Parsing a string and printing a number are left uninterpreted. They are the
two function values of `Js.Conversions`, passed to everything that coerces.
Most lemmas hold for any parser and printer. Those for concrete scenarios
assume what the parser gives for the strike strings they use, for example
`conv.parse("26500") == Finite(26500.0)`. These are
`ResolverProperties.ExactExpiryPrecedence`, `ResolverProperties.ExpiryFallback`,
`FetchLiveProperties.ScenarioSellCall`, `FetchLiveProperties.ScenarioSellPut`
and `FetchLiveProperties.EndToEndScenario`.

The payload keeps the fields `findLastPrice` reads, under their JSON names.
Every field may be missing (`Undefined`), `null`, a boolean, a number, a
string or an object. Each field keeps its own `||` or `??` treatment:
- the row expiry is `expiryDate || expiry || CE.expiryDate || PE.expiryDate`;
- the strike is `strikePrice ?? strike_price ?? strike`;
- the side is `CE || call` or `PE || put`;
- the price is `lastPrice ?? last_traded_price ?? last_price ?? ltp`.

The top-level chain can be a falsy JSON value, because `JSON.parse` of the
upstream body need not give an object. This matters for the cache, whose
hit and fallback tests look at the chain's truthiness.

Clock readings and the outcome of the upstream fetch are parameters of the
cache method. `now` is the `Date.now()` taken on entry. `after` is the second
`Date.now()` (server.js:72), taken once the fetch has returned. `cachedAt`
takes `after`, not `now`.

### Behaviour of the code worth knowing

- A cold cache whose refresh fails does not answer "No chain available".
  `ensureCachedChain` rethrows, and the handler's `catch` answers 500 "Failed
  to fetch live premiums". "No chain available" comes only when a fetch
  succeeded with a falsy body such as `null`. See
  `FetchLiveProperties.ColdFailureIsGenericError` and
  `FetchLiveProperties.NoChainOnlyForFalsyBody`.
- Freshness is measured from the clock reading stored with the chain, not
  from the previous call. A call within 9 s of an earlier call that was itself
  a hit can still miss. See `ChainCacheProperties.FreshnessCountsFromStore`.
  The freshness the code does give is `ChainCacheProperties.FreshAfterFetch`.
- `formatExpiry` does not check for digits, and it prints an unknown month as
  "undefined". Such a token becomes a filter that matches no real row, not "no
  filter". See `Expiry.FormatExamples` and `Expiry.UnknownMonthsCollide`.
- A chain fetched as a falsy value is stored but never served. Every later
  call fetches again. See `ChainCacheProperties.FalsyChainNeverHits`.

## Model

| member | source | states |
|---|---|---|
| `Expiry.FormatExpiry` | server.js:19-24 | `null` exactly when the token is missing or its length is not 8. Otherwise the result is day, "-", the month name, "-", year (11 characters). An unknown month gives the text "undefined" in the middle. |
| `Expiry.CompactExpiry` | server.js:21-23 | Reference inverse of the conversion. Any result it gives is an 8-character token whose month is in the table. |
| `Expiry.MonthTablesInverse` | server.js:22 | The month table and its reverse are mutually inverse. |
| `Expiry.FormatThenCompact` | server.js:21-23 | Round trip: formatting a token with a valid month and reading it back gives the token. |
| `Expiry.CompactThenFormat` | server.js:21-23 | Round trip the other way: every well-shaped `DD-Mon-YYYY` is the formatting of its compact form. |
| `Expiry.FormatExpiryInjective` | server.js:21-23 | On tokens with a valid month, different tokens give different display forms. |
| `Expiry.FormatExamples` | server.js:19-24 | `"20250227"` gives `"27-Feb-2025"`. There is no digit check, so `"abcd01xy"` gives `"xy-Jan-abcd"`. |
| `Expiry.UnknownMonthsCollide` | server.js:22-23 | Months 13 and 00 both print as "undefined", so two distinct tokens give the same filter. |
| `Js.ToNumber` | server.js:92 | Definition of `Number(v)`: undefined gives NaN, null and false give 0, true gives 1, and a number is itself. A string, or an object's text, goes through the string parser. |
| `Js.ToStr` | server.js:91 | Definition of `String(v)`: "undefined", "null", "true" or "false", the printer's form of a number, or the string or object text itself. |
| `Js.Trim` | server.js:91 | Definition of `s.trim()`: white space is removed from the front, then from the back. The lemmas below state what it keeps. |
| `Js.TrimStartSuffix` | server.js:91 | Dropping leading white space keeps a suffix, drops only white space, and leaves no white space in front. |
| `Js.TrimEndPrefix` | server.js:91 | Dropping trailing white space keeps a prefix, drops only white space, and leaves no white space at the back. |
| `Js.TrimSlice` | server.js:91 | `trim` keeps a contiguous slice with only white space outside it and none at its ends. |
| `Js.TrimIdempotent` | server.js:91 | Trimming twice equals trimming once. |
| `Js.TrimUnpadded` | server.js:91 | A string with no white space at either end is unchanged by `trim`. |
| `Js.TrimPadded` | server.js:91 | White space before and after such a string is removed, in any amounts (the two sides may differ). |
| `Snapshot.RowsOf` | server.js:88 | The rows come from `filtered.data` if present (even when empty), else from `records.data`, else there are none. |
| `Resolver.SlotExpiry` | server.js:90 | Definition of `row.CE && row.CE.expiryDate`. A falsy slot gives itself, a leg gives its `expiryDate`, and a truthy non-object gives undefined. |
| `Resolver.RowExpiry` | server.js:90 | Definition of the row expiry: the first truthy of `expiryDate`, `expiry`, the CE expiry and the PE expiry, else `null`. |
| `Resolver.Admits` | server.js:91 | Definition of not being skipped by pass 1. Either the filter is absent or empty, or the row expiry is falsy, or the two trimmed strings are equal. |
| `Resolver.RowStrike` | server.js:92 | Definition of the row strike: `Number` of the first non-nullish of `strikePrice`, `strike_price` and `strike`. |
| `Resolver.Hit` | server.js:91-93 | Definition of a pass-1 hit: the row strike is `===` the target and the row is admitted. |
| `Resolver.SideOf` | server.js:94 | Definition of the side: `CE || call` for a call, `PE || put` for a put. |
| `Resolver.PriceField` | server.js:95 | Definition of the price: the first non-nullish of `lastPrice`, `last_traded_price`, `last_price` and `ltp`. It is undefined on a plain value. |
| `Resolver.Premium` | server.js:96 | Definition of the returned premium. A number is itself, another truthy value goes through `Number`, and a falsy value gives 0. |
| `Resolver.RowPremium` | server.js:94-96 | The premium of the requested side of a row. |
| `Resolver.LastPrice` | server.js:87-109 | Definition of `findLastPrice`. It is the premium of the first row admitted by the filter whose strike matches; failing that, of the first row whose strike matches; failing that, 0. `FindLastPrice` is proved equal to it, and the `ResolverProperties` lemmas are about it. |
| `Resolver.FirstHit` | server.js:89-93 | Gives the least index that passes the expiry test and has the strike, and no earlier row does. `None` exactly when no row does. |
| `Resolver.FirstHitAt` | server.js:89-93 | A hit with no hit before it is the first hit. |
| `Resolver.FindLastPrice` | server.js:87-109 | The two loops with their early returns compute `LastPrice`: pass 1, then pass 2 only if pass 1 found nothing, then 0. |
| `ResolverProperties.ExactMatchWins` | server.js:89-97 | The first row that passes the expiry test and has the strike gives the premium. |
| `ResolverProperties.FallbackIgnoresExpiry` | server.js:99-106 | When no row passes pass 1, the first row with the strike gives the premium, whatever its expiry. |
| `ResolverProperties.UnmatchedStrikeIsZero` | server.js:108 | No row with the strike gives premium 0. |
| `ResolverProperties.ResultComesFromMatchingRow` | server.js:87-109 | The result is 0 or the premium of a row with the strike. If any row passes pass 1, the row used passes pass 1 too, so a row whose expiry contradicts the filter is never used then. |
| `ResolverProperties.NoFilterMeansFirstStrike` | server.js:91 | An empty filter behaves like no filter. |
| `ResolverProperties.NaNStrikeIsZero` | server.js:92-93 | A requested strike that parses to NaN matches nothing and gives 0. |
| `ResolverProperties.EmptyFilteredHidesRecords` | server.js:88 | An empty `filtered.data` gives 0 whatever `records.data` holds. |
| `ResolverProperties.MissingStrikeNeverMatches` | server.js:92 | A row with no strike field converts to NaN and never matches. |
| `ResolverProperties.ZeroStrikeHidesAlternatives` | server.js:92 | `strikePrice` of 0 is used as it is, because `??` does not skip 0. |
| `ResolverProperties.PaddedExpiryAdmitted` | server.js:91 | A row expiry and a filter that agree once white space is stripped from either side of either string (in any amounts) are admitted. |
| `ResolverProperties.MismatchedExpirySkipped` | server.js:90-91 | With a truthy filter and a truthy row expiry that differ after trimming, the row is no hit in pass 1, for any strike. |
| `ResolverProperties.AlternateKeyResolves` | server.js:95 | A missing or null `lastPrice` falls through to the next key that holds a price. |
| `ResolverProperties.FalsyPriceDoesNotFallThrough` | server.js:95-96 | A `lastPrice` of 0 or "" is kept (`??`, not `||`) and gives 0. |
| `ResolverProperties.PremiumCoercion` | server.js:96 | A number is returned as it is, NaN included. A non-empty string goes through `Number`, `true` gives 1, and a falsy non-number gives 0. |
| `ResolverProperties.CallSideSelection` | server.js:94 | A falsy `CE` falls back to `call`. A truthy non-object `CE` does not, and gives 0. |
| `ResolverProperties.PutSideSelection` | server.js:94 | The same for `PE` and `put`. |
| `ResolverProperties.MarchRowSkipped` | server.js:90-91 | The filter made from 20250227 skips a 27-Mar-2025 row. |
| `ResolverProperties.FebruaryRowAdmitted` | server.js:90-91 | The same filter admits a 27-Feb-2025 row. |
| `ResolverProperties.ExactExpiryPrecedence` | server.js:89-97 | Rows for 26500 at March (first) and February, with expiry 20250227: the February premium. |
| `ResolverProperties.ExpiryFallback` | server.js:99-106 | Only a March row for 26500, with expiry 20250227: that row's premium, from pass 2. |
| `ChainCache.Next` | server.js:66-80 | A fetch happens exactly on a miss (no truthy chain, or its age is 9000 ms or more). A hit returns the stored chain and keeps the pair. A successful fetch stores the chain with the post-fetch reading and returns it. A failed fetch keeps the pair, and returns the stale chain if it is truthy, the error otherwise. |
| `ChainCache.Cache.constructor` | server.js:15-16 | Starts with `cachedChain = null`, `cachedAt = 0`, and nothing stored yet. |
| `ChainCache.Cache.EnsureCachedChain` | server.js:66-80 | The fields, the result and the fetch flag are those of `Next`. It keeps the invariant that the pair is the initial one or the last stored chain with its own reading. |
| `ChainCacheProperties.FreshAfterFetch` | server.js:68-72 | After a fetch of a truthy chain, a call within 9 s of that call returns the same chain without fetching. |
| `ChainCacheProperties.StaleAfterTtl` | server.js:68 | Once 9000 ms have passed since the store, the next call fetches. |
| `ChainCacheProperties.StaleFallback` | server.js:75-77 | A stored truthy chain is returned when a later refresh fails. |
| `ChainCacheProperties.ColdFailure` | server.js:75-79 | With nothing stored, a failed fetch propagates its error and changes nothing. |
| `ChainCacheProperties.FalsyChainNeverHits` | server.js:77-78 | A falsy fetched chain leaves a later failed refresh with the error, not a chain. |
| `ChainCacheProperties.FreshnessCountsFromStore` | server.js:68-72 | A hit at 8000 ms after a store at 0 ms does not make a call at 9500 ms a hit. |
| `ChainCacheProperties.WrittenTogether` | server.js:70-74 | Every pair left behind is the old pair or the fetched chain with the post-fetch reading, never a mix. |
| `FetchLive.Respond` | server.js:114-132 | A 400 "sellCall and sellPut required" exactly when `sellCall` or `sellPut` is missing or empty. A 500 exactly when the cache threw or gave a falsy chain. Its message is "Failed to fetch live premiums" when the cache threw and "No chain available" for a falsy chain. Otherwise: both sell premiums are `LastPrice`; a given hedge's premium is `LastPrice` and an absent hedge's is 0; the expiry is the formatted filter when there is one, and "any" exactly when there is none. |
| `FetchLive.HandleFetchLive` | server.js:112-137 | A 400 leaves the cache untouched. Otherwise the cache steps as `Next` does and the response is `Respond` of its result. |
| `FetchLive.FormattedExpiry` | server.js:117 | Definition of the filter: `formatExpiry(expiry)` when the `expiry` parameter is given and non-empty, else none. |
| `FetchLive.OptionalPremium` | server.js:123-124 | Definition of a hedge premium: `LastPrice` for a given, non-empty hedge parameter, else 0. |
| `FetchLiveProperties.ColdFailureIsGenericError` | server.js:133-135 | A cold cache with a failing fetch answers 500 "Failed to fetch live premiums". |
| `FetchLiveProperties.NoChainOnlyForFalsyBody` | server.js:119 | "No chain available" only when the cache returned a falsy chain. |
| `FetchLiveProperties.FebruaryQuery` | server.js:111-132 | `sellCall=26500&sellPut=25900&expiry=20250227` against any truthy chain. Both sell legs are looked up with the filter "27-Feb-2025", the hedges are 0, and that expiry is echoed. |
| `FetchLiveProperties.EndToEndScenario` | server.js:111-132 | The same query against rows for March and February gives the February call and put premiums. |

## Left out

- `fetchOptionChainFromNSE` (server.js:26-64): the two HTTP requests, the
  browser headers, the redirect setting, reading the body and `JSON.parse`.
  These are network I/O. The cache sees only the outcome: a parsed chain, or
  a transport or parse failure.
- The `setInterval` refresh (server.js:82-84): it is timer-driven. It calls the
  same `ensureCachedChain` path and discards errors, so overlapping refreshes
  are not modelled.
- Express setup, static files, routing, `res.status(...).json(...)`
  serialisation (a NaN premium would become `null`), `PORT` and `app.listen`.
  These are framework I/O.
- `Date.now()` and `toLocaleTimeString`: clock readings are parameters, and
  logging is dropped. Neither is modelled.
- `console` logging throughout.
- Floating point: numbers are exact reals plus NaN and the infinities, so
  rounding is not modelled. `Number(string)` and `String(number)` are
  uninterpreted.
- Payload shapes on which JavaScript throws or iterates strangely are not
  modelled:
  - a truthy `filtered.data` or `records.data` that is not an array;
  - a `null` row.
  The model types `data` as an array and a row as an object.
- Query parameters given more than once, which Express turns into arrays, are
  not modelled. Parameters are strings or absent.
- JavaScript strings are UTF-16 code units, but Dafny `char` is a Unicode
  scalar value. This makes no difference to the characters `trim` removes,
  all of which are single code units.
- Expiry.FormatExpiry: its length test and its slices count Unicode scalar
  values, not UTF-16 code units. A token holding a character outside the
  Basic Multilingual Plane therefore gets a different length than in
  JavaScript. For example, `"2025😀27"` is 8 code units, and server.js formats
  it as `"27-undefined-2025"`. It is 7 characters here, so the model returns
  `None`.
