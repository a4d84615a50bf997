/**
 * The `/fetch-live` handler (server.js:112-137) without the framework: the
 * query parameters go in, a status and a JSON body come out. The chain comes
 * from the cache, which the handler consults only after the required
 * parameters have been checked.
 */
module FetchLive {
  import opened Wrappers
  import opened Js
  import opened Snapshot
  import opened Resolver
  import opened ChainCache
  import Expiry

  /** The query string; `None` for a parameter that is absent. */
  datatype Query = Query(
    sellCall: Option<string>, sellPut: Option<string>,
    hedgeCall: Option<string>, hedgePut: Option<string>,
    expiry: Option<string>)

  /** The responses the handler sends. */
  datatype Response =
    | BadRequest(error: string)
    | ServerError(error: string)
    | Premiums(sellCallPremium: JsNumber, sellPutPremium: JsNumber,
               hedgeCallPremium: JsNumber, hedgePutPremium: JsNumber, expiry: string)

  function Status(r: Response): int {
    match r
    case BadRequest(_) => 400
    case ServerError(_) => 500
    case Premiums(_, _, _, _, _) => 200
  }

  /** A parameter is truthy: present and not the empty string. */
  predicate Given(p: Option<string>) {
    p.Some? && p.value != ""
  }

  predicate MissingRequired(q: Query) {
    !Given(q.sellCall) || !Given(q.sellPut)
  }

  /** `expiry ? formatExpiry(expiry) : null` */
  function FormattedExpiry(q: Query): Option<string> {
    if Given(q.expiry) then Expiry.FormatExpiry(q.expiry) else None
  }

  /** `hedge ? findLastPrice(chain, hedge, type, formattedExpiry) : 0` */
  function OptionalPremium(chain: Chain, p: Option<string>, t: OptionType, filter: Option<string>, conv: Conversions): JsNumber {
    if Given(p) then LastPrice(chain, p.value, t, filter, conv) else Zero
  }

  /**
   * The response for a query, given what ensureCachedChain returned or threw;
   * `lookup` is ignored when a required parameter is missing, since then the
   * cache is never consulted.
   */
  function Respond(q: Query, lookup: Result<Chain, UpstreamError>, conv: Conversions): (r: Response)
    ensures Status(r) == 400 <==> MissingRequired(q)
    ensures r.BadRequest? ==> r.error == "sellCall and sellPut required"
    ensures r.ServerError? <==> !MissingRequired(q) && (lookup.Failure? || !ChainTruthy(lookup.value))
    ensures r.ServerError? && lookup.Failure? ==> r.error == "Failed to fetch live premiums"
    ensures r.ServerError? && lookup.Success? ==> r.error == "No chain available"
    ensures r.Premiums? ==> lookup.Success? && ChainTruthy(lookup.value)
    ensures r.Premiums? ==>
      && r.sellCallPremium == LastPrice(lookup.value, q.sellCall.value, CallOption, FormattedExpiry(q), conv)
      && r.sellPutPremium == LastPrice(lookup.value, q.sellPut.value, PutOption, FormattedExpiry(q), conv)
    ensures r.Premiums? && Given(q.hedgeCall) ==>
      r.hedgeCallPremium == LastPrice(lookup.value, q.hedgeCall.value, CallOption, FormattedExpiry(q), conv)
    ensures r.Premiums? && Given(q.hedgePut) ==>
      r.hedgePutPremium == LastPrice(lookup.value, q.hedgePut.value, PutOption, FormattedExpiry(q), conv)
    ensures r.Premiums? && !Given(q.hedgeCall) ==> r.hedgeCallPremium == Zero
    ensures r.Premiums? && !Given(q.hedgePut) ==> r.hedgePutPremium == Zero
    ensures r.Premiums? ==> (r.expiry == "any" <==> FormattedExpiry(q).None?)
    ensures r.Premiums? && FormattedExpiry(q).Some? ==> r.expiry == FormattedExpiry(q).value
  {
    if MissingRequired(q) then BadRequest("sellCall and sellPut required")
    else
      var formattedExpiry := FormattedExpiry(q);
      match lookup
      case Failure(_) => ServerError("Failed to fetch live premiums")
      case Success(chain) =>
        if !ChainTruthy(chain) then ServerError("No chain available")
        else
          var sc := LastPrice(chain, q.sellCall.value, CallOption, formattedExpiry, conv);
          var sp := LastPrice(chain, q.sellPut.value, PutOption, formattedExpiry, conv);
          var hc := OptionalPremium(chain, q.hedgeCall, CallOption, formattedExpiry, conv);
          var hp := OptionalPremium(chain, q.hedgePut, PutOption, formattedExpiry, conv);
          Premiums(sc, sp, hc, hp, if Given(formattedExpiry) then formattedExpiry.value else "any")
  }

  /** The handler: check the parameters, then ask the cache, then answer. */
  method HandleFetchLive(cache: Cache, q: Query, now: int, outcome: FetchOutcome, after: int, conv: Conversions)
    returns (resp: Response)
    requires cache.Valid()
    modifies cache
    ensures cache.Valid()
    ensures MissingRequired(q) ==> unchanged(cache) && resp == BadRequest("sellCall and sellPut required")
    ensures !MissingRequired(q) ==>
      var s := Next(old(cache.Current()), now, outcome, after);
      cache.Current() == s.entry && resp == Respond(q, s.result, conv)
  {
    if !Given(q.sellCall) || !Given(q.sellPut) {
      return BadRequest("sellCall and sellPut required");
    }
    var lookup, _ := cache.EnsureCachedChain(now, outcome, after);
    resp := Respond(q, lookup, conv);
  }
}

/** Whole-request behaviour of `/fetch-live`. */
module FetchLiveProperties {
  import opened Wrappers
  import opened Js
  import opened Snapshot
  import opened Resolver
  import opened ChainCache
  import opened FetchLive
  import ResolverProperties
  import Expiry

  /**
   * A cold cache whose refresh fails answers 500 "Failed to fetch live
   * premiums", the error ensureCachedChain rethrows, caught by the handler.
   */
  lemma ColdFailureIsGenericError(q: Query, now: int, err: UpstreamError, after: int, conv: Conversions)
    requires !MissingRequired(q)
    ensures Respond(q, Next(Initial, now, FetchFailed(err), after).result, conv) == ServerError("Failed to fetch live premiums")
  {
  }

  /** "No chain available" is the answer only when the upstream body parsed to a falsy value. */
  lemma NoChainOnlyForFalsyBody(q: Query, lookup: Result<Chain, UpstreamError>, conv: Conversions)
    requires Respond(q, lookup, conv) == ServerError("No chain available")
    ensures lookup.Success? && !ChainTruthy(lookup.value)
  {
  }

  function ScenarioChain(febCall: JsNumber, marCall: JsNumber, febPut: JsNumber, other: JsNumber): Chain {
    Document(Some([
      ResolverProperties.ScenarioRow(26500.0, "27-Mar-2025", marCall, other),
      ResolverProperties.ScenarioRow(26500.0, "27-Feb-2025", febCall, other),
      ResolverProperties.ScenarioRow(25900.0, "27-Feb-2025", other, febPut)]), None)
  }

  lemma ScenarioSellCall(febCall: JsNumber, marCall: JsNumber, febPut: JsNumber, other: JsNumber, conv: Conversions)
    requires conv.parse("26500") == Finite(26500.0)
    ensures LastPrice(ScenarioChain(febCall, marCall, febPut, other), "26500", CallOption, Some("27-Feb-2025"), conv) == febCall
  {
    var r0 := ResolverProperties.ScenarioRow(26500.0, "27-Mar-2025", marCall, other);
    var r1 := ResolverProperties.ScenarioRow(26500.0, "27-Feb-2025", febCall, other);
    var r2 := ResolverProperties.ScenarioRow(25900.0, "27-Feb-2025", other, febPut);
    var rows, target, filter := [r0, r1, r2], Finite(26500.0), Some("27-Feb-2025");
    assert RowsOf(ScenarioChain(febCall, marCall, febPut, other)) == rows;
    assert !Hit(r0, target, filter, conv) by {
      ResolverProperties.MarchRowSkipped(marCall, other, conv);
    }
    assert Hit(r1, target, filter, conv) by {
      ResolverProperties.FebruaryRowAdmitted(26500.0, febCall, other, conv);
      ResolverProperties.ScenarioRowStrike(26500.0, "27-Feb-2025", febCall, other, conv);
    }
    assert FirstHit(rows, target, filter, conv) == Some(1) by {
      FirstHitAt(rows, target, filter, conv, 1);
    }
    assert RowPremium(r1, CallOption, conv) == febCall;
  }

  lemma ScenarioSellPut(febCall: JsNumber, marCall: JsNumber, febPut: JsNumber, other: JsNumber, conv: Conversions)
    requires conv.parse("25900") == Finite(25900.0)
    ensures LastPrice(ScenarioChain(febCall, marCall, febPut, other), "25900", PutOption, Some("27-Feb-2025"), conv) == febPut
  {
    var r0 := ResolverProperties.ScenarioRow(26500.0, "27-Mar-2025", marCall, other);
    var r1 := ResolverProperties.ScenarioRow(26500.0, "27-Feb-2025", febCall, other);
    var r2 := ResolverProperties.ScenarioRow(25900.0, "27-Feb-2025", other, febPut);
    var rows, target, filter := [r0, r1, r2], Finite(25900.0), Some("27-Feb-2025");
    assert RowsOf(ScenarioChain(febCall, marCall, febPut, other)) == rows;
    assert !Hit(r0, target, filter, conv) by {
      ResolverProperties.ScenarioRowStrike(26500.0, "27-Mar-2025", marCall, other, conv);
    }
    assert !Hit(r1, target, filter, conv) by {
      ResolverProperties.ScenarioRowStrike(26500.0, "27-Feb-2025", febCall, other, conv);
    }
    assert Hit(r2, target, filter, conv) by {
      ResolverProperties.FebruaryRowAdmitted(25900.0, other, febPut, conv);
      ResolverProperties.ScenarioRowStrike(25900.0, "27-Feb-2025", other, febPut, conv);
    }
    assert FirstHit(rows, target, filter, conv) == Some(2) by {
      FirstHitAt(rows, target, filter, conv, 2);
    }
    assert RowPremium(r2, PutOption, conv) == febPut;
  }

  /**
   * The request of the comment at server.js:111 without the hedge legs:
   * both sell legs are looked up with the filter 27-Feb-2025, the hedges
   * are 0 and that expiry is echoed, whatever the (truthy) chain.
   */
  lemma FebruaryQuery(q: Query, chain: Chain, conv: Conversions)
    requires q == Query(Some("26500"), Some("25900"), None, None, Some("20250227"))
    requires ChainTruthy(chain)
    ensures Respond(q, Success(chain), conv) == Premiums(
      LastPrice(chain, "26500", CallOption, Some("27-Feb-2025"), conv),
      LastPrice(chain, "25900", PutOption, Some("27-Feb-2025"), conv),
      Zero, Zero, "27-Feb-2025")
  {
    assert FormattedExpiry(q) == Some("27-Feb-2025") by { Expiry.FormatExamples(); }
  }

  /**
   * The same request against a chain holding 26500 calls for March and
   * February and a 25900 put for February: the February premiums.
   */
  lemma EndToEndScenario(q: Query, febCall: JsNumber, marCall: JsNumber, febPut: JsNumber, other: JsNumber, conv: Conversions)
    requires q == Query(Some("26500"), Some("25900"), None, None, Some("20250227"))
    requires conv.parse("26500") == Finite(26500.0) && conv.parse("25900") == Finite(25900.0)
    ensures Respond(q, Success(ScenarioChain(febCall, marCall, febPut, other)), conv) == Premiums(febCall, febPut, Zero, Zero, "27-Feb-2025")
  {
    var chain := ScenarioChain(febCall, marCall, febPut, other);
    assert ChainTruthy(chain);
    FebruaryQuery(q, chain, conv);
    assert LastPrice(chain, "26500", CallOption, Some("27-Feb-2025"), conv) == febCall by {
      ScenarioSellCall(febCall, marCall, febPut, other, conv);
    }
    assert LastPrice(chain, "25900", PutOption, Some("27-Feb-2025"), conv) == febPut by {
      ScenarioSellPut(febCall, marCall, febPut, other, conv);
    }
  }
}
