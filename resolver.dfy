/**
 * `findLastPrice` (server.js:87-109): the premium of the first row whose
 * strike equals the requested one, preferring rows whose expiry does not
 * contradict the requested expiry; 0 when no row has that strike.
 */
module Resolver {
  import opened Wrappers
  import opened Js
  import opened Snapshot

  /** The `type` argument; the handler passes only "CE" or "PE". */
  datatype OptionType = CallOption | PutOption

  /** `slot && slot.expiryDate`: the slot itself when falsy, else its expiryDate (undefined on a plain value). */
  function SlotExpiry(s: Slot): Value {
    match s
    case Leg(e, _, _, _, _) => e
    case Plain(v) => if Truthy(v) then Undefined else v
  }

  /** `row.expiryDate || row.expiry || (row.CE && row.CE.expiryDate) || (row.PE && row.PE.expiryDate) || null` */
  function RowExpiry(row: Row): Value {
    Or(row.expiryDate, Or(row.expiry, Or(SlotExpiry(row.CE), Or(SlotExpiry(row.PE), Null))))
  }

  /** `Number(row.strikePrice ?? row.strike_price ?? row.strike)` */
  function RowStrike(row: Row, conv: Conversions): JsNumber {
    ToNumber(Coalesce(Coalesce(row.strikePrice, row.strike_price), row.strike), conv)
  }

  /** `(type === "CE") ? (row.CE || row.call) : (row.PE || row.put)` */
  function SideOf(row: Row, t: OptionType): Slot {
    match t
    case CallOption => if SlotTruthy(row.CE) then row.CE else row.call
    case PutOption => if SlotTruthy(row.PE) then row.PE else row.put
  }

  /** `opt?.lastPrice ?? opt?.last_traded_price ?? opt?.last_price ?? opt?.ltp` */
  function PriceField(opt: Slot): Value {
    match opt
    case Plain(_) => Undefined
    case Leg(_, lastPrice, lastTraded, last, ltp) => Coalesce(Coalesce(Coalesce(lastPrice, lastTraded), last), ltp)
  }

  /** `(typeof lp === "number") ? lp : (lp ? Number(lp) : 0)` */
  function Premium(lp: Value, conv: Conversions): JsNumber {
    if lp.Num? then lp.n else if Truthy(lp) then ToNumber(lp, conv) else Zero
  }

  /** The premium a matched row yields for the requested side. */
  function RowPremium(row: Row, t: OptionType, conv: Conversions): JsNumber {
    Premium(PriceField(SideOf(row, t)), conv)
  }

  /**
   * Pass 1's expiry test: a row is skipped when a filter was given (truthy),
   * the row's expiry is truthy, and their trimmed string forms differ.
   * With `filter == None` every row is admitted, which is pass 2.
   */
  predicate Admits(row: Row, filter: Option<string>, conv: Conversions) {
    var e := RowExpiry(row);
    !(filter.Some? && filter.value != "" && Truthy(e) && Trim(ToStr(e, conv)) != Trim(filter.value))
  }

  /** The row's strike is `=== target` and the row is admitted. */
  predicate Hit(row: Row, target: JsNumber, filter: Option<string>, conv: Conversions) {
    StrictEquals(RowStrike(row, conv), target) && Admits(row, filter, conv)
  }

  /** The index of the first row that is a `Hit`, if any. */
  function FirstHit(rows: seq<Row>, target: JsNumber, filter: Option<string>, conv: Conversions): (r: Option<nat>)
    ensures r.Some? ==> r.value < |rows| && Hit(rows[r.value], target, filter, conv)
    ensures r.Some? ==> forall j :: 0 <= j < r.value ==> !Hit(rows[j], target, filter, conv)
    ensures r.None? ==> forall j :: 0 <= j < |rows| ==> !Hit(rows[j], target, filter, conv)
  {
    if rows == [] then None
    else if Hit(rows[0], target, filter, conv) then Some(0)
    else
      match FirstHit(rows[1..], target, filter, conv)
      case Some(k) => Some(k + 1)
      case None => None
  }

  /** The first hit is determined by the hits: a hit with none before it is the first. */
  lemma FirstHitAt(rows: seq<Row>, target: JsNumber, filter: Option<string>, conv: Conversions, i: nat)
    requires i < |rows| && Hit(rows[i], target, filter, conv)
    requires forall j :: 0 <= j < i ==> !Hit(rows[j], target, filter, conv)
    ensures FirstHit(rows, target, filter, conv) == Some(i)
  {
  }

  /** What findLastPrice returns, as a function of its arguments. */
  function LastPrice(chain: Chain, strike: string, t: OptionType, filter: Option<string>, conv: Conversions): JsNumber {
    var rows := RowsOf(chain);
    var target := conv.parse(strike);
    match FirstHit(rows, target, filter, conv)
    case Some(i) => RowPremium(rows[i], t, conv)
    case None =>
      match FirstHit(rows, target, None, conv)
      case Some(i) => RowPremium(rows[i], t, conv)
      case None => Zero
  }

  /** findLastPrice itself: the two `for...of` loops with their early returns. */
  method FindLastPrice(chain: Chain, strike: string, t: OptionType, formattedExpiry: Option<string>, conv: Conversions)
    returns (price: JsNumber)
    ensures price == LastPrice(chain, strike, t, formattedExpiry, conv)
  {
    var rows := RowsOf(chain);
    var target := conv.parse(strike);
    for i := 0 to |rows|
      invariant forall j :: 0 <= j < i ==> !Hit(rows[j], target, formattedExpiry, conv)
    {
      var row := rows[i];
      var rowExpiry := RowExpiry(row);
      if formattedExpiry.Some? && formattedExpiry.value != "" && Truthy(rowExpiry)
        && Trim(ToStr(rowExpiry, conv)) != Trim(formattedExpiry.value) {
        continue;
      }
      if StrictEquals(RowStrike(row, conv), target) {
        FirstHitAt(rows, target, formattedExpiry, conv, i);
        return RowPremium(row, t, conv);
      }
    }
    assert FirstHit(rows, target, formattedExpiry, conv).None?;
    // fallback: find ignoring expiry
    for i := 0 to |rows|
      invariant forall j :: 0 <= j < i ==> !Hit(rows[j], target, None, conv)
    {
      var row := rows[i];
      if StrictEquals(RowStrike(row, conv), target) {
        FirstHitAt(rows, target, None, conv, i);
        return RowPremium(row, t, conv);
      }
    }
    assert FirstHit(rows, target, None, conv).None?;
    return Zero;
  }
}

/** What findLastPrice promises, stated over LastPrice. */
module ResolverProperties {
  import opened Wrappers
  import opened Js
  import opened Snapshot
  import opened Resolver
  import Expiry

  /** Pass 1: the first row that passes the expiry test and has the strike decides the result. */
  lemma ExactMatchWins(chain: Chain, strike: string, t: OptionType, filter: Option<string>, conv: Conversions, i: nat)
    requires var rows := RowsOf(chain);
      && i < |rows| && Hit(rows[i], conv.parse(strike), filter, conv)
      && forall j :: 0 <= j < i ==> !Hit(rows[j], conv.parse(strike), filter, conv)
    ensures LastPrice(chain, strike, t, filter, conv) == RowPremium(RowsOf(chain)[i], t, conv)
  {
    FirstHitAt(RowsOf(chain), conv.parse(strike), filter, conv, i);
  }

  /**
   * Pass 2 only when pass 1 found nothing: then the first row with the
   * strike decides the result, whatever its expiry.
   */
  lemma FallbackIgnoresExpiry(chain: Chain, strike: string, t: OptionType, filter: Option<string>, conv: Conversions, i: nat)
    requires var rows := RowsOf(chain);
      && (forall j :: 0 <= j < |rows| ==> !Hit(rows[j], conv.parse(strike), filter, conv))
      && i < |rows| && StrictEquals(RowStrike(rows[i], conv), conv.parse(strike))
      && forall j :: 0 <= j < i ==> !StrictEquals(RowStrike(rows[j], conv), conv.parse(strike))
    ensures LastPrice(chain, strike, t, filter, conv) == RowPremium(RowsOf(chain)[i], t, conv)
  {
    FirstHitAt(RowsOf(chain), conv.parse(strike), None, conv, i);
  }

  /** No row with the requested strike: the premium is 0. */
  lemma UnmatchedStrikeIsZero(chain: Chain, strike: string, t: OptionType, filter: Option<string>, conv: Conversions)
    requires forall j :: 0 <= j < |RowsOf(chain)| ==> !StrictEquals(RowStrike(RowsOf(chain)[j], conv), conv.parse(strike))
    ensures LastPrice(chain, strike, t, filter, conv) == Zero
  {
  }

  /**
   * The result is always 0 or the premium of a row with the requested
   * strike; and whenever some row passes pass 1's expiry test with that
   * strike, the row used passes it too, so a row whose expiry contradicts
   * the filter never supplies the premium then.
   */
  lemma ResultComesFromMatchingRow(chain: Chain, strike: string, t: OptionType, filter: Option<string>, conv: Conversions)
    ensures var rows, p := RowsOf(chain), LastPrice(chain, strike, t, filter, conv);
      || p == Zero
      || exists i :: 0 <= i < |rows| && StrictEquals(RowStrike(rows[i], conv), conv.parse(strike)) && p == RowPremium(rows[i], t, conv)
    ensures var rows, p := RowsOf(chain), LastPrice(chain, strike, t, filter, conv);
      (exists k :: 0 <= k < |rows| && Hit(rows[k], conv.parse(strike), filter, conv)) ==>
      exists i :: 0 <= i < |rows| && Hit(rows[i], conv.parse(strike), filter, conv) && p == RowPremium(rows[i], t, conv)
  {
    var rows, target := RowsOf(chain), conv.parse(strike);
    var r1 := FirstHit(rows, target, filter, conv);
    if r1.Some? {
      assert StrictEquals(RowStrike(rows[r1.value], conv), target);
    } else {
      var r2 := FirstHit(rows, target, None, conv);
      if r2.Some? {
        assert StrictEquals(RowStrike(rows[r2.value], conv), target);
      }
    }
  }

  /** Without a (truthy) filter the two passes coincide: the first row with the strike wins. */
  lemma NoFilterMeansFirstStrike(chain: Chain, strike: string, t: OptionType, conv: Conversions)
    ensures LastPrice(chain, strike, t, Some(""), conv) == LastPrice(chain, strike, t, None, conv)
  {
    var rows, target := RowsOf(chain), conv.parse(strike);
    forall j | 0 <= j < |rows|
      ensures Hit(rows[j], target, Some(""), conv) == Hit(rows[j], target, None, conv)
    {
    }
    var a, b := FirstHit(rows, target, Some(""), conv), FirstHit(rows, target, None, conv);
    if a.Some? {
      FirstHitAt(rows, target, None, conv, a.value);
    }
  }

  /** A requested strike that parses to NaN matches nothing, since NaN !== NaN. */
  lemma NaNStrikeIsZero(chain: Chain, strike: string, t: OptionType, filter: Option<string>, conv: Conversions)
    requires conv.parse(strike) == NaN
    ensures LastPrice(chain, strike, t, filter, conv) == Zero
  {
    UnmatchedStrikeIsZero(chain, strike, t, filter, conv);
  }

  /** An empty `filtered.data` is a truthy array, so `records.data` is never consulted. */
  lemma EmptyFilteredHidesRecords(records: Option<seq<Row>>, strike: string, t: OptionType, filter: Option<string>, conv: Conversions)
    ensures LastPrice(Document(Some([]), records), strike, t, filter, conv) == Zero
  {
  }

  /** A row whose strike fields are all missing has strike NaN and is never matched. */
  lemma MissingStrikeNeverMatches(row: Row, target: JsNumber, filter: Option<string>, conv: Conversions)
    requires row.strikePrice == Undefined && row.strike_price == Undefined && row.strike == Undefined
    ensures !Hit(row, target, filter, conv)
  {
  }

  /** `strikePrice ?? ...` stops at 0: a strike of 0 hides the alternative keys. */
  lemma ZeroStrikeHidesAlternatives(row: Row, conv: Conversions)
    requires row.strikePrice == Num(Zero)
    ensures RowStrike(row, conv) == Zero
  {
  }

  /**
   * The expiry test compares trimmed strings, so white space around the row's
   * expiry or around the filter, on either side and in any amounts, does not matter.
   */
  lemma PaddedExpiryAdmitted(row: Row, pre: string, post: string, e: string, fpre: string, fpost: string, conv: Conversions)
    requires forall k :: 0 <= k < |pre| ==> IsWhiteSpace(pre[k])
    requires forall k :: 0 <= k < |post| ==> IsWhiteSpace(post[k])
    requires forall k :: 0 <= k < |fpre| ==> IsWhiteSpace(fpre[k])
    requires forall k :: 0 <= k < |fpost| ==> IsWhiteSpace(fpost[k])
    requires e != [] && !IsWhiteSpace(e[0]) && !IsWhiteSpace(e[|e| - 1])
    requires row.expiryDate == Str(pre + e + post)
    ensures Admits(row, Some(fpre + e + fpost), conv)
  {
    TrimPadded(pre, e, post);
    TrimPadded(fpre, e, fpost);
  }

  /** A row whose truthy expiry differs from the filter after trimming is skipped by pass 1. */
  lemma MismatchedExpirySkipped(row: Row, filter: string, conv: Conversions)
    requires filter != "" && Truthy(RowExpiry(row))
    requires Trim(ToStr(RowExpiry(row), conv)) != Trim(filter)
    ensures forall target :: !Hit(row, target, Some(filter), conv)
  {
  }

  // Price-field resolution (server.js:94-96).

  /** An alternate key is used when the primary one is missing or null. */
  lemma AlternateKeyResolves(e: Value, x: JsNumber, last: Value, ltp: Value, conv: Conversions)
    ensures Premium(PriceField(Leg(e, Undefined, Num(x), last, ltp)), conv) == x
    ensures Premium(PriceField(Leg(e, Null, Undefined, Undefined, Num(x))), conv) == x
  {
  }

  /** `??` is not `||`: a price of 0 or "" is kept, not replaced by the next key. */
  lemma FalsyPriceDoesNotFallThrough(e: Value, next: Value, last: Value, ltp: Value, conv: Conversions)
    ensures Premium(PriceField(Leg(e, Num(Zero), next, last, ltp)), conv) == Zero
    ensures Premium(PriceField(Leg(e, Str(""), next, last, ltp)), conv) == Zero
  {
  }

  /** A numeric price is returned as it is, NaN included; a truthy non-number is coerced; a falsy one gives 0. */
  lemma PremiumCoercion(lp: Value, conv: Conversions)
    ensures lp.Num? ==> Premium(lp, conv) == lp.n
    ensures lp.Str? && lp.s != "" ==> Premium(lp, conv) == conv.parse(lp.s)
    ensures lp == Bool(true) ==> Premium(lp, conv) == Finite(1.0)
    ensures !lp.Num? && !Truthy(lp) ==> Premium(lp, conv) == Zero
  {
  }

  /** `row.CE || row.call`: a falsy CE falls back to `call`; a truthy CE does not, even without a price. */
  lemma CallSideSelection(row: Row, conv: Conversions)
    ensures !SlotTruthy(row.CE) ==> RowPremium(row, CallOption, conv) == Premium(PriceField(row.call), conv)
    ensures row.CE.Plain? && Truthy(row.CE.v) ==> RowPremium(row, CallOption, conv) == Zero
  {
  }

  lemma PutSideSelection(row: Row, conv: Conversions)
    ensures !SlotTruthy(row.PE) ==> RowPremium(row, PutOption, conv) == Premium(PriceField(row.put), conv)
    ensures row.PE.Plain? && Truthy(row.PE.v) ==> RowPremium(row, PutOption, conv) == Zero
  {
  }

  // The two expiry scenarios of the request comment in server.js:111, on rows
  // shaped like the upstream payload (expiry and strike at the top, prices in CE/PE).

  function ScenarioRow(strike: real, expiry: string, call: JsNumber, put: JsNumber): Row {
    Row(Str(expiry), Undefined, Num(Finite(strike)), Undefined, Undefined,
        Leg(Str(expiry), Num(call), Undefined, Undefined, Undefined),
        Leg(Str(expiry), Num(put), Undefined, Undefined, Undefined),
        Plain(Undefined), Plain(Undefined))
  }

  lemma ScenarioRowStrike(strike: real, expiry: string, call: JsNumber, put: JsNumber, conv: Conversions)
    ensures RowStrike(ScenarioRow(strike, expiry, call, put), conv) == Finite(strike)
  {
  }

  /** The filter that formatExpiry makes of 20250227 skips a 27-Mar-2025 row. */
  lemma MarchRowSkipped(call: JsNumber, put: JsNumber, conv: Conversions)
    ensures !Admits(ScenarioRow(26500.0, "27-Mar-2025", call, put), Some("27-Feb-2025"), conv)
  {
    TrimUnpadded("27-Mar-2025");
    TrimUnpadded("27-Feb-2025");
    assert "27-Mar-2025"[4] != "27-Feb-2025"[4];
  }

  /** The same filter admits a 27-Feb-2025 row, whatever its strike. */
  lemma FebruaryRowAdmitted(strike: real, call: JsNumber, put: JsNumber, conv: Conversions)
    ensures Admits(ScenarioRow(strike, "27-Feb-2025", call, put), Some("27-Feb-2025"), conv)
  {
  }

  /** Rows for 26500 at 27-Mar-2025 (first) and 27-Feb-2025: expiry 20250227 picks the February row. */
  lemma ExactExpiryPrecedence(feb: JsNumber, mar: JsNumber, put: JsNumber, conv: Conversions)
    requires conv.parse("26500") == Finite(26500.0)
    ensures var chain := Document(Some([ScenarioRow(26500.0, "27-Mar-2025", mar, put), ScenarioRow(26500.0, "27-Feb-2025", feb, put)]), None);
      LastPrice(chain, "26500", CallOption, Expiry.FormatExpiry(Some("20250227")), conv) == feb
  {
    var chain := Document(Some([ScenarioRow(26500.0, "27-Mar-2025", mar, put), ScenarioRow(26500.0, "27-Feb-2025", feb, put)]), None);
    var rows, target, filter := RowsOf(chain), Finite(26500.0), Some("27-Feb-2025");
    assert Expiry.FormatExpiry(Some("20250227")) == filter by { Expiry.FormatExamples(); }
    assert !Hit(rows[0], target, filter, conv) by { MarchRowSkipped(mar, put, conv); }
    assert Hit(rows[1], target, filter, conv) by {
      FebruaryRowAdmitted(26500.0, feb, put, conv);
      ScenarioRowStrike(26500.0, "27-Feb-2025", feb, put, conv);
    }
    ExactMatchWins(chain, "26500", CallOption, filter, conv, 1);
  }

  /** Only a 27-Mar-2025 row for 26500: expiry 20250227 still gets its premium, from pass 2. */
  lemma ExpiryFallback(mar: JsNumber, put: JsNumber, conv: Conversions)
    requires conv.parse("26500") == Finite(26500.0)
    ensures var chain := Document(Some([ScenarioRow(26500.0, "27-Mar-2025", mar, put)]), None);
      LastPrice(chain, "26500", CallOption, Expiry.FormatExpiry(Some("20250227")), conv) == mar
  {
    var chain := Document(Some([ScenarioRow(26500.0, "27-Mar-2025", mar, put)]), None);
    var rows, target, filter := RowsOf(chain), Finite(26500.0), Some("27-Feb-2025");
    assert Expiry.FormatExpiry(Some("20250227")) == filter by { Expiry.FormatExamples(); }
    assert !Hit(rows[0], target, filter, conv) by { MarchRowSkipped(mar, put, conv); }
    assert StrictEquals(RowStrike(rows[0], conv), target) by {
      ScenarioRowStrike(26500.0, "27-Mar-2025", mar, put, conv);
    }
    FallbackIgnoresExpiry(chain, "26500", CallOption, filter, conv, 0);
  }
}
