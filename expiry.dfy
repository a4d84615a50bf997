/**
 * `formatExpiry` (server.js:19-24): turns the compact request token
 * `YYYYMMDD` into the `DD-Mon-YYYY` form the option-chain rows carry.
 * The code checks only that the token is present and 8 characters long; it
 * does not check for digits, and a month key outside the table is
 * interpolated as the text "undefined".
 */
module Expiry {
  import opened Wrappers

  /** The month table of formatExpiry, keyed by two-character month number. */
  const Months: map<string, string> := map[
    "01" := "Jan", "02" := "Feb", "03" := "Mar", "04" := "Apr", "05" := "May", "06" := "Jun",
    "07" := "Jul", "08" := "Aug", "09" := "Sep", "10" := "Oct", "11" := "Nov", "12" := "Dec"]

  /** `months[m]` inside a template literal: the month name, or "undefined" for a key missing from the table. */
  function MonthText(m: string): string {
    if m in Months then Months[m] else "undefined"
  }

  /**
   * `formatExpiry(exp)`. `None` stands both for a missing or empty argument
   * and for the `null` result.
   */
  function FormatExpiry(exp: Option<string>): (r: Option<string>)
    ensures r.None? <==> exp.None? || |exp.value| != 8
    ensures r.Some? && exp.value[4..6] in Months ==>
      && |r.value| == 11
      && r.value[..2] == exp.value[6..]
      && r.value[2] == '-' && r.value[6] == '-'
      && r.value[3..6] == Months[exp.value[4..6]]
      && r.value[7..] == exp.value[..4]
    ensures r.Some? && exp.value[4..6] !in Months ==>
      r.value == exp.value[6..] + "-undefined-" + exp.value[..4]
  {
    match exp
    case None => None
    case Some(s) =>
      if |s| != 8 then None
      else
        var y, m, d := s[0..4], s[4..6], s[6..8];
        Some(d + "-" + MonthText(m) + "-" + y)
  }

  // A reference inverse, not part of server.js: it reads a `DD-Mon-YYYY`
  // token back into `YYYYMMDD`, so that the lemmas below can state that
  // formatExpiry loses nothing on tokens whose month is in the table.

  /** The month table read backwards. */
  const MonthNumbers: map<string, string> := map[
    "Jan" := "01", "Feb" := "02", "Mar" := "03", "Apr" := "04", "May" := "05", "Jun" := "06",
    "Jul" := "07", "Aug" := "08", "Sep" := "09", "Oct" := "10", "Nov" := "11", "Dec" := "12"]

  lemma MonthTablesInverse()
    ensures forall k :: k in Months ==> Months[k] in MonthNumbers && MonthNumbers[Months[k]] == k
    ensures forall n :: n in MonthNumbers ==> MonthNumbers[n] in Months && Months[MonthNumbers[n]] == n
  {
  }

  /** `DD-Mon-YYYY` back to `YYYYMMDD`; `None` if the token does not have that shape. */
  function CompactExpiry(display: string): (r: Option<string>)
    ensures r.Some? ==> |r.value| == 8 && r.value[4..6] in Months
  {
    if |display| == 11 && display[2] == '-' && display[6] == '-' && display[3..6] in MonthNumbers then
      MonthTablesInverse();
      Some(display[7..] + MonthNumbers[display[3..6]] + display[..2])
    else
      None
  }

  /** Formatting a token whose month is in the table, then reading it back, gives the token. */
  lemma FormatThenCompact(exp: string)
    requires |exp| == 8 && exp[4..6] in Months
    ensures FormatExpiry(Some(exp)).Some?
    ensures CompactExpiry(FormatExpiry(Some(exp)).value) == Some(exp)
  {
    MonthTablesInverse();
    var d := FormatExpiry(Some(exp)).value;
    assert d[3..6] == Months[exp[4..6]];
    assert d[7..] + MonthNumbers[d[3..6]] + d[..2] == exp;
  }

  /** Every well-shaped display token is what formatExpiry makes of its compact form. */
  lemma CompactThenFormat(display: string)
    requires CompactExpiry(display).Some?
    ensures FormatExpiry(CompactExpiry(display)) == Some(display)
  {
    MonthTablesInverse();
    var c := CompactExpiry(display).value;
    assert c[0..4] == display[7..];
    assert c[4..6] == MonthNumbers[display[3..6]];
    assert c[6..8] == display[..2];
    assert c[6..8] + "-" + MonthText(c[4..6]) + "-" + c[0..4] == display;
  }

  /** On tokens whose month is in the table, formatExpiry is one-to-one. */
  lemma FormatExpiryInjective(a: string, b: string)
    requires |a| == 8 && a[4..6] in Months
    requires |b| == 8 && b[4..6] in Months
    requires FormatExpiry(Some(a)) == FormatExpiry(Some(b))
    ensures a == b
  {
    FormatThenCompact(a);
    FormatThenCompact(b);
  }

  /**
   * The example of the request comment in server.js, and a token of letters:
   * there is no digit check, so any 8 characters are taken apart by position.
   */
  lemma FormatExamples()
    ensures FormatExpiry(Some("20250227")) == Some("27-Feb-2025")
    ensures FormatExpiry(Some("abcd01xy")) == Some("xy-Jan-abcd")
  {
    var s := "20250227";
    assert s[0..4] == "2025" && s[4..6] == "02" && s[6..8] == "27";
    assert MonthText("02") == "Feb";
    assert "27" + "-" + "Feb" + "-" + "2025" == "27-Feb-2025";
    var t := "abcd01xy";
    assert t[0..4] == "abcd" && t[4..6] == "01" && t[6..8] == "xy";
    assert MonthText("01") == "Jan";
    assert "xy" + "-" + "Jan" + "-" + "abcd" == "xy-Jan-abcd";
  }

  /** Month keys outside the table all print as "undefined", so distinct tokens can collide. */
  lemma UnknownMonthsCollide()
    ensures FormatExpiry(Some("20251327")) == Some("27-undefined-2025")
    ensures FormatExpiry(Some("20250027")) == FormatExpiry(Some("20251327"))
  {
    var a, b := "20251327", "20250027";
    assert a[0..4] == "2025" && a[4..6] == "13" && a[6..8] == "27";
    assert b[0..4] == "2025" && b[4..6] == "00" && b[6..8] == "27";
    assert MonthText("13") == "undefined" && MonthText("00") == "undefined";
    assert "27" + "-" + "undefined" + "-" + "2025" == "27-undefined-2025";
  }
}
