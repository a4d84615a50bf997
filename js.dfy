/**
 * The small part of JavaScript's value semantics that server.js relies on:
 * truthiness (`||`, `&&`, `!x`), nullish coalescing (`??`), strict number
 * equality (`===`), the `Number(...)` and `String(...)` coercions and
 * `String.prototype.trim`.
 *
 * Parsing a string as a number and printing a number as a string are left
 * uninterpreted: they are function values in `Conversions`, a parameter of
 * everything that coerces, so every result here holds for any such functions.
 */
module Js {

  /** A JavaScript number, abstracted from IEEE doubles: NaN, the two infinities, and exact reals otherwise. */
  datatype JsNumber = NaN | Infinity(negative: bool) | Finite(value: real)

  /**
   * A JSON leaf value as it sits in a parsed payload. `Undefined` stands for a
   * missing property; `Compound(text)` is an object or array whose default
   * string form (`String(v)`, e.g. "[object Object]") is `text`.
   */
  datatype Value =
    | Undefined
    | Null
    | Bool(b: bool)
    | Num(n: JsNumber)
    | Str(s: string)
    | Compound(text: string)

  /** The host's string-to-number parser (`Number(str)`) and number printer (`String(n)`). */
  datatype Conversions = Conversions(parse: string -> JsNumber, show: JsNumber -> string)

  const Zero := Finite(0.0)

  predicate NumberTruthy(n: JsNumber) {
    n != NaN && n != Zero
  }

  /** JavaScript truthiness: everything except undefined, null, false, 0, NaN and "". */
  predicate Truthy(v: Value) {
    match v
    case Undefined => false
    case Null => false
    case Bool(b) => b
    case Num(n) => NumberTruthy(n)
    case Str(s) => s != ""
    case Compound(_) => true
  }

  predicate Nullish(v: Value) {
    v == Undefined || v == Null
  }

  /** `a || b` */
  function Or(a: Value, b: Value): Value {
    if Truthy(a) then a else b
  }

  /** `a ?? b` */
  function Coalesce(a: Value, b: Value): Value {
    if Nullish(a) then b else a
  }

  /** `a === b` on numbers: NaN equals nothing, not even itself. */
  predicate StrictEquals(a: JsNumber, b: JsNumber) {
    a != NaN && a == b
  }

  /** `Number(v)` */
  function ToNumber(v: Value, conv: Conversions): JsNumber {
    match v
    case Undefined => NaN
    case Null => Zero
    case Bool(b) => if b then Finite(1.0) else Zero
    case Num(n) => n
    case Str(s) => conv.parse(s)
    case Compound(text) => conv.parse(text)
  }

  /** `String(v)` */
  function ToStr(v: Value, conv: Conversions): string {
    match v
    case Undefined => "undefined"
    case Null => "null"
    case Bool(b) => if b then "true" else "false"
    case Num(n) => conv.show(n)
    case Str(s) => s
    case Compound(text) => text
  }

  /**
   * The characters `trim` removes: ECMAScript WhiteSpace (tab, vertical tab,
   * form feed, space, no-break space, byte order mark and the other Zs
   * separators) and LineTerminator (LF, CR, U+2028, U+2029).
   */
  predicate IsWhiteSpace(c: char) {
    var u := c as int;
    u == 0x09 || u == 0x0A || u == 0x0B || u == 0x0C || u == 0x0D || u == 0x20 ||
    u == 0xA0 || u == 0x1680 || (0x2000 <= u <= 0x200A) || u == 0x2028 || u == 0x2029 ||
    u == 0x202F || u == 0x205F || u == 0x3000 || u == 0xFEFF
  }

  /** `s.trimStart()` */
  function TrimStart(s: string): string {
    if s != [] && IsWhiteSpace(s[0]) then TrimStart(s[1..]) else s
  }

  /** `s.trimEnd()` */
  function TrimEnd(s: string): string {
    if s != [] && IsWhiteSpace(s[|s| - 1]) then TrimEnd(s[..|s| - 1]) else s
  }

  /** `s.trim()` */
  function Trim(s: string): string {
    TrimEnd(TrimStart(s))
  }

  /** TrimStart keeps a suffix of `s`, drops only white space, and leaves no white space in front. */
  lemma {:induction false} TrimStartSuffix(s: string)
    ensures var r := TrimStart(s);
      && |r| <= |s| && r == s[|s| - |r|..]
      && (forall k :: 0 <= k < |s| - |r| ==> IsWhiteSpace(s[k]))
      && (r == [] || !IsWhiteSpace(r[0]))
  {
    if s != [] && IsWhiteSpace(s[0]) {
      TrimStartSuffix(s[1..]);
    }
  }

  /** TrimEnd keeps a prefix of `s`, drops only white space, and leaves no white space at the back. */
  lemma {:induction false} TrimEndPrefix(s: string)
    ensures var r := TrimEnd(s);
      && |r| <= |s| && r == s[..|r|]
      && (forall k :: |r| <= k < |s| ==> IsWhiteSpace(s[k]))
      && (r == [] || !IsWhiteSpace(r[|r| - 1]))
  {
    if s != [] && IsWhiteSpace(s[|s| - 1]) {
      TrimEndPrefix(s[..|s| - 1]);
    }
  }

  /**
   * What `trim` keeps: the slice of `s` that starts at some `i`, with nothing
   * but white space before and after it and no white space at either end.
   */
  lemma TrimSlice(s: string)
    ensures exists i :: 0 <= i <= |s| - |Trim(s)| && TrimmedAt(s, i, Trim(s))
    ensures var r := Trim(s); r == [] || (!IsWhiteSpace(r[0]) && !IsWhiteSpace(r[|r| - 1]))
  {
    var t := TrimStart(s);
    var r := TrimEnd(t);
    TrimStartSuffix(s);
    TrimEndPrefix(t);
    assert r == Trim(s);
    assert TrimmedAt(s, |s| - |t|, r) by {
      assert r == t[..|r|];
    }
    if r != [] {
      assert t[0] == r[0];
    }
  }

  /** `r` is `s[i..i + |r|]` and everything of `s` outside that slice is white space. */
  ghost predicate TrimmedAt(s: string, i: nat, r: string)
    requires i + |r| <= |s|
  {
    && r == s[i..][..|r|]
    && (forall k :: 0 <= k < i ==> IsWhiteSpace(s[k]))
    && (forall k :: i + |r| <= k < |s| ==> IsWhiteSpace(s[k]))
  }

  /** Trimming twice is trimming once. */
  lemma {:induction false} TrimIdempotent(s: string)
    ensures Trim(Trim(s)) == Trim(s)
  {
    TrimSlice(s);
    TrimUnpadded(Trim(s));
  }

  /** A string with no white space at either end is left alone by `trim`. */
  lemma {:induction false} TrimUnpadded(s: string)
    requires s == [] || (!IsWhiteSpace(s[0]) && !IsWhiteSpace(s[|s| - 1]))
    ensures Trim(s) == s
  {
    assert TrimStart(s) == s;
    assert TrimEnd(s) == s;
  }

  /** White space before and after a string, in any amounts, is removed by `trim`. */
  lemma {:induction false} TrimPadded(pre: string, s: string, post: string)
    requires forall k :: 0 <= k < |pre| ==> IsWhiteSpace(pre[k])
    requires forall k :: 0 <= k < |post| ==> IsWhiteSpace(post[k])
    requires s != [] && !IsWhiteSpace(s[0]) && !IsWhiteSpace(s[|s| - 1])
    ensures Trim(pre + s + post) == s
  {
    TrimStartDropsPadding(pre, s + post);
    assert pre + s + post == pre + (s + post);
    TrimEndDropsPadding(s, post);
  }

  lemma {:induction false} TrimStartDropsPadding(pad: string, s: string)
    requires forall k :: 0 <= k < |pad| ==> IsWhiteSpace(pad[k])
    requires s == [] || !IsWhiteSpace(s[0])
    ensures TrimStart(pad + s) == s
  {
    if pad == [] {
      assert pad + s == s;
    } else {
      assert (pad + s)[1..] == pad[1..] + s;
      TrimStartDropsPadding(pad[1..], s);
    }
  }

  lemma {:induction false} TrimEndDropsPadding(s: string, pad: string)
    requires forall k :: 0 <= k < |pad| ==> IsWhiteSpace(pad[k])
    requires s == [] || !IsWhiteSpace(s[|s| - 1])
    ensures TrimEnd(s + pad) == s
  {
    if pad == [] {
      assert s + pad == s;
    } else {
      assert (s + pad)[..|s + pad| - 1] == s + pad[..|pad| - 1];
      TrimEndDropsPadding(s, pad[..|pad| - 1]);
    }
  }
}
