/** The JavaScript value semantics the route handlers rely on: truthiness of a
    request-body field, `String.prototype.trim`, `toLowerCase`, `String(v)`,
    `parseInt`, and Mongoose's cast of a value to a Number path. */
module Js {

  datatype Option<T> = None | Some(value: T) {
    function GetOr(default: T): T {
      if Some? then value else default
    }
  }

  /** A field of a parsed JSON request body. JSON numbers are modelled as integers. */
  datatype Json = Undefined | Null | Bool(b: bool) | Num(n: int) | Str(s: string)

  /** `!!v` in JavaScript. */
  predicate Truthy(v: Json) {
    match v
    case Undefined => false
    case Null => false
    case Bool(b) => b
    case Num(n) => n != 0
    case Str(s) => s != ""
  }

  /** Truthiness of a text field or query parameter; None stands for absent, null or undefined. */
  predicate Given(t: Option<string>) {
    t.Some? && t.value != ""
  }

  /** A JavaScript number as far as the handlers produce one: an integer, or NaN. */
  datatype Number = Integer(value: int) | NaN

  // ---------------------------------------------------------------------------
  // Whitespace, trim and lower case

  /** The WhiteSpace and LineTerminator code points that `trim` and `parseInt` skip. */
  predicate IsSpace(c: char) {
    || c == '\t' || c == '\n' || c == '\U{000B}' || c == '\U{000C}' || c == '\r' || c == ' '
    || c == '\U{00A0}' || c == '\U{1680}' || ('\U{2000}' <= c <= '\U{200A}')
    || c == '\U{2028}' || c == '\U{2029}' || c == '\U{202F}' || c == '\U{205F}'
    || c == '\U{3000}' || c == '\U{FEFF}'
  }

  /** Number of whitespace characters at the front of `s`. */
  function LeadingSpaces(s: string): (n: nat)
    ensures n <= |s|
    ensures forall k :: 0 <= k < n ==> IsSpace(s[k])
    ensures n == |s| || !IsSpace(s[n])
  {
    if s != [] && IsSpace(s[0]) then 1 + LeadingSpaces(s[1..]) else 0
  }

  /** Number of whitespace characters at the back of `s`. */
  function TrailingSpaces(s: string): (n: nat)
    ensures n <= |s|
    ensures forall k :: |s| - n <= k < |s| ==> IsSpace(s[k])
    ensures n == |s| || !IsSpace(s[|s| - 1 - n])
  {
    if s != [] && IsSpace(s[|s| - 1]) then 1 + TrailingSpaces(s[..|s| - 1]) else 0
  }

  predicate IsTrimmed(s: string) {
    s == [] || (!IsSpace(s[0]) && !IsSpace(s[|s| - 1]))
  }

  /** `s.trim()`: drops the leading and the trailing whitespace and nothing else. */
  function Trim(s: string): (r: string)
    ensures IsTrimmed(r)
    ensures IsTrimmed(s) ==> r == s
  {
    var t := s[LeadingSpaces(s)..];
    t[..|t| - TrailingSpaces(t)]
  }

  lemma TrimIdempotent(s: string)
    ensures Trim(Trim(s)) == Trim(s)
  {
  }

  /** `toLowerCase` on one character: Basic Latin and the Cyrillic capitals. */
  function LowerChar(c: char): char {
    if 'A' <= c <= 'Z' then (c as int + 32) as char
    else if '\U{0410}' <= c <= '\U{042F}' then (c as int + 32) as char
    else if '\U{0400}' <= c <= '\U{040F}' then (c as int + 80) as char
    else c
  }

  function ToLower(s: string): (r: string)
    ensures |r| == |s|
    ensures forall k :: 0 <= k < |s| ==> r[k] == LowerChar(s[k])
  {
    seq(|s|, k requires 0 <= k < |s| => LowerChar(s[k]))
  }

  lemma {:induction false} ToLowerIdempotent(s: string)
    ensures ToLower(ToLower(s)) == ToLower(s)
  {
    forall k | 0 <= k < |s|
      ensures ToLower(ToLower(s))[k] == ToLower(s)[k]
    {
      var c := s[k];
      assert LowerChar(LowerChar(c)) == LowerChar(c);
    }
  }

  lemma LowerKeepsSpaces(c: char)
    ensures IsSpace(LowerChar(c)) == IsSpace(c)
  {
  }

  lemma {:induction false} LeadingSpacesOfLower(s: string)
    ensures LeadingSpaces(ToLower(s)) == LeadingSpaces(s)
  {
    if s != [] {
      LowerKeepsSpaces(s[0]);
      assert ToLower(s)[1..] == ToLower(s[1..]);
      LeadingSpacesOfLower(s[1..]);
    }
  }

  lemma {:induction false} TrailingSpacesOfLower(s: string)
    ensures TrailingSpaces(ToLower(s)) == TrailingSpaces(s)
  {
    if s != [] {
      LowerKeepsSpaces(s[|s| - 1]);
      assert ToLower(s)[..|s| - 1] == ToLower(s[..|s| - 1]);
      TrailingSpacesOfLower(s[..|s| - 1]);
    }
  }

  /** A string that lowers c character by character is ToLower(c). */
  lemma LowerPointwise(a: string, c: string)
    requires |a| == |c|
    requires forall k :: 0 <= k < |a| ==> a[k] == LowerChar(c[k])
    ensures a == ToLower(c)
  {
  }

  lemma ToLowerSlice(s: string, i: nat, j: nat)
    requires i <= j <= |s|
    ensures ToLower(s)[i..j] == ToLower(s[i..j])
  {
    var whole := ToLower(s);
    forall k | 0 <= k < j - i ensures whole[i..j][k] == LowerChar(s[i..j][k]) {
      assert whole[i..j][k] == whole[i + k];
    }
    LowerPointwise(whole[i..j], s[i..j]);
  }

  lemma TrimStartOfLower(s: string)
    ensures ToLower(s)[LeadingSpaces(ToLower(s))..] == ToLower(s[LeadingSpaces(s)..])
  {
    LeadingSpacesOfLower(s);
    ToLowerSlice(s, LeadingSpaces(s), |s|);
  }

  /** Where the kept part of `trim` ends: after the leading run, before the trailing one. */
  function TrimEnd(x: string): (e: nat)
    ensures LeadingSpaces(x) <= e <= |x|
  {
    var t := x[LeadingSpaces(x)..];
    LeadingSpaces(x) + |t| - TrailingSpaces(t)
  }

  lemma TrimSlice(x: string)
    ensures Trim(x) == x[LeadingSpaces(x)..TrimEnd(x)]
  {
  }

  /** Lower-casing keeps both whitespace runs, so `trim` cuts at the same places. */
  lemma TrimBoundsOfLower(s: string)
    ensures LeadingSpaces(ToLower(s)) == LeadingSpaces(s)
    ensures TrimEnd(ToLower(s)) == TrimEnd(s)
  {
    var a := LeadingSpaces(s);
    LeadingSpacesOfLower(s);
    TrimStartOfLower(s);
    TrailingSpacesOfLower(s[a..]);
  }

  /** Lower-casing and trimming commute, so the order in which Mongoose applies
      the `trim` and `lowercase` setters of a path does not matter. */
  lemma TrimLowerCommute(s: string)
    ensures Trim(ToLower(s)) == ToLower(Trim(s))
  {
    var a := LeadingSpaces(s);
    var e := TrimEnd(s);
    calc {
      Trim(ToLower(s));
      { TrimSlice(ToLower(s)); TrimBoundsOfLower(s); }
      ToLower(s)[a..e];
      { ToLowerSlice(s, a, e); }
      ToLower(s[a..e]);
      { TrimSlice(s); }
      ToLower(Trim(s));
    }
  }

  // ---------------------------------------------------------------------------
  // String(v) and parseInt

  function DigitChar(d: nat): char
    requires d < 10
  {
    "0123456789"[d]
  }

  predicate IsDigit(c: char) {
    '0' <= c <= '9'
  }

  function DigitValue(c: char): nat
    requires IsDigit(c)
  {
    c as int - '0' as int
  }

  /** The decimal digits of `n`, most significant first, without leading zeros. */
  function Digits(n: nat): (r: string)
    ensures r != []
    ensures forall k :: 0 <= k < |r| ==> IsDigit(r[k])
    ensures r[0] == '0' ==> n == 0 && |r| == 1
  {
    if n < 10 then [DigitChar(n)] else Digits(n / 10) + [DigitChar(n % 10)]
  }

  /** `String(n)` for an integer. */
  function DecimalString(n: int): string {
    if n < 0 then "-" + Digits(-n) else Digits(n)
  }

  /** `String(v)`, as `parseInt` applies it to its argument. */
  function JsString(v: Json): string {
    match v
    case Undefined => "undefined"
    case Null => "null"
    case Bool(b) => if b then "true" else "false"
    case Num(n) => DecimalString(n)
    case Str(s) => s
  }

  /** Length of the run of decimal digits at the front of `s`. */
  function DigitRun(s: string): (n: nat)
    ensures n <= |s|
    ensures forall k :: 0 <= k < n ==> IsDigit(s[k])
    ensures n == |s| || !IsDigit(s[n])
  {
    if s != [] && IsDigit(s[0]) then 1 + DigitRun(s[1..]) else 0
  }

  /** The value of a string of decimal digits. */
  function DecimalValue(ds: string): nat
    requires forall k :: 0 <= k < |ds| ==> IsDigit(ds[k])
  {
    if ds == [] then 0 else DecimalValue(ds[..|ds| - 1]) * 10 + DigitValue(ds[|ds| - 1])
  }

  predicate IsHexDigit(c: char) {
    IsDigit(c) || 'a' <= c <= 'f' || 'A' <= c <= 'F'
  }

  function HexDigitValue(c: char): nat
    requires IsHexDigit(c)
  {
    if IsDigit(c) then DigitValue(c)
    else if 'a' <= c <= 'f' then c as int - 'a' as int + 10
    else c as int - 'A' as int + 10
  }

  function HexRun(s: string): (n: nat)
    ensures n <= |s|
    ensures forall k :: 0 <= k < n ==> IsHexDigit(s[k])
  {
    if s != [] && IsHexDigit(s[0]) then 1 + HexRun(s[1..]) else 0
  }

  function HexValue(ds: string): nat
    requires forall k :: 0 <= k < |ds| ==> IsHexDigit(ds[k])
  {
    if ds == [] then 0 else HexValue(ds[..|ds| - 1]) * 16 + HexDigitValue(ds[|ds| - 1])
  }

  /** The longest prefix of digits in base 10, or in base 16 after a `0x` or `0X`. */
  function Magnitude(body: string): Option<nat> {
    if |body| >= 2 && body[0] == '0' && (body[1] == 'x' || body[1] == 'X') then
      var hex := body[2..];
      var n := HexRun(hex);
      if n == 0 then None else Some(HexValue(hex[..n]))
    else
      var n := DigitRun(body);
      if n == 0 then None else Some(DecimalValue(body[..n]))
  }

  /** `parseInt(s)` with no radix: skip whitespace, read an optional sign,
      then the longest run of digits; NaN when there is none. */
  function ParseInt(s: string): (r: Number)
    ensures var t := s[LeadingSpaces(s)..]; t == [] ==> r == NaN
    ensures var t := s[LeadingSpaces(s)..];
      t != [] && IsDigit(t[0]) && !(|t| >= 2 && t[0] == '0' && (t[1] == 'x' || t[1] == 'X')) ==> r.Integer? && r.value >= 0
    ensures var t := s[LeadingSpaces(s)..];
      t != [] && !IsDigit(t[0]) && t[0] != '-' && t[0] != '+' ==> r == NaN
    ensures var t := s[LeadingSpaces(s)..]; r.Integer? && r.value < 0 ==> t[0] == '-'
  {
    var t := s[LeadingSpaces(s)..];
    var negative := t != [] && t[0] == '-';
    var body := if t != [] && (t[0] == '-' || t[0] == '+') then t[1..] else t;
    match Magnitude(body)
    case None => NaN
    case Some(m) => var v: int := m; Integer(if negative then -v else v)
  }

  /** `parseInt(v)` for a body field: JavaScript converts the argument with
      `String` first. A numeric field survives unchanged; `true`, `false`,
      `null` and a missing field all give NaN. */
  function ParseIntOf(v: Json): (r: Number)
    ensures v.Str? ==> r == ParseInt(v.s)
    ensures v.Num? ==> r == Integer(v.n)
    ensures !v.Str? && !v.Num? ==> r == NaN
  {
    if v.Num? then
      ParseIntDecimal(v.n);
      ParseInt(JsString(v))
    else if v.Str? then ParseInt(JsString(v))
    else
      ParseIntOfWord(JsString(v));
      ParseInt(JsString(v))
  }

  lemma {:induction false} DecimalValueOfDigits(n: nat)
    ensures DecimalValue(Digits(n)) == n
  {
    if n >= 10 {
      var ds := Digits(n);
      assert ds[..|ds| - 1] == Digits(n / 10);
      DecimalValueOfDigits(n / 10);
    }
  }

  lemma MagnitudeOfDigits(n: nat)
    ensures Magnitude(Digits(n)) == Some(n)
  {
    var ds := Digits(n);
    DecimalValueOfDigits(n);
    assert ds[..|ds|] == ds;
  }

  /** `String(n)` is a minus sign exactly for negative n, followed by the digits of |n|. */
  lemma DecimalStringShape(n: int)
    ensures var s := DecimalString(n);
      && s != [] && (s[0] == '-' <==> n < 0)
      && (if n < 0 then s[1..] else s) == Digits(if n < 0 then -n else n)
  {
    var s := DecimalString(n);
    if n < 0 {
      assert s[1..] == Digits(-n);
    } else {
      assert IsDigit(Digits(n)[0]);
    }
  }

  /** A string starting with neither whitespace nor a sign is its own body. */
  lemma ParseIntUnsigned(s: string)
    requires s != [] && !IsSpace(s[0]) && s[0] != '-' && s[0] != '+'
    ensures ParseInt(s) == match Magnitude(s) case None => NaN case Some(m) => Integer(m)
  {
    assert LeadingSpaces(s) == 0;
    assert s[0..] == s;
  }

  /** `parseInt(String(n)) === n` for every integer `n`. */
  lemma ParseIntDecimal(n: int)
    ensures ParseInt(DecimalString(n)) == Integer(n)
  {
    var s := DecimalString(n);
    DecimalStringShape(n);
    if n < 0 {
      assert LeadingSpaces(s) == 0;
      assert s[0..] == s;
      MagnitudeOfDigits(-n);
    } else {
      MagnitudeOfDigits(n);
      ParseIntUnsigned(s);
    }
  }

  /** A string starting with a letter other than a hex prefix parses to NaN. */
  lemma ParseIntOfWord(s: string)
    requires s != [] && 'a' <= s[0] <= 'z'
    ensures ParseInt(s) == NaN
  {
    ParseIntUnsigned(s);
    assert DigitRun(s) == 0;
  }

  // ---------------------------------------------------------------------------
  // Mongoose's cast to a Number path

  /** What a value becomes on a Number path: a number, null, or a cast error. */
  datatype NumberCast = Cast(value: Option<int>) | CastError

  /** `Number(s)` for a string, restricted to integer literals: surrounding
      whitespace is ignored and a blank string is 0. */
  function StringToNumber(s: string): (r: Number)
    ensures Trim(s) == [] ==> r == Integer(0)
    ensures var t := Trim(s); var body := if t != [] && (t[0] == '-' || t[0] == '+') then t[1..] else t;
      r.NaN? <==> t != [] && !(body != [] && forall k :: 0 <= k < |body| ==> IsDigit(body[k]))
    ensures r.Integer? && r.value < 0 ==> Trim(s)[0] == '-'
  {
    var t := Trim(s);
    var negative := t != [] && t[0] == '-';
    var body := if t != [] && (t[0] == '-' || t[0] == '+') then t[1..] else t;
    if t == [] then Integer(0)
    else if body != [] && DigitRun(body) == |body| then
      var v: int := DecimalValue(body);
      Integer(if negative then -v else v)
    else NaN
  }

  /** Mongoose's `castNumber`: null and undefined stay null, the empty string is
      null, strings and booleans go through `Number`, and NaN is a cast error. */
  function CastNumber(v: Json): (r: NumberCast)
    ensures !v.Str? ==> r.Cast?
    ensures r == Cast(None) <==> v.Undefined? || v.Null? || v == Str("")
    ensures v.Str? && v.s != "" ==> (r.CastError? <==> StringToNumber(v.s).NaN?)
    ensures v.Num? ==> r == Cast(Some(v.n))
  {
    match v
    case Undefined => Cast(None)
    case Null => Cast(None)
    case Bool(b) => Cast(Some(if b then 1 else 0))
    case Num(n) => Cast(Some(n))
    case Str(s) =>
      if s == "" then Cast(None)
      else match StringToNumber(s)
        case Integer(n) => Cast(Some(n))
        case NaN => CastError
  }

  lemma DecimalStringTrimmed(n: int)
    ensures IsTrimmed(DecimalString(n))
  {
    var s := DecimalString(n);
    assert IsDigit(s[|s| - 1]);
    assert s[0] == '-' || IsDigit(s[0]);
  }

  /** A string of digits, all of it one run. */
  lemma DigitsRun(m: nat)
    ensures DigitRun(Digits(m)) == |Digits(m)|
  {
  }

  /** `Number(String(n)) === n` for every integer `n`. */
  lemma StringToNumberDecimal(n: int)
    ensures StringToNumber(DecimalString(n)) == Integer(n)
  {
    var s := DecimalString(n);
    DecimalStringTrimmed(n);
    DecimalStringShape(n);
    var m: nat := if n < 0 then -n else n;
    DigitsRun(m);
    DecimalValueOfDigits(m);
  }

  /** A decimal string casts to its value on a Number path. */
  lemma CastDecimalString(n: int)
    ensures CastNumber(Str(DecimalString(n))) == Cast(Some(n))
  {
    StringToNumberDecimal(n);
    DecimalStringShape(n);
  }
}
