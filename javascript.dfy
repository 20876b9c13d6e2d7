/** The parts of JavaScript's runtime semantics that the application's
    TypeScript relies on: whitespace and `String.prototype.trim`, values
    produced by `JSON.parse`, property access, truthiness and the `Number(...)`
    coercion. Numbers are modelled as mathematical integers; `None` plays the
    role of `NaN` (and of `undefined` for properties), so it never equals a
    number. */
module JavaScript {
  import opened Wrappers

  // ---------------------------------------------------------------------------
  // Whitespace and trimming
  // ---------------------------------------------------------------------------

  /** ECMAScript's WhiteSpace and LineTerminator code points: the set that
      `trim`, the regular-expression class `\s` and string-to-number
      conversion all skip. */
  predicate IsWhitespace(c: char) {
    var n := c as int;
    n == 0x09 || n == 0x0A || n == 0x0B || n == 0x0C || n == 0x0D || n == 0x20
    || n == 0xA0 || n == 0x1680 || (0x2000 <= n <= 0x200A) || n == 0x2028
    || n == 0x2029 || n == 0x202F || n == 0x205F || n == 0x3000 || n == 0xFEFF
  }

  predicate AllWhitespace(s: string) {
    forall i :: 0 <= i < |s| ==> IsWhitespace(s[i])
  }

  /** Neither the first nor the last character is whitespace. */
  predicate NoEdgeWhitespace(s: string) {
    s == [] || (!IsWhitespace(s[0]) && !IsWhitespace(s[|s| - 1]))
  }

  predicate StartsWith(s: string, prefix: string) {
    |prefix| <= |s| && s[..|prefix|] == prefix
  }

  /** `s.trimStart()`: the longest suffix of `s` that does not start with
      whitespace; everything removed is whitespace. */
  function TrimStart(s: string): (r: string)
    ensures |r| <= |s| && r == s[|s| - |r|..]
    ensures forall i :: 0 <= i < |s| - |r| ==> IsWhitespace(s[i])
    ensures r == [] || !IsWhitespace(r[0])
  {
    if s != [] && IsWhitespace(s[0]) then
      var r := TrimStart(s[1..]);
      assert forall i :: 0 < i < |s| ==> s[i] == s[1..][i - 1];
      r
    else
      s
  }

  /** `s.trimEnd()`: the longest prefix of `s` that does not end with
      whitespace; everything removed is whitespace. */
  function TrimEnd(s: string): (r: string)
    ensures |r| <= |s| && r == s[..|r|]
    ensures forall i :: |r| <= i < |s| ==> IsWhitespace(s[i])
    ensures r == [] || !IsWhitespace(r[|r| - 1])
  {
    if s != [] && IsWhitespace(s[|s| - 1]) then
      TrimEnd(s[..|s| - 1])
    else
      s
  }

  /** `s.trim()`. */
  function Trim(s: string): (r: string)
    ensures |r| <= |s|
    ensures NoEdgeWhitespace(r)
  {
    TrimEnd(TrimStart(s))
  }

  lemma TrimStartOfWhitespace(s: string)
    ensures AllWhitespace(s) <==> TrimStart(s) == []
  {
    var r := TrimStart(s);
    if r != [] {
      assert r[0] == s[|s| - |r|];
    }
  }

  lemma TrimEndOfWhitespace(s: string)
    ensures AllWhitespace(s) <==> TrimEnd(s) == []
  {
    var r := TrimEnd(s);
    if r != [] {
      assert r[|r| - 1] == s[|r| - 1];
    }
  }

  lemma TrimStartOfTrimmed(s: string)
    requires s == [] || !IsWhitespace(s[0])
    ensures TrimStart(s) == s
  {
  }

  /** Trimming the front only removes characters. */
  lemma TrimStartKeepsAbsent(s: string, c: char)
    requires c !in s
    ensures c !in TrimStart(s)
  {
    var r := TrimStart(s);
    forall i | 0 <= i < |r|
      ensures r[i] != c
    {
      assert r[i] == s[|s| - |r| + i];
    }
  }

  lemma TrimStartIdempotent(s: string)
    ensures TrimStart(TrimStart(s)) == TrimStart(s)
  {
  }

  /** Trimming the front of a concatenation: whatever is left of `x`, then `y`
      untouched; or, when `x` is all whitespace, the trimmed `y`. */
  lemma {:induction false} TrimStartConcat(x: string, y: string)
    ensures TrimStart(x + y) == if TrimStart(x) == [] then TrimStart(y) else TrimStart(x) + y
  {
    if x == [] {
      assert x + y == y;
    } else if IsWhitespace(x[0]) {
      assert (x + y)[1..] == x[1..] + y;
      TrimStartConcat(x[1..], y);
    } else {
      assert (x + y)[0] == x[0];
    }
  }

  /** Trimming the end of a concatenation, mirror image of TrimStartConcat. */
  lemma {:induction false} TrimEndConcat(x: string, y: string)
    ensures TrimEnd(x + y) == if TrimEnd(y) == [] then TrimEnd(x) else x + TrimEnd(y)
  {
    if y == [] {
      assert x + y == x;
    } else if IsWhitespace(y[|y| - 1]) {
      assert (x + y)[..|x + y| - 1] == x + y[..|y| - 1];
      TrimEndConcat(x, y[..|y| - 1]);
    } else {
      assert (x + y)[|x + y| - 1] == y[|y| - 1];
    }
  }

  /** A string without surrounding whitespace is its own trim. */
  lemma TrimOfTrimmed(s: string)
    requires NoEdgeWhitespace(s)
    ensures Trim(s) == s
  {
  }

  lemma TrimIdempotent(s: string)
    ensures Trim(Trim(s)) == Trim(s)
  {
    TrimOfTrimmed(Trim(s));
  }

  /** Whitespace added on either side is removed again by `trim`. */
  lemma TrimAbsorbsWhitespace(w1: string, s: string, w2: string)
    requires AllWhitespace(w1) && AllWhitespace(w2)
    ensures Trim(w1 + s + w2) == Trim(s)
  {
    TrimStartOfWhitespace(w1);
    TrimEndOfWhitespace(w2);
    assert w1 + s + w2 == w1 + (s + w2);
    TrimStartConcat(w1, s + w2);
    TrimStartConcat(s, w2);
    if TrimStart(s) == [] {
      TrimStartOfWhitespace(s);
      TrimStartOfWhitespace(w2);
    } else {
      TrimEndConcat(TrimStart(s), w2);
    }
  }

  /** Trimming only removes characters: a character absent from `s` is
      absent from `s.trim()`. */
  lemma TrimKeepsAbsent(s: string, c: char)
    requires c !in s
    ensures c !in Trim(s)
  {
    var t := TrimStart(s);
    var r := TrimEnd(t);
    forall i | 0 <= i < |r|
      ensures r[i] != c
    {
      assert r[i] == t[i] == s[|s| - |t| + i];
    }
  }

  // ---------------------------------------------------------------------------
  // Values produced by JSON.parse
  // ---------------------------------------------------------------------------

  /** A parsed JSON value. Numbers are integers in this model; an object is a
      map from keys to values (the parser keeps the last of duplicate keys). */
  datatype Json =
    | JNull
    | JBool(b: bool)
    | JNumber(n: int)
    | JString(s: string)
    | JArray(items: seq<Json>)
    | JObject(fields: map<string, Json>)

  /** `v.key` for a parsed value: the object's own property, or `None` for
      `undefined`. Strings, numbers, booleans and arrays have no such
      properties; on `null` the access throws a TypeError, which every caller
      in this application catches and treats like a missing property. */
  function Property(v: Json, key: string): Option<Json> {
    if v.JObject? && key in v.fields then Some(v.fields[key]) else None
  }

  /** JavaScript truthiness; `None` is `undefined`. */
  predicate Truthy(v: Option<Json>) {
    match v
    case None => false
    case Some(JNull) => false
    case Some(JBool(b)) => b
    case Some(JNumber(n)) => n != 0
    case Some(JString(s)) => s != ""
    case Some(JArray(_)) => true
    case Some(JObject(_)) => true
  }

  // ---------------------------------------------------------------------------
  // Number(...) on the integer model
  // ---------------------------------------------------------------------------

  predicate IsDigit(c: char) {
    '0' <= c <= '9'
  }

  predicate AllDigits(s: string) {
    forall i :: 0 <= i < |s| ==> IsDigit(s[i])
  }

  /** The value of a run of decimal digits, most significant first. */
  function DigitsValue(ds: string): nat
    requires AllDigits(ds)
  {
    if ds == [] then 0
    else DigitsValue(ds[..|ds| - 1]) * 10 + (ds[|ds| - 1] as int - '0' as int)
  }

  /** The value of a string that has already been trimmed: the empty string
      is 0, an optionally signed run of decimal digits is its value, and
      anything else is `NaN` (`None`). */
  function TrimmedToNumber(t: string): Option<int> {
    if t == [] then
      Some(0)
    else if (t[0] == '-' || t[0] == '+') && |t| > 1 && AllDigits(t[1..]) then
      var v: int := DigitsValue(t[1..]);
      Some(if t[0] == '-' then -v else v)
    else if AllDigits(t) then
      Some(DigitsValue(t))
    else
      None
  }

  /** `Number(s)` for a string: surrounding whitespace is ignored, then the
      trimmed text is read as above. */
  function StringToNumber(s: string): Option<int> {
    TrimmedToNumber(Trim(s))
  }

  /** `Number` of a blank string, the empty string included, is 0. */
  lemma StringToNumberOfBlank(s: string)
    requires AllWhitespace(s)
    ensures StringToNumber(s) == Some(0)
  {
    TrimStartOfWhitespace(s);
  }

  /** `Number(v)` for a parsed JSON value. `null` and `[]` are 0, booleans
      0 or 1, a one-element array converts like its element printed as a
      string, other arrays and objects are `NaN`. */
  function JsonToNumber(v: Json): Option<int> {
    match v
    case JNull => Some(0)
    case JBool(b) => Some(if b then 1 else 0)
    case JNumber(n) => Some(n)
    case JString(s) => StringToNumber(s)
    case JArray(items) =>
      if |items| == 0 then Some(0)
      else if |items| == 1 then
        match items[0]
        case JNull => Some(0)
        case JBool(_) => None
        case _ => JsonToNumber(items[0])
      else None
    case JObject(_) => None
  }

  /** `Number(x)` where `x` may be `undefined` (`None`), which is `NaN`. */
  function ToNumber(v: Option<Json>): Option<int> {
    match v
    case None => None
    case Some(j) => JsonToNumber(j)
  }

  // ---------------------------------------------------------------------------
  // Decimal text of integers, the partner of StringToNumber
  // ---------------------------------------------------------------------------

  function DigitChar(d: nat): char
    requires d < 10
  {
    ('0' as int + d) as char
  }

  /** The decimal digits of `n`, without leading zeros. */
  function DecimalDigits(n: nat): (r: string)
    ensures r != [] && AllDigits(r)
  {
    if n < 10 then [DigitChar(n)] else DecimalDigits(n / 10) + [DigitChar(n % 10)]
  }

  /** `String(n)` for an integer. */
  function IntToString(n: int): string {
    if n < 0 then "-" + DecimalDigits(-n) else DecimalDigits(n)
  }

  lemma {:induction false} DigitsValueOfDecimal(n: nat)
    ensures DigitsValue(DecimalDigits(n)) == n
  {
    var ds := DecimalDigits(n);
    if n < 10 {
      assert ds[..|ds| - 1] == [];
    } else {
      assert ds[..|ds| - 1] == DecimalDigits(n / 10);
      DigitsValueOfDecimal(n / 10);
    }
  }

  /** The decimal text of an integer starts with a digit or a minus sign and
      ends with a digit, so `trim` leaves it alone. */
  lemma TrimOfIntToString(n: int)
    ensures Trim(IntToString(n)) == IntToString(n)
  {
    var t := IntToString(n);
    var ds := DecimalDigits(if n < 0 then -n else n);
    assert IsDigit(ds[0]) && IsDigit(ds[|ds| - 1]);
    assert t[0] == (if n < 0 then '-' else ds[0]);
    assert t[|t| - 1] == ds[|ds| - 1];
    TrimOfTrimmed(t);
  }

  /** Round trip: converting the decimal text of an integer back with
      `Number` yields the integer. */
  lemma StringToNumberOfIntToString(n: int)
    ensures StringToNumber(IntToString(n)) == Some(n)
  {
    var t := IntToString(n);
    TrimOfIntToString(n);
    if n < 0 {
      var ds := DecimalDigits(-n);
      assert t[0] == '-' && t[1..] == ds;
      DigitsValueOfDecimal(-n);
    } else {
      var ds := DecimalDigits(n);
      assert t == ds && IsDigit(t[0]);
      DigitsValueOfDecimal(n);
    }
  }

  /** Surrounding whitespace does not change the number a string converts to. */
  lemma StringToNumberIgnoresWhitespace(w1: string, s: string, w2: string)
    requires AllWhitespace(w1) && AllWhitespace(w2)
    ensures StringToNumber(w1 + s + w2) == StringToNumber(s)
  {
    TrimAbsorbsWhitespace(w1, s, w2);
    assert Trim(w1 + s + w2) == Trim(s);
  }
}
