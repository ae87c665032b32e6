/**
 * The JavaScript values the query engine handles, and the parts of the
 * language's built-in conversions it relies on: truthiness, `String(v)`,
 * `Number(v)`, `parseInt`, property access, `===`, the relational operators,
 * and the string methods `toLowerCase`, `trim`, `split`, `includes`,
 * `startsWith`, `endsWith` and `localeCompare`.
 *
 * Numbers are integers; case mapping covers ASCII letters only.
 */
module JsValues {
  import opened Results

  /**
   * A JavaScript value. Arrays and objects are reference types in JavaScript;
   * here they are values, and `===` between two of them is false (see
   * StrictEquals), because a value taken from a query never shares a reference
   * with a record.
   */
  datatype JsValue =
    | Undefined
    | Null
    | Bool(b: bool)
    | Num(n: int)
    | Str(s: string)
    | Arr(elems: seq<JsValue>)
    | Obj(props: map<string, JsValue>)
    | DateVal(time: int)

  /**
   * What the engine reads from its surroundings: the clock (`Date.now()`, in
   * milliseconds), the text of `Date.prototype.toString` for a time value,
   * and `Date.parse` (None for an invalid date).
   */
  datatype Env = Env(now: int, dateText: int -> string, dateParse: string -> Option<int>)

  // ---------------------------------------------------------------------
  // Truthiness and types

  /** `v === null || v === undefined` */
  predicate Nullish(v: JsValue) {
    v.Undefined? || v.Null?
  }

  /** JavaScript's ToBoolean. */
  predicate Truthy(v: JsValue) {
    match v
    case Undefined => false
    case Null => false
    case Bool(b) => b
    case Num(n) => n != 0
    case Str(s) => s != ""
    case _ => true
  }

  /** `v && typeof v === 'object'`: a non-null object, array or date. */
  predicate IsObject(v: JsValue) {
    v.Arr? || v.Obj? || v.DateVal?
  }

  // ---------------------------------------------------------------------
  // Characters

  /** A character matched by the regular-expression class `\s` (also what `trim` removes). */
  predicate IsSpace(c: char) {
    c == ' ' || c == '\t' || c == '\n' || c == '\U{000B}' || c == '\U{000C}' || c == '\r'
    || c == '\U{00A0}' || c == '\U{1680}' || ('\U{2000}' <= c <= '\U{200A}')
    || c == '\U{2028}' || c == '\U{2029}' || c == '\U{202F}' || c == '\U{205F}'
    || c == '\U{3000}' || c == '\U{FEFF}'
  }

  predicate IsDigit(c: char) {
    '0' <= c <= '9'
  }

  predicate IsAsciiLetter(c: char) {
    ('a' <= c <= 'z') || ('A' <= c <= 'Z')
  }

  /** A character of the regular-expression class `\w`. */
  predicate IsWordChar(c: char) {
    IsAsciiLetter(c) || IsDigit(c) || c == '_'
  }

  function LowerChar(c: char): char {
    if 'A' <= c <= 'Z' then (c as int + 32) as char else c
  }

  function UpperChar(c: char): char {
    if 'a' <= c <= 'z' then (c as int - 32) as char else c
  }

  /** `s.toLowerCase()` */
  function Lower(s: string): (r: string)
    ensures |r| == |s|
  {
    seq(|s|, i requires 0 <= i < |s| => LowerChar(s[i]))
  }

  /** `s.toUpperCase()` */
  function Upper(s: string): (r: string)
    ensures |r| == |s|
  {
    seq(|s|, i requires 0 <= i < |s| => UpperChar(s[i]))
  }

  // ---------------------------------------------------------------------
  // Strings

  function TrimStart(s: string): (r: string)
    ensures |r| <= |s|
    ensures s != [] && IsSpace(s[0]) ==> |r| < |s|
    ensures r != [] ==> !IsSpace(r[0])
  {
    if s != [] && IsSpace(s[0]) then TrimStart(s[1..]) else s
  }

  function TrimEnd(s: string): (r: string)
    ensures |r| <= |s| && r == s[..|r|]
    ensures r != [] ==> !IsSpace(r[|r| - 1])
  {
    if s != [] && IsSpace(s[|s| - 1]) then TrimEnd(s[..|s| - 1]) else s
  }

  /** `s.trim()` */
  function Trim(s: string): string {
    TrimEnd(TrimStart(s))
  }

  /** Trimming leaves alone a string with no space at either end. */
  lemma TrimUnspaced(s: string)
    requires s != [] ==> !IsSpace(s[0]) && !IsSpace(s[|s| - 1])
    ensures Trim(s) == s
  {
  }

  predicate StartsWith(s: string, prefix: string) {
    |prefix| <= |s| && s[..|prefix|] == prefix
  }

  predicate EndsWith(s: string, suffix: string) {
    |suffix| <= |s| && s[|s| - |suffix|..] == suffix
  }

  /** Starting with a one-character string is having that character first. */
  lemma StartsWithChar(s: string, c: char)
    ensures StartsWith(s, [c]) <==> s != [] && s[0] == c
  {
    if s != [] {
      assert s[..1] == [s[0]];
    }
  }

  /** Ending with a one-character string is having that character last. */
  lemma EndsWithChar(s: string, c: char)
    ensures EndsWith(s, [c]) <==> s != [] && s[|s| - 1] == c
  {
    if s != [] {
      assert s[|s| - 1..] == [s[|s| - 1]];
    }
  }

  /** `s.includes(part)` */
  predicate Includes(s: string, part: string) {
    StartsWith(s, part) || (s != [] && Includes(s[1..], part))
  }

  /** `s.split(sep)` for a non-empty separator string. */
  function SplitOn(s: string, sep: string): (parts: seq<string>)
    requires sep != []
    ensures |parts| >= 1
  {
    if s == [] then [""]
    else if StartsWith(s, sep) then [""] + SplitOn(s[|sep|..], sep)
    else
      var rest := SplitOn(s[1..], sep);
      [[s[0]] + rest[0]] + rest[1..]
  }

  /** `s.split(/\s+/)`: split at every run of white space. */
  function SplitWhitespace(s: string): (parts: seq<string>)
    ensures |parts| >= 1
    ensures forall k | 0 <= k < |parts| :: forall c | c in parts[k] :: !IsSpace(c)
    decreases |s|
  {
    if s == [] then [""]
    else if IsSpace(s[0]) then [""] + SplitWhitespace(TrimStart(s))
    else
      var rest := SplitWhitespace(s[1..]);
      [[s[0]] + rest[0]] + rest[1..]
  }

  /** `a.localeCompare(b)`, taken as the lexicographic order of code points. */
  function LexCompare(a: string, b: string): (r: int)
    ensures -1 <= r <= 1
    ensures r == 0 <==> a == b
  {
    if a == [] && b == [] then 0
    else if a == [] then -1
    else if b == [] then 1
    else if a[0] < b[0] then -1
    else if a[0] > b[0] then 1
    else LexCompare(a[1..], b[1..])
  }

  // ---------------------------------------------------------------------
  // Numbers

  function DigitValue(c: char): int {
    if '0' <= c <= '9' then c as int - '0' as int
    else if 'a' <= c <= 'z' then c as int - 'a' as int + 10
    else if 'A' <= c <= 'Z' then c as int - 'A' as int + 10
    else 36
  }

  predicate IsDigitIn(c: char, base: nat) {
    DigitValue(c) < base
  }

  /** The value of a string of digits in the given base. */
  function DigitsValue(ds: string, base: nat): nat
    requires forall c | c in ds :: IsDigitIn(c, base)
  {
    if ds == [] then 0 else DigitsValue(ds[..|ds| - 1], base) * base + DigitValue(ds[|ds| - 1])
  }

  /** A non-empty string of base digits, as a number; None (NaN) otherwise. */
  function ParseDigits(ds: string, base: nat): Option<int> {
    if ds != [] && forall c | c in ds :: IsDigitIn(c, base) then Some(DigitsValue(ds, base)) else None
  }

  /**
   * `Number(s)` for a string: white space around the numeral is ignored, the
   * empty string is 0, a decimal numeral may carry a sign, and `0x`, `0o`,
   * `0b` numerals may not. None stands for NaN; numerals with a fraction or
   * an exponent are not modelled and also give None.
   */
  function StringToNumber(s: string): Option<int> {
    var t := Trim(s);
    if t == [] then Some(0)
    else if |t| >= 2 && t[0] == '0' && (t[1] == 'x' || t[1] == 'X') then ParseDigits(t[2..], 16)
    else if |t| >= 2 && t[0] == '0' && (t[1] == 'o' || t[1] == 'O') then ParseDigits(t[2..], 8)
    else if |t| >= 2 && t[0] == '0' && (t[1] == 'b' || t[1] == 'B') then ParseDigits(t[2..], 2)
    else if t[0] == '+' then ParseDigits(t[1..], 10)
    else if t[0] == '-' then
      match ParseDigits(t[1..], 10)
      case Some(n) => Some(-n)
      case None => None
    else ParseDigits(t, 10)
  }

  /** The longest prefix of `s` made of base digits. */
  function DigitPrefix(s: string, base: nat): (r: string)
    ensures |r| <= |s| && r == s[..|r|]
    ensures forall c | c in r :: IsDigitIn(c, base)
  {
    if s != [] && IsDigitIn(s[0], base) then [s[0]] + DigitPrefix(s[1..], base) else []
  }

  /**
   * `parseInt(s)` with no radix: leading white space and a sign are skipped,
   * a `0x` prefix selects base 16, and the longest run of digits is read.
   * None stands for NaN.
   */
  function ParseInt(s: string): Option<int> {
    var t := TrimStart(s);
    var negative := t != [] && t[0] == '-';
    var u := if t != [] && (t[0] == '-' || t[0] == '+') then t[1..] else t;
    var hex := |u| >= 2 && u[0] == '0' && (u[1] == 'x' || u[1] == 'X');
    var base := if hex then 16 else 10;
    var ds := DigitPrefix(if hex then u[2..] else u, base);
    var magnitude: int := DigitsValue(ds, base);
    if ds == [] then None
    else if negative then Some(-magnitude)
    else Some(magnitude)
  }

  function DigitChar(d: nat): char
    requires d < 10
  {
    ('0' as int + d) as char
  }

  function NatToString(n: nat): (r: string)
    ensures r != []
  {
    if n < 10 then [DigitChar(n)] else NatToString(n / 10) + [DigitChar(n % 10)]
  }

  /** `String(n)` for an integer. */
  function IntToString(n: int): string {
    if n < 0 then "-" + NatToString(-n) else NatToString(n)
  }

  // ---------------------------------------------------------------------
  // Conversions

  /** `String(v)`; an array is joined with commas, its null and undefined elements as "". */
  function JsString(v: JsValue, env: Env): string
    decreases v, 1
  {
    match v
    case Undefined => "undefined"
    case Null => "null"
    case Bool(b) => if b then "true" else "false"
    case Num(n) => IntToString(n)
    case Str(s) => s
    case Arr(es) => Join(es, env)
    case Obj(_) => "[object Object]"
    case DateVal(t) => env.dateText(t)
  }

  /** `es.join(',')` */
  function Join(es: seq<JsValue>, env: Env): string
    decreases es, 0
  {
    if es == [] then ""
    else
      var first := if Nullish(es[0]) then "" else JsString(es[0], env);
      if |es| == 1 then first else first + "," + Join(es[1..], env)
  }

  /** `Number(v)`; None stands for NaN. */
  function ToNumber(v: JsValue, env: Env): Option<int> {
    match v
    case Undefined => None
    case Null => Some(0)
    case Bool(b) => Some(if b then 1 else 0)
    case Num(n) => Some(n)
    case Str(s) => StringToNumber(s)
    case DateVal(t) => Some(t)
    case _ => StringToNumber(JsString(v, env))
  }

  /** `v !== v`-free `===`: reference values (arrays, objects, dates) are never identical here. */
  predicate StrictEquals(a: JsValue, b: JsValue) {
    match (a, b)
    case (Undefined, Undefined) => true
    case (Null, Null) => true
    case (Bool(x), Bool(y)) => x == y
    case (Num(x), Num(y)) => x == y
    case (Str(x), Str(y)) => x == y
    case _ => false
  }

  /**
   * ToPrimitive with hint "number", as the relational operators apply it:
   * a date gives its time value, an array or object its string form.
   */
  function ToPrimitive(v: JsValue, env: Env): JsValue {
    match v
    case DateVal(t) => Num(t)
    case Arr(_) => Str(JsString(v, env))
    case Obj(_) => Str(JsString(v, env))
    case _ => v
  }

  /** The UTF-16 code units of one character: one below 0x10000, else a surrogate pair. */
  function CodeUnits(c: char): (r: seq<int>)
    ensures 1 <= |r| <= 2
    ensures forall k | 0 <= k < |r| :: 0 <= r[k] < 0x10000
    ensures (c as int) < 0x10000 <==> r == [c as int]
  {
    var n := c as int;
    if n < 0x10000 then [n]
    else [0xD800 + (n - 0x10000) / 0x400, 0xDC00 + (n - 0x10000) % 0x400]
  }

  /** A string as JavaScript stores it: its UTF-16 code units. */
  function Utf16(s: string): (r: seq<int>)
    ensures |s| <= |r| <= 2 * |s|
  {
    if s == [] then [] else CodeUnits(s[0]) + Utf16(s[1..])
  }

  /** The order of `<` on two strings: the first differing code unit decides, and a proper prefix is less. */
  predicate UnitsLess(a: seq<int>, b: seq<int>) {
    if b == [] then false
    else if a == [] then true
    else if a[0] != b[0] then a[0] < b[0]
    else UnitsLess(a[1..], b[1..])
  }

  /**
   * The abstract relational comparison `a < b`: Some(result), or None where
   * JavaScript yields undefined (a NaN operand). Two strings are compared
   * code unit by code unit.
   */
  function LessThan(a: JsValue, b: JsValue, env: Env): Option<bool> {
    var pa := ToPrimitive(a, env);
    var pb := ToPrimitive(b, env);
    if pa.Str? && pb.Str? then Some(UnitsLess(Utf16(pa.s), Utf16(pb.s)))
    else
      match (ToNumber(pa, env), ToNumber(pb, env))
      case (Some(x), Some(y)) => Some(x < y)
      case _ => None
  }

  /** `a > b` */
  predicate LooseGreater(a: JsValue, b: JsValue, env: Env) {
    LessThan(b, a, env) == Some(true)
  }

  /** `a >= b` */
  predicate LooseGreaterEqual(a: JsValue, b: JsValue, env: Env) {
    LessThan(a, b, env) == Some(false)
  }

  /** `a < b` */
  predicate LooseLess(a: JsValue, b: JsValue, env: Env) {
    LessThan(a, b, env) == Some(true)
  }

  /** `a <= b` */
  predicate LooseLessEqual(a: JsValue, b: JsValue, env: Env) {
    LessThan(b, a, env) == Some(false)
  }

  // ---------------------------------------------------------------------
  // Property access

  /** A canonical array index: "0", or digits without a leading zero, at most 2^32 - 2. */
  predicate IsArrayIndex(k: string) {
    && k != []
    && (forall c | c in k :: IsDigit(c))
    && (k[0] == '0' ==> |k| == 1)
    && DigitsValue(k, 10) <= 4294967294
  }

  function ArrayIndexValue(k: string): nat
    requires IsArrayIndex(k)
  {
    DigitsValue(k, 10)
  }

  /**
   * `v[key]`: reading a property of null or undefined throws; own properties
   * of objects, array elements and lengths, string characters and lengths are
   * found; everything else is undefined.
   */
  function Property(v: JsValue, key: string): (r: Result<JsValue>)
    ensures r.Err? <==> Nullish(v)
  {
    match v
    case Undefined => Err(TypeError("Cannot read properties of undefined (reading '" + key + "')"))
    case Null => Err(TypeError("Cannot read properties of null (reading '" + key + "')"))
    case Obj(m) => Ok(if key in m then m[key] else Undefined)
    case Arr(es) =>
      if key == "length" then Ok(Num(|es|))
      else if IsArrayIndex(key) && ArrayIndexValue(key) < |es| then Ok(es[ArrayIndexValue(key)])
      else Ok(Undefined)
    case Str(s) =>
      if key == "length" then Ok(Num(|s|))
      else if IsArrayIndex(key) && ArrayIndexValue(key) < |s| then Ok(Str([s[ArrayIndexValue(key)]]))
      else Ok(Undefined)
    case _ => Ok(Undefined)
  }
}
