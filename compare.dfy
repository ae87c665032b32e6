/**
 * How the executor reads a field of a record and decides one filter:
 * the dotted-path lookup, the conversions it compares through, and the
 * rule of each of the fifteen operators it knows.
 */
module QueryCompare {
  import opened Results
  import opened JsValues
  import opened Parser

  // ---------------------------------------------------------------------
  // Field lookup

  /**
   * `getFieldValue` on an already split path: each step reads the named
   * property of a truthy object (an object, an array or a date); any other
   * value on the way makes the result undefined.
   */
  function FieldValue(v: JsValue, path: seq<string>): JsValue
    decreases |path|
  {
    if path == [] then v
    else if Truthy(v) && IsObject(v) then FieldValue(Property(v, path[0]).value, path[1..])
    else Undefined
  }

  /** `getFieldValue(item, field)`: split the field at dots and walk the path; it never throws. */
  method GetFieldValue(item: JsValue, field: string) returns (value: JsValue)
    ensures value == FieldValue(item, SplitOn(field, "."))
  {
    var fieldPath := SplitOn(field, ".");
    value := item;
    var i := 0;
    while i < |fieldPath|
      invariant 0 <= i <= |fieldPath|
      invariant FieldValue(value, fieldPath[i..]) == FieldValue(item, fieldPath)
    {
      if Truthy(value) && IsObject(value) {
        value := Property(value, fieldPath[i]).value;
      } else {
        return Undefined;
      }
      i := i + 1;
    }
  }

  /**
   * `field.split('.')` on the field of a sort or grouping clause, which is a
   * token's value and need not be a string: only a string splits.
   */
  function FieldPath(field: JsValue): (r: Result<seq<string>>)
    ensures r.Ok? <==> field.Str?
    ensures r.Ok? ==> r.value == SplitOn(field.s, ".")
    ensures r.Err? ==> r.error.TypeError?
  {
    match field
    case Str(s) => Ok(SplitOn(s, "."))
    case Undefined => Err(TypeError("Cannot read properties of undefined (reading 'split')"))
    case Null => Err(TypeError("Cannot read properties of null (reading 'split')"))
    case _ => Err(TypeError("field.split is not a function"))
  }

  /** Walking `p` and then `q` is walking `p + q`. */
  lemma {:induction false} FieldValueConcat(v: JsValue, p: seq<string>, q: seq<string>)
    ensures FieldValue(v, p + q) == FieldValue(FieldValue(v, p), q)
    decreases |p|
  {
    if p == [] {
      assert p + q == q;
    } else if Truthy(v) && IsObject(v) {
      assert (p + q)[1..] == p[1..] + q;
      FieldValueConcat(Property(v, p[0]).value, p[1..], q);
    } else {
      assert FieldValue(Undefined, q) == Undefined;
    }
  }

  /** One step into an object reads its own property, or undefined when it has none. */
  lemma FieldValueOwn(props: map<string, JsValue>, key: string, rest: seq<string>)
    ensures FieldValue(Obj(props), [key] + rest)
      == FieldValue(if key in props then props[key] else Undefined, rest)
  {
    assert ([key] + rest)[1..] == rest;
  }

  /** A path through a value that is not a truthy object ends in undefined. */
  lemma FieldValueStops(v: JsValue, path: seq<string>)
    requires path != [] && !(Truthy(v) && IsObject(v))
    ensures FieldValue(v, path) == Undefined
  {
  }

  // ---------------------------------------------------------------------
  // Conversions

  /** `toNumeric`: a number, a numeric string's value, or null for anything else. */
  function ToNumeric(v: JsValue): (r: Option<int>)
    ensures v.Num? ==> r == Some(v.n)
    ensures v.Str? ==> r == StringToNumber(v.s)
    ensures !v.Num? && !v.Str? ==> r == None
  {
    match v
    case Num(n) => Some(n)
    case Str(s) => StringToNumber(s)
    case _ => None
  }

  /** The largest magnitude of a valid time value, in milliseconds. */
  const MaxTime: int := 8640000000000000

  /** What `toDate` gives: null, or a date whose time value may be invalid (None). */
  datatype DateRead = NoDate | DateAt(time: Option<int>)

  /**
   * `toDate`: a date is itself, a string is parsed (null when unparsable),
   * a number becomes the date at that time, invalid beyond the time range;
   * anything else is null.
   */
  function ToDate(v: JsValue, env: Env): (r: DateRead)
    ensures r.DateAt? <==> v.DateVal? || v.Num? || (v.Str? && env.dateParse(v.s).Some?)
  {
    match v
    case DateVal(t) => DateAt(Some(t))
    case Str(s) => if env.dateParse(s).Some? then DateAt(env.dateParse(s)) else NoDate
    case Num(n) => DateAt(if -MaxTime <= n <= MaxTime then Some(n) else None)
    case _ => NoDate
  }

  // ---------------------------------------------------------------------
  // The comparison rules

  /**
   * `compareEqual`: a missing value equals only null or the string "null";
   * two strings are compared without regard to letter case; anything else
   * by `===`.
   */
  predicate CompareEqual(item: JsValue, query: JsValue) {
    if Nullish(item) then query == Null || query == Str("null")
    else if item.Str? && query.Str? then Lower(item.s) == Lower(query.s)
    else StrictEquals(item, query)
  }

  /**
   * `compareGreater`: numerically when both sides are numeric, else by time
   * when both read as dates, else by JavaScript's `>` or `>=`.
   */
  predicate CompareGreater(item: JsValue, query: JsValue, orEqual: bool, env: Env) {
    var ni := ToNumeric(item);
    var nq := ToNumeric(query);
    if ni.Some? && nq.Some? then (if orEqual then ni.value >= nq.value else ni.value > nq.value)
    else
      var di := ToDate(item, env);
      var dq := ToDate(query, env);
      if di.DateAt? && dq.DateAt? then
        di.time.Some? && dq.time.Some?
        && (if orEqual then di.time.value >= dq.time.value else di.time.value > dq.time.value)
      else if orEqual then LooseGreaterEqual(item, query, env)
      else LooseGreater(item, query, env)
  }

  /** `compareLess`: the mirror image of `compareGreater`. */
  predicate CompareLess(item: JsValue, query: JsValue, orEqual: bool, env: Env) {
    var ni := ToNumeric(item);
    var nq := ToNumeric(query);
    if ni.Some? && nq.Some? then (if orEqual then ni.value <= nq.value else ni.value < nq.value)
    else
      var di := ToDate(item, env);
      var dq := ToDate(query, env);
      if di.DateAt? && dq.DateAt? then
        di.time.Some? && dq.time.Some?
        && (if orEqual then di.time.value <= dq.time.value else di.time.value < dq.time.value)
      else if orEqual then LooseLessEqual(item, query, env)
      else LooseLess(item, query, env)
  }

  /** Both sides lower-cased as strings, the way the text comparisons see them. */
  function LowerText(v: JsValue, env: Env): string {
    Lower(JsString(v, env))
  }

  /** `compareContains`: both sides truthy, and the item's text contains the query's, ignoring case. */
  predicate CompareContains(item: JsValue, query: JsValue, env: Env) {
    Truthy(item) && Truthy(query) && Includes(LowerText(item, env), LowerText(query, env))
  }

  /** `compareStartsWith` */
  predicate CompareStartsWith(item: JsValue, query: JsValue, env: Env) {
    Truthy(item) && Truthy(query) && StartsWith(LowerText(item, env), LowerText(query, env))
  }

  /** `compareEndsWith` */
  predicate CompareEndsWith(item: JsValue, query: JsValue, env: Env) {
    Truthy(item) && Truthy(query) && EndsWith(LowerText(item, env), LowerText(query, env))
  }

  /** `compareFuzzy`: every white-space separated word of the query occurs in the item, ignoring case. */
  predicate CompareFuzzy(item: JsValue, query: JsValue, env: Env) {
    Truthy(item) && Truthy(query)
    && forall w | w in SplitWhitespace(LowerText(query, env)) :: Includes(LowerText(item, env), w)
  }

  /** `list.includes(v)`; with no NaN among the values this is `===` against some element. */
  predicate ListIncludes(list: seq<JsValue>, v: JsValue) {
    exists x | x in list :: StrictEquals(x, v)
  }

  /** `compareIn`: the query must be a list; an array item needs one element in it. */
  predicate CompareIn(item: JsValue, query: JsValue) {
    query.Arr?
    && if item.Arr? then exists e | e in item.elems :: ListIncludes(query.elems, e)
       else ListIncludes(query.elems, item)
  }

  /**
   * `isEmpty`: null and undefined, blank strings, empty arrays and objects
   * without keys; a date counts as an object without keys.
   */
  predicate IsEmpty(v: JsValue) {
    match v
    case Undefined => true
    case Null => true
    case Str(s) => Trim(s) == ""
    case Arr(es) => es == []
    case Obj(m) => m == map[]
    case DateVal(_) => true
    case _ => false
  }

  /** The operators `evaluateFilter` has a rule for; every other operator lets the record through. */
  const RuledOperators: set<string> := {
    "=", "!=", ">", ">=", "<", "<=", "contains", "starts", "ends", "~",
    "in", "not_in", "exists", "null", "empty"}

  /** `evaluateFilter`: the rule of the filter's operator applied to the record's field value. */
  predicate Evaluate(item: JsValue, f: Filter, env: Env) {
    var v := FieldValue(item, SplitOn(f.field, "."));
    match f.operator
    case "=" => CompareEqual(v, f.value)
    case "!=" => !CompareEqual(v, f.value)
    case ">" => CompareGreater(v, f.value, false, env)
    case ">=" => CompareGreater(v, f.value, true, env)
    case "<" => CompareLess(v, f.value, false, env)
    case "<=" => CompareLess(v, f.value, true, env)
    case "contains" => CompareContains(v, f.value, env)
    case "starts" => CompareStartsWith(v, f.value, env)
    case "ends" => CompareEndsWith(v, f.value, env)
    case "~" => CompareFuzzy(v, f.value, env)
    case "in" => CompareIn(v, f.value)
    case "not_in" => !CompareIn(v, f.value)
    case "exists" => !Nullish(v)
    case "null" => Nullish(v)
    case "empty" => IsEmpty(v)
    case _ => true
  }

  // ---------------------------------------------------------------------
  // Properties of the rules

  /** The record's value a filter looks at. */
  function Looked(item: JsValue, f: Filter): JsValue {
    FieldValue(item, SplitOn(f.field, "."))
  }

  /** `!=` and `not_in` are the negations of `=` and `in`; `exists` and `null` are complements. */
  lemma Negations(item: JsValue, f: Filter, env: Env)
    ensures Evaluate(item, f.(operator := "!="), env) == !Evaluate(item, f.(operator := "="), env)
    ensures Evaluate(item, f.(operator := "not_in"), env) == !Evaluate(item, f.(operator := "in"), env)
    ensures Evaluate(item, f.(operator := "exists"), env) == !Evaluate(item, f.(operator := "null"), env)
  {
  }

  /**
   * An operator without a rule lets every record through; this includes
   * `..` and `*`, which the operator table accepts.
   */
  lemma FailsOpen(item: JsValue, f: Filter, env: Env)
    requires f.operator !in RuledOperators
    ensures Evaluate(item, f, env)
  {
  }

  lemma RangeAndWildcardPass(item: JsValue, f: Filter, env: Env)
    requires f.operator == ".." || f.operator == "*"
    ensures Evaluate(item, f, env)
  {
    FailsOpen(item, f, env);
  }

  /** A record without the field equals only null and the string "null". */
  lemma EqualMissing(item: JsValue, f: Filter, env: Env)
    requires f.operator == "=" && Nullish(Looked(item, f))
    ensures Evaluate(item, f, env) <==> f.value == Null || f.value == Str("null")
  {
  }

  /** Two strings are equal under `=` exactly when they agree after lower-casing; the rule is symmetric for them. */
  lemma EqualStrings(a: string, b: string)
    ensures CompareEqual(Str(a), Str(b)) <==> Lower(a) == Lower(b)
    ensures CompareEqual(Str(a), Str(b)) == CompareEqual(Str(b), Str(a))
  {
  }

  /** `>` on two values is `<` with the sides exchanged, and so are `>=` and `<=`. */
  lemma GreaterIsMirroredLess(a: JsValue, b: JsValue, orEqual: bool, env: Env)
    ensures CompareGreater(a, b, orEqual, env) == CompareLess(b, a, orEqual, env)
  {
  }

  /** On two numeric values `>=` is the negation of `<`, and `<=` of `>`. */
  lemma NumericTotal(a: JsValue, b: JsValue, env: Env)
    requires ToNumeric(a).Some? && ToNumeric(b).Some?
    ensures CompareGreater(a, b, true, env) == !CompareLess(a, b, false, env)
    ensures CompareLess(a, b, true, env) == !CompareGreater(a, b, false, env)
  {
  }

  /** On code units `<` is a strict total order: never both ways, and one way for different strings. */
  lemma {:induction false} UnitsLessStrict(a: seq<int>, b: seq<int>)
    ensures !(UnitsLess(a, b) && UnitsLess(b, a))
    ensures a != b ==> UnitsLess(a, b) || UnitsLess(b, a)
    decreases |a|
  {
    if a != [] && b != [] && a[0] == b[0] {
      UnitsLessStrict(a[1..], b[1..]);
      assert a == [a[0]] + a[1..] && b == [b[0]] + b[1..];
    }
  }

  /** Below 0x10000 each character is one code unit, so `<` is the order of code points there. */
  lemma {:induction false} BasicPlaneOrder(a: string, b: string)
    requires forall k | 0 <= k < |a| :: (a[k] as int) < 0x10000
    requires forall k | 0 <= k < |b| :: (b[k] as int) < 0x10000
    ensures UnitsLess(Utf16(a), Utf16(b)) <==> LexCompare(a, b) < 0
    decreases |a|
  {
    if a != [] && b != [] {
      assert (a[0] as int) < 0x10000 && (b[0] as int) < 0x10000;
      assert Utf16(a)[1..] == Utf16(a[1..]) && Utf16(b)[1..] == Utf16(b[1..]);
      BasicPlaneOrder(a[1..], b[1..]);
    }
  }

  /**
   * Beyond 0x10000 the two orders part: a character written as a surrogate
   * pair is less than U+FFFD for `<`, though its code point is greater.
   */
  lemma SurrogatePairBeforeReplacement(env: Env)
    requires env.dateParse("\U{1F600}").None? && env.dateParse("\U{FFFD}").None?
    ensures CompareLess(Str("\U{1F600}"), Str("\U{FFFD}"), false, env)
    ensures LexCompare("\U{1F600}", "\U{FFFD}") > 0
  {
    assert Utf16("\U{1F600}") == [0xD83D, 0xDE00];
    assert Utf16("\U{FFFD}") == [0xFFFD];
    TrimUnspaced("\U{1F600}");
    TrimUnspaced("\U{FFFD}");
    assert !IsDigitIn('\U{1F600}', 10) && !IsDigitIn('\U{FFFD}', 10);
  }

  /** The text rules never hold when either side is falsy. */
  lemma TextRulesNeedValues(item: JsValue, query: JsValue, env: Env)
    requires !Truthy(item) || !Truthy(query)
    ensures !CompareContains(item, query, env) && !CompareStartsWith(item, query, env)
    ensures !CompareEndsWith(item, query, env) && !CompareFuzzy(item, query, env)
  {
  }

  /** A suffix of a string is contained in it. */
  lemma {:induction false} EndsWithIncludes(s: string, part: string)
    requires EndsWith(s, part)
    ensures Includes(s, part)
    decreases |s|
  {
    if |s| == |part| {
      assert s[..|part|] == s;
    } else {
      assert s[1..][|s[1..]| - |part|..] == s[|s| - |part|..];
      EndsWithIncludes(s[1..], part);
    }
  }

  /** `starts` and `ends` are each stronger than `contains`. */
  lemma PrefixSuffixContain(item: JsValue, query: JsValue, env: Env)
    ensures CompareStartsWith(item, query, env) ==> CompareContains(item, query, env)
    ensures CompareEndsWith(item, query, env) ==> CompareContains(item, query, env)
  {
    if CompareEndsWith(item, query, env) {
      EndsWithIncludes(LowerText(item, env), LowerText(query, env));
    }
  }

  /** A query of one word without white space makes `~` the same as `contains`. */
  lemma FuzzyOneWord(item: JsValue, query: JsValue, env: Env)
    requires forall c | c in LowerText(query, env) :: !IsSpace(c)
    ensures CompareFuzzy(item, query, env) == CompareContains(item, query, env)
  {
    OneWord(LowerText(query, env));
  }

  /** A string without white space splits into itself alone. */
  lemma {:induction false} OneWord(s: string)
    requires forall c | c in s :: !IsSpace(c)
    ensures SplitWhitespace(s) == [s]
    decreases |s|
  {
    if s != [] {
      assert forall c | c in s[1..] :: c in s;
      OneWord(s[1..]);
      assert [s[0]] + s[1..] == s;
    }
  }

  /** `in` needs a list: for any other query value `in` fails and `not_in` holds. */
  lemma InNeedsList(item: JsValue, f: Filter, env: Env)
    requires !f.value.Arr?
    ensures f.operator == "in" ==> !Evaluate(item, f, env)
    ensures f.operator == "not_in" ==> Evaluate(item, f, env)
  {
  }

  /** A scalar is `in` a list exactly when the list holds it. */
  lemma InScalar(v: JsValue, list: seq<JsValue>)
    requires !v.Arr?
    ensures CompareIn(v, Arr(list)) <==> exists x | x in list :: StrictEquals(x, v)
  {
  }

  /** `empty` on each kind of value. */
  lemma EmptyCases(s: string, es: seq<JsValue>, m: map<string, JsValue>, n: int, b: bool)
    ensures IsEmpty(Undefined) && IsEmpty(Null)
    ensures IsEmpty(Str(s)) <==> Trim(s) == ""
    ensures IsEmpty(Arr(es)) <==> |es| == 0
    ensures IsEmpty(Obj(m)) <==> |m| == 0
    ensures !IsEmpty(Num(n)) && !IsEmpty(Bool(b))
  {
    if |m| == 0 {
      assert m == map[];
    }
  }
}
