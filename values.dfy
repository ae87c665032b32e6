/**
 * How the parser turns the text of a field query's value into a value:
 * quotes are stripped, a parenthesised list becomes an array of trimmed
 * strings, `a..b` becomes a range, numerals become numbers, date keywords
 * and relative times become dates, and anything else stays a string.
 */
module QueryValues {
  import opened Results
  import opened JsValues
  import QueryGrammar
  import Calendar

  /** `s.slice(1, -1)`: the text between the first and the last character. */
  function Inner(s: string): (r: string)
    ensures |s| >= 2 ==> r == s[1..|s| - 1]
    ensures |s| < 2 ==> r == ""
  {
    if |s| >= 2 then s[1..|s| - 1] else ""
  }

  /** `parseNumericValue`: the number a string denotes, or the string itself when that is NaN. */
  function ParseNumericValue(s: string): (v: JsValue)
    ensures v.Num? <==> StringToNumber(s).Some?
    ensures v.Num? ==> v.n == StringToNumber(s).value
    ensures !v.Num? ==> v == Str(s)
  {
    match StringToNumber(s)
    case Some(n) => Num(n)
    case None => Str(s)
  }

  /** Every element trimmed: `parts.map(item => item.trim())`. */
  function TrimAll(parts: seq<string>): (r: seq<JsValue>)
    ensures |r| == |parts|
  {
    if parts == [] then [] else [Str(Trim(parts[0]))] + TrimAll(parts[1..])
  }

  /** A relative time `<7d`, `>=2w`: its comparison, count and unit letter. */
  datatype RelativeTime = RelativeTime(op: string, count: nat, unit: char)

  predicate IsUnit(c: char) {
    c == 'd' || c == 'w' || c == 'm' || c == 'y'
  }

  /** The match of `^([<>]=?)(\d+)([dwmy])$`, None when the text does not match. */
  function MatchRelativeTime(s: string): (r: Option<RelativeTime>)
    ensures r.Some? ==> |s| >= 3 && (s[0] == '<' || s[0] == '>') && IsUnit(s[|s| - 1])
  {
    if |s| >= 3 && (s[0] == '<' || s[0] == '>') && IsUnit(s[|s| - 1]) then
      var opLen := if s[1] == '=' then 2 else 1;
      var digits := s[opLen..|s| - 1];
      if digits != [] && forall c | c in digits :: IsDigit(c) then
        Some(RelativeTime(s[..opLen], DigitsValue(digits, 10), s[|s| - 1]))
      else None
    else None
  }

  /** Milliseconds in one unit of a relative time: a day, a week, 30 days or 365 days. */
  function UnitMs(unit: char): nat {
    if unit == 'd' then 24 * 60 * 60 * 1000
    else if unit == 'w' then 7 * 24 * 60 * 60 * 1000
    else if unit == 'm' then 30 * 24 * 60 * 60 * 1000
    else 365 * 24 * 60 * 60 * 1000
  }

  /** The value is wrapped in double or in single quotes. */
  predicate Quoted(raw: string) {
    (StartsWith(raw, "\"") && EndsWith(raw, "\"")) || (StartsWith(raw, "'") && EndsWith(raw, "'"))
  }

  /** The value is wrapped in parentheses. */
  predicate Parenthesised(raw: string) {
    StartsWith(raw, "(") && EndsWith(raw, ")")
  }

  /** Neither quoted, nor parenthesised, nor a range: the first three cases do not apply. */
  predicate Unwrapped(raw: string) {
    !Quoted(raw) && !Parenthesised(raw) && !Includes(raw, "..")
  }

  /** Not a numeral either: the case after the first four. */
  predicate NonNumeric(raw: string) {
    Unwrapped(raw) && StringToNumber(raw).None?
  }

  /**
   * `parseValue`, with the clock reading `now`. Each case is tried in turn:
   * quotes, a parenthesised list, a range, a numeral, a date keyword, a
   * relative time; otherwise the text itself. The first group of clauses
   * gives the result of each case once the earlier ones have failed; the
   * second says which input each kind of result can come from.
   */
  function ParseValue(raw: string, now: int): (v: JsValue)
    ensures Quoted(raw) ==> v == Str(Inner(raw))
    ensures !Quoted(raw) && Parenthesised(raw) ==> v == Arr(TrimAll(SplitOn(Inner(raw), ",")))
    ensures !Quoted(raw) && !Parenthesised(raw) && Includes(raw, "..") ==>
      |SplitOn(raw, "..")| >= 2 &&
      v == Obj(map["range" := Arr([ParseNumericValue(SplitOn(raw, "..")[0]), ParseNumericValue(SplitOn(raw, "..")[1])])])
    ensures Unwrapped(raw) && StringToNumber(raw).Some? ==> v == Num(StringToNumber(raw).value)
    ensures NonNumeric(raw) && QueryGrammar.IsTimeKeyword(raw) ==>
      v == DateVal(QueryGrammar.ResolveTimeKeyword(raw, now).value)
    ensures NonNumeric(raw) && !QueryGrammar.IsTimeKeyword(raw) && MatchRelativeTime(raw).Some? ==>
      v == Obj(map["relativeTime" := Str(MatchRelativeTime(raw).value.op),
                   "date" := DateVal(now - MatchRelativeTime(raw).value.count * UnitMs(MatchRelativeTime(raw).value.unit))])
    ensures NonNumeric(raw) && !QueryGrammar.IsTimeKeyword(raw) && MatchRelativeTime(raw).None? ==> v == Str(raw)
    ensures v.Arr? ==>
      Parenthesised(raw) && forall e | e in v.elems :: e.Str? && e.s == Trim(e.s)
    ensures v.Num? ==> StringToNumber(raw) == Some(v.n)
    ensures v.Str? ==> v.s == raw || v.s == Inner(raw)
    ensures v.DateVal? ==> QueryGrammar.IsTimeKeyword(raw) && v.time <= now
    ensures v.Obj? && "range" in v.props ==> Includes(raw, "..")
    ensures v.Obj? && "relativeTime" in v.props ==> MatchRelativeTime(raw).Some?
  {
    if Quoted(raw) then
      Str(Inner(raw))
    else if Parenthesised(raw) then
      var parts := SplitOn(Inner(raw), ",");
      TrimAllTrimmed(parts);
      Arr(TrimAll(parts))
    else if Includes(raw, "..") then
      var parts := SplitOn(raw, "..");
      SplitOnIncludes(raw, "..");
      Obj(map["range" := Arr([ParseNumericValue(parts[0]), ParseNumericValue(parts[1])])])
    else if StringToNumber(raw).Some? then
      ParseNumericValue(raw)
    else if QueryGrammar.IsTimeKeyword(raw) then
      DateVal(QueryGrammar.ResolveTimeKeyword(raw, now).value)
    else
      match MatchRelativeTime(raw)
      case Some(rt) =>
        Obj(map["relativeTime" := Str(rt.op), "date" := DateVal(now - rt.count * UnitMs(rt.unit))])
      case None => Str(raw)
  }

  // ---------------------------------------------------------------------
  // Lemmas

  /** Trimming twice changes nothing. */
  lemma TrimIdempotent(s: string)
    ensures Trim(Trim(s)) == Trim(s)
  {
    var t := Trim(s);
    assert TrimStart(t) == t by {
      if t != [] {
        assert t == TrimEnd(TrimStart(s));
        assert t[0] == TrimStart(s)[0];
      }
    }
  }

  /** Every element of a trimmed list is a string that trimming leaves alone. */
  lemma TrimAllTrimmed(parts: seq<string>)
    ensures forall e | e in TrimAll(parts) :: e.Str? && e.s == Trim(e.s)
  {
    var items := TrimAll(parts);
    forall e | e in items
      ensures e.Str? && e.s == Trim(e.s)
    {
      var k :| 0 <= k < |items| && items[k] == e;
      TrimAllAt(parts, k);
      TrimIdempotent(parts[k]);
    }
  }

  /** The `k`th trimmed element is the `k`th part trimmed. */
  lemma {:induction false} TrimAllAt(parts: seq<string>, k: nat)
    requires k < |parts|
    ensures TrimAll(parts)[k] == Str(Trim(parts[k]))
    decreases k
  {
    if k > 0 {
      TrimAllAt(parts[1..], k - 1);
    }
  }

  /** Splitting a string that contains the separator gives at least two parts. */
  lemma {:induction false} SplitOnIncludes(s: string, sep: string)
    requires sep != [] && Includes(s, sep)
    ensures |SplitOn(s, sep)| >= 2
    decreases |s|
  {
    if StartsWith(s, sep) {
    } else {
      SplitOnIncludes(s[1..], sep);
    }
  }
}
