/** Worked cases of the parser on the queries its tests parse. */
module ParserCases {
  import opened Results
  import opened JsValues
  import QueryGrammar
  import QueryValues
  import opened QueryLexer
  import opened Parser
  import opened ParserFacts
  import QueryCases

  /** Lower-casing leaves a string without capitals alone. */
  lemma LowerUnchanged(s: string)
    requires forall k | 0 <= k < |s| :: !('A' <= s[k] <= 'Z')
    ensures Lower(s) == s
  {
  }

  /** A text of one field query with a word value is one token. */
  lemma OneFieldToken(s: string, ident: string, op: string, word: string, now: int)
    requires s == ident + ":" + op + word
    requires ident != [] && IsIdentStart(ident[0]) && forall c | c in ident :: IsWordChar(c)
    requires forall k | 0 <= k < |ident| :: !('A' <= ident[k] <= 'Z')
    requires forall c | c in op :: QueryGrammar.IsOperatorChar(c)
    requires word != [] && !QueryGrammar.IsOperatorChar(word[0]) && forall c | c in word :: IsValueChar(c)
    ensures Lex(s, now) == [FieldQuery(ident, if op == "" then "=" else op, QueryValues.ParseValue(word, now))]
  {
    SingleFieldQuery(ident, op, word, now);
    LowerUnchanged(ident);
  }

  /** The walk over a single field query. */
  lemma OneFieldParse(t: Token, kind: string, env: Env)
    requires t.FieldQuery?
    ensures Accepted(t, kind) ==> ParseFrom([t], 0, EmptyQuery(kind), env) == Ok(EmptyQuery(kind).(filters := [FilterOf(t)]))
    ensures !QueryGrammar.IsValidField(t.field, kind) ==>
      ParseFrom([t], 0, EmptyQuery(kind), env) == Err(Error("無效的字段: " + t.field))
  {
    ParseFront([t], 0, EmptyQuery(kind), env);
    assert [] + [FilterOf(t)] == [FilterOf(t)];
  }

  /** A text that lexes to one accepted field query parses to that one filter. */
  lemma AcceptedField(s: string, t: Token, kind: string, env: Env)
    requires t.FieldQuery? && s != [] && Lex(s, env.now) == [t] && Accepted(t, kind)
    ensures ParseQuery(Str(s), kind, env) == Ok(Query([FilterOf(t)], "AND", None, None, Null, kind))
  {
    OneFieldParse(t, kind, env);
  }

  /** `status:open` on issues: one equality filter on the status, logic AND, nothing else set. */
  lemma StatusOpen(s: string, env: Env)
    requires s == "status:open"
    ensures ParseQuery(Str(s), "ISSUE", env)
      == Ok(Query([Filter("status", "=", Str("open"), "=")], "AND", None, None, Null, "ISSUE"))
  {
    var t := FieldQuery("status", "=", Str("open"));
    StatusOpenToken(s, env.now);
    StatusPriorityValid();
    AcceptedField(s, t, "ISSUE", env);
  }

  /** `status:open` lexes to one field query. */
  lemma StatusOpenToken(s: string, now: int)
    requires s == "status:open"
    ensures Lex(s, now) == [FieldQuery("status", "=", Str("open"))]
  {
    assert s == "status" + ":" + "" + "open";
    OneFieldToken(s, "status", "", "open", now);
    QueryCases.ParseValueWord(now);
  }

  /** `points:>=5` on user stories: the `>=` operator and the number 5. */
  lemma PointsAtLeastFive(s: string, env: Env)
    requires s == "points:>=5"
    ensures ParseQuery(Str(s), "USER_STORY", env)
      == Ok(Query([Filter("points", ">=", Num(5), ">=")], "AND", None, None, Null, "USER_STORY"))
  {
    var t := FieldQuery("points", ">=", Num(5));
    PointsToken(s, env.now);
    PointsValid();
    AcceptedField(s, t, "USER_STORY", env);
  }

  /** `points:>=5` lexes to one field query. */
  lemma PointsToken(s: string, now: int)
    requires s == "points:>=5"
    ensures Lex(s, now) == [FieldQuery("points", ">=", Num(5))]
  {
    assert s == "points" + ":" + ">=" + "5";
    OneFieldToken(s, "points", ">=", "5", now);
    QueryCases.ParseValueNumber(now);
  }

  /** Points is a user-story field, and `>=` is an operator. */
  lemma PointsValid()
    ensures QueryGrammar.IsValidField("points", "USER_STORY") && QueryGrammar.IsValidOperator(">=")
  {
  }

  /** A text that lexes to one field query on a field the kind lacks is refused, naming the field. */
  lemma RefusedField(s: string, t: Token, kind: string, env: Env)
    requires t.FieldQuery? && s != [] && Lex(s, env.now) == [t] && !QueryGrammar.IsValidField(t.field, kind)
    ensures ParseQuery(Str(s), kind, env) == Err(Error("查詢解析錯誤: " + ("無效的字段: " + t.field)))
  {
    OneFieldParse(t, kind, env);
  }

  /** `invalid_field:value` on issues: refused, naming the field. */
  lemma InvalidField(s: string, ident: string, word: string, env: Env)
    requires s == "invalid_field:value" && ident == "invalid_field" && word == "value"
    ensures ParseQuery(Str(s), "ISSUE", env) == Err(Error("查詢解析錯誤: " + ("無效的字段: " + ident)))
  {
    InvalidFieldText(s, ident, word);
    OneFieldToken(s, ident, "", word, env.now);
    var t := FieldQuery(ident, "=", QueryValues.ParseValue(word, env.now));
    InvalidFieldUnknown(ident);
    RefusedField(s, t, "ISSUE", env);
  }

  lemma InvalidFieldText(s: string, ident: string, word: string)
    requires s == "invalid_field:value" && ident == "invalid_field" && word == "value"
    ensures s == ident + ":" + "" + word
    ensures IsIdentStart(ident[0]) && forall c | c in ident :: IsWordChar(c)
    ensures forall k | 0 <= k < |ident| :: !('A' <= ident[k] <= 'Z')
    ensures !QueryGrammar.IsOperatorChar(word[0]) && forall c | c in word :: IsValueChar(c)
  {
  }

  lemma InvalidFieldUnknown(ident: string)
    requires ident == "invalid_field"
    ensures !QueryGrammar.IsValidField(ident, "ISSUE")
  {
  }

  /** An empty text, and a value that is not a string at all, are refused before tokenizing. */
  lemma EmptyRefused(kind: string, env: Env)
    ensures ParseQuery(Str(""), kind, env) == Err(Error("查詢字符串不能為空"))
    ensures ParseQuery(Null, kind, env) == ParseQuery(Str(""), kind, env)
  {
  }

  // ---------------------------------------------------------------------
  // Clauses

  /** ORDER BY a field and a direction, then LIMIT a count, at the end of the tokens. */
  lemma OrderLimitTail(ts: seq<Token>, pos: nat, q: Query, env: Env, field: string, dir: string, n: string, k: int)
    requires pos + 5 == |ts| && field != []
    requires ts[pos..] == [OrderByKw, ValueTok(field), ValueTok(dir), LimitKw, ValueTok(n)]
    requires Upper(dir) == "DESC" || Upper(dir) == "ASC"
    requires ParseInt(n) == Some(k) && k > 0
    ensures ParseFrom(ts, pos, q, env)
      == Ok(q.(orderBy := Some(OrderBy(Str(field), Upper(dir))), limit := Some(k)))
  {
    assert ts[pos] == OrderByKw && ts[pos + 1] == ValueTok(field) && ts[pos + 2] == ValueTok(dir);
    assert ts[pos + 3] == LimitKw && ts[pos + 4] == ValueTok(n);
    var q1 := q.(orderBy := Some(OrderBy(Str(field), Upper(dir))));
    assert Step(ts, pos, q, env) == Ok((pos + 3, q1));
    var q2 := q1.(limit := Some(k));
    assert Step(ts, pos + 3, q1, env) == Ok((pos + 5, q2));
    assert ParseFrom(ts, pos + 3, q1, env) == ParseFrom(ts, pos + 5, q2, env);
  }

  lemma UpperDesc()
    ensures Upper("DESC") == "DESC"
  {
  }

  /** A run of base digits is its own longest digit prefix. */
  lemma {:induction false} AllDigitsPrefix(s: string, base: nat)
    requires forall k | 0 <= k < |s| :: IsDigitIn(s[k], base)
    ensures DigitPrefix(s, base) == s
    decreases |s|
  {
    if s != [] {
      AllDigitsPrefix(s[1..], base);
      assert [s[0]] + s[1..] == s;
    }
  }

  /** `parseInt` of a decimal numeral without a leading zero is its value. */
  lemma ParseIntDecimal(s: string)
    requires s != [] && '1' <= s[0] <= '9' && forall k | 0 <= k < |s| :: '0' <= s[k] <= '9'
    ensures forall c | c in s :: IsDigitIn(c, 10)
    ensures ParseInt(s) == Some(DigitsValue(s, 10))
  {
    DecimalDigits(s);
    assert TrimStart(s) == s by {
      assert !IsSpace(s[0]);
    }
    AllDigitsPrefix(s, 10);
    assert s[0] != '-' && s[0] != '+' && s[0] != '0';
  }

  /** Decimal digit characters are digits of base ten. */
  lemma DecimalDigits(s: string)
    requires forall k | 0 <= k < |s| :: '0' <= s[k] <= '9'
    ensures forall k | 0 <= k < |s| :: IsDigitIn(s[k], 10)
    ensures forall c | c in s :: IsDigitIn(c, 10)
  {
  }


  lemma ParseIntTen(s: string)
    requires s == "10"
    ensures ParseInt(s) == Some(10)
  {
    ParseIntDecimal(s);
    assert s[..1] == "1" && "1"[..0] == [];
  }

  lemma ParseIntFive(s: string)
    requires s == "5"
    ensures ParseInt(s) == Some(5)
  {
    ParseIntDecimal(s);
    assert s[..0] == [];
  }

  /** The tokens of `status:open ORDER BY created DESC LIMIT 10`. */
  function SortedTokens(now: int): seq<Token> {
    [FieldQuery("status", "=", Str("open")), OrderByKw, ValueTok("created"), ValueTok("DESC"), LimitKw, ValueTok("10")]
  }

  /** One filter, sorted by `created` descending, at most ten records. */
  lemma SortedAndLimited(env: Env)
    ensures ParseFrom(SortedTokens(env.now), 0, EmptyQuery("ISSUE"), env)
      == Ok(Query([Filter("status", "=", Str("open"), "=")], "AND",
                  Some(OrderBy(Str("created"), "DESC")), Some(10), Null, "ISSUE"))
  {
    var ts := SortedTokens(env.now);
    var q0 := EmptyQuery("ISSUE");
    assert QueryGrammar.IsValidField("status", "ISSUE") && QueryGrammar.IsValidOperator("=");
    ParseFront(ts, 0, q0, env);
    var q1 := Advance(q0, ts[0]);
    assert q1 == q0.(filters := [Filter("status", "=", Str("open"), "=")]);
    UpperDesc();
    ParseIntTen("10");
    OrderLimitTail(ts, 1, q1, env, "created", "DESC", "10", 10);
  }

  /** The tokens of `status:open AND priority:high ORDER BY created DESC LIMIT 5`. */
  function StatsTokens(): seq<Token> {
    [FieldQuery("status", "=", Str("open")), Logic("AND"), FieldQuery("priority", "=", Str("high")),
     OrderByKw, ValueTok("created"), ValueTok("DESC"), LimitKw, ValueTok("5")]
  }

  /** The query the tokens of the statistics test parse to. */
  lemma StatsQuery(env: Env)
    ensures ParseFrom(StatsTokens(), 0, EmptyQuery("ISSUE"), env)
      == Ok(Query([Filter("status", "=", Str("open"), "="), Filter("priority", "=", Str("high"), "=")], "AND",
                  Some(OrderBy(Str("created"), "DESC")), Some(5), Null, "ISSUE"))
  {
    var ts := StatsTokens();
    var q3 := EmptyQuery("ISSUE").(filters := [Filter("status", "=", Str("open"), "="), Filter("priority", "=", Str("high"), "=")]);
    StatsFilters(ts, env);
    UpperDesc();
    ParseIntFive("5");
    OrderLimitTail(ts, 3, q3, env, "created", "DESC", "5", 5);
  }

  /** The first three tokens of the statistics test add two filters. */
  lemma StatsFilters(ts: seq<Token>, env: Env)
    requires ts == StatsTokens()
    ensures ParseFrom(ts, 0, EmptyQuery("ISSUE"), env)
      == ParseFrom(ts, 3, EmptyQuery("ISSUE").(filters := [Filter("status", "=", Str("open"), "="), Filter("priority", "=", Str("high"), "=")]), env)
  {
    StatsFront(ts);
    TwoFieldsFront(ts, "ISSUE", env, Filter("status", "=", Str("open"), "="), Filter("priority", "=", Str("high"), "="));
  }

  /** The statistics test starts with two accepted field queries joined by AND. */
  lemma StatsFront(ts: seq<Token>)
    requires ts == StatsTokens()
    ensures |ts| >= 3 && ts[0].FieldQuery? && ts[1] == Logic("AND") && ts[2].FieldQuery?
    ensures Accepted(ts[0], "ISSUE") && Accepted(ts[2], "ISSUE")
    ensures FilterOf(ts[0]) == Filter("status", "=", Str("open"), "=")
    ensures FilterOf(ts[2]) == Filter("priority", "=", Str("high"), "=")
  {
    StatusPriorityValid();
  }

  /** Status and priority are issue fields, and `=` is an operator. */
  lemma StatusPriorityValid()
    ensures QueryGrammar.IsValidField("status", "ISSUE") && QueryGrammar.IsValidField("priority", "ISSUE")
    ensures QueryGrammar.IsValidOperator("=")
  {
  }

  /** Two accepted field queries joined by AND, at the start, add their two filters in order. */
  lemma TwoFieldsFront(ts: seq<Token>, kind: string, env: Env, f1: Filter, f2: Filter)
    requires |ts| >= 3 && ts[0].FieldQuery? && ts[1] == Logic("AND") && ts[2].FieldQuery?
    requires Accepted(ts[0], kind) && Accepted(ts[2], kind)
    requires FilterOf(ts[0]) == f1 && FilterOf(ts[2]) == f2
    ensures ParseFrom(ts, 0, EmptyQuery(kind), env) == ParseFrom(ts, 3, EmptyQuery(kind).(filters := [f1, f2]), env)
  {
    var q := EmptyQuery(kind);
    ParseFront(ts, 0, q, env);
    var q1 := Advance(q, ts[0]);
    ParseFront(ts, 1, q1, env);
    assert Advance(q1, ts[1]) == q1;
    ParseFront(ts, 2, q1, env);
    assert q.filters + [f1] + [f2] == [f1, f2];
  }


  /** Statistics of a query with two filters, a sort and a positive limit and no grouping. */
  lemma TwoFilterStats(q: Query)
    requires |q.filters| == 2 && q.orderBy.Some? && q.limit.Some? && q.limit.value > 0 && q.groupBy == Null
    ensures QueryStatistics(q) == QueryStats(2, true, true, false, 3.5)
  {
  }

  /** Two filters, a sort and a limit: complexity 1 + 1 + 1 + 0.5. */
  lemma StatsExample(env: Env)
    ensures ParseFrom(StatsTokens(), 0, EmptyQuery("ISSUE"), env).Ok?
    ensures QueryStatistics(ParseFrom(StatsTokens(), 0, EmptyQuery("ISSUE"), env).value)
      == QueryStats(2, true, true, false, 3.5)
  {
    StatsQuery(env);
    TwoFilterStats(ParseFrom(StatsTokens(), 0, EmptyQuery("ISSUE"), env).value);
  }
}
