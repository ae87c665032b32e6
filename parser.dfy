/**
 * The query parser: a single cursor walks the tokens of a query and each
 * clause handler fills in the query object (filters, logic, sort order,
 * limit, grouping). The handlers and the walk are specified by the
 * functions Step and ParseFrom; the methods of QueryParser change the
 * parser's cursor and the query object as those functions say.
 */
module Parser {
  import opened Results
  import opened JsValues
  import QueryGrammar
  import opened QueryLexer

  /** A filter of a parsed query. */
  datatype Filter = Filter(field: string, operator: string, value: JsValue, originalOperator: string)

  /** The sort clause: the sort field as the token gave it, and ASC or DESC. */
  datatype OrderBy = OrderBy(field: JsValue, direction: string)

  /** The query object `parse` returns; `orderBy` and `limit` are null until set, as is `groupBy`. */
  datatype Query = Query(
    filters: seq<Filter>,
    logic: string,
    orderBy: Option<OrderBy>,
    limit: Option<int>,
    groupBy: JsValue,
    kind: string)

  /** The query object before any token is read. */
  function EmptyQuery(kind: string): (q: Query)
    ensures q.filters == [] && q.logic == "AND" && q.orderBy.None? && q.limit.None?
    ensures q.groupBy == Null && q.kind == kind
  {
    Query([], "AND", None, None, Null, kind)
  }

  /** `token.value`: undefined for the keyword tokens, which have none. */
  function TokenValue(t: Token): JsValue {
    match t
    case FieldQuery(_, _, v) => v
    case Paren(p) => Str(p)
    case ValueTok(text) => Str(text)
    case _ => Undefined
  }

  /** `token.field`: undefined for every token but a field query. */
  function TokenField(t: Token): JsValue {
    if t.FieldQuery? then Str(t.field) else Undefined
  }

  /** `token.value || token.field`: the field a sort or grouping clause names. */
  function FieldOf(t: Token): JsValue {
    var v := TokenValue(t);
    if Truthy(v) then v else TokenField(t)
  }

  /** `normalizeOperator`: the empty operator means equality; every other operator is kept. */
  function NormalizeOperator(op: string): (r: string)
    ensures op == "" ==> r == "="
    ensures op != "" ==> r == op
  {
    if op == "" || op == "=" then "="
    else if op == "!=" then "!="
    else if op == ">" then ">"
    else if op == ">=" then ">="
    else if op == "<" then "<"
    else if op == "<=" then "<="
    else if op == "~" then "~"
    else op
  }

  /** The filter a field-query token stands for. */
  function FilterOf(t: Token): Filter
    requires t.FieldQuery?
  {
    Filter(t.field, NormalizeOperator(t.operator), t.value, t.operator)
  }

  /** A filter whose field belongs to the kind of record and whose operator is in the operator table. */
  predicate FilterOk(f: Filter, kind: string) {
    QueryGrammar.IsValidField(f.field, kind) && QueryGrammar.IsValidOperator(f.operator)
  }

  // ---------------------------------------------------------------------
  // The clause handlers as functions

  /**
   * `parseFieldQuery`: an unknown field or an operator outside the table is
   * an error; otherwise the token's filter is appended. Whether the value
   * suits the field only decides a warning, which is not modelled.
   */
  function AddFilter(q: Query, t: Token): (r: Result<Query>)
    requires t.FieldQuery?
    ensures r.Ok? <==>
      QueryGrammar.IsValidField(t.field, q.kind) && QueryGrammar.IsValidOperator(NormalizeOperator(t.operator))
    ensures r.Ok? ==> r.value == q.(filters := q.filters + [FilterOf(t)]) && FilterOk(FilterOf(t), q.kind)
    ensures !QueryGrammar.IsValidField(t.field, q.kind) ==> r == Err(Error("無效的字段: " + t.field))
    ensures QueryGrammar.IsValidField(t.field, q.kind) && r.Err? ==> r == Err(Error("無效的操作符: " + t.operator))
  {
    if !QueryGrammar.IsValidField(t.field, q.kind) then Err(Error("無效的字段: " + t.field))
    else
      var op := NormalizeOperator(t.operator);
      if !QueryGrammar.IsValidOperator(op) then Err(Error("無效的操作符: " + t.operator))
      else Ok(q.(filters := q.filters + [Filter(t.field, op, t.value, t.operator)]))
  }

  /** `parseLogicOperator`: AND and OR replace the logic; NOT changes nothing. */
  function SetLogic(q: Query, op: string): (r: Query)
    ensures r.logic == (if op == "AND" || op == "OR" then op else q.logic)
    ensures r == q.(logic := r.logic)
  {
    if op == "AND" || op == "OR" then q.(logic := op) else q
  }

  /** The direction a token reads as, ASC or DESC in any letter case, if it reads as one. */
  function DirectionWord(t: Token): (r: Option<string>)
    ensures r.Some? ==> r.value == "ASC" || r.value == "DESC"
  {
    var v := TokenValue(t);
    if v.Str? && (Upper(v.s) == "DESC" || Upper(v.s) == "ASC") then Some(Upper(v.s)) else None
  }

  /**
   * `parseOrderBy`, entered with `p` just past the ORDER BY token: the next
   * token names the field, and the one after it is taken as the direction
   * when it reads ASC or DESC in any letter case. A direction token whose
   * value is truthy but not a string has no `toUpperCase`, so the call throws.
   */
  function OrderByClause(ts: seq<Token>, p: nat, q: Query): (r: Result<(nat, Query)>)
    requires p <= |ts|
    ensures p == |ts| ==> r == Ok((p, q))
    ensures r.Err? <==> p + 1 < |ts| && Truthy(TokenValue(ts[p + 1])) && !TokenValue(ts[p + 1]).Str?
    ensures r.Ok? && p < |ts| ==>
      && r.value.1.orderBy.Some? && r.value.1 == q.(orderBy := r.value.1.orderBy)
      && r.value.1.orderBy.value.field == FieldOf(ts[p])
    ensures r.Ok? && p < |ts| ==>
      var dir := r.value.1.orderBy.value.direction;
      || (r.value.0 == p + 2 && p + 1 < |ts| && DirectionWord(ts[p + 1]) == Some(dir))
      || (r.value.0 == p + 1 && dir == "ASC" && (p + 1 < |ts| ==> DirectionWord(ts[p + 1]).None?))
  {
    if p < |ts| then
      var field := FieldOf(ts[p]);
      if p + 1 < |ts| then
        var d := TokenValue(ts[p + 1]);
        if Truthy(d) && !d.Str? then Result<(nat, Query)>.Err(TypeError("directionToken.value.toUpperCase is not a function"))
        else if Truthy(d) && (Upper(d.s) == "DESC" || Upper(d.s) == "ASC") then
          Ok((p + 2, q.(orderBy := Some(OrderBy(field, Upper(d.s))))))
        else Ok((p + 1, q.(orderBy := Some(OrderBy(field, "ASC")))))
      else Ok((p + 1, q.(orderBy := Some(OrderBy(field, "ASC")))))
    else Ok((p, q))
  }

  /** `parseInt(limitToken.value)`, None standing for NaN. */
  function LimitOf(t: Token, env: Env): Option<int> {
    ParseInt(JsString(TokenValue(t), env))
  }

  /**
   * `parseLimit`, entered with `p` just past the LIMIT token: the next token
   * is always consumed, and sets the limit only when `parseInt` of its value
   * is a positive number.
   */
  function LimitClause(ts: seq<Token>, p: nat, q: Query, env: Env): (r: (nat, Query))
    requires p <= |ts|
    ensures r.0 == if p < |ts| then p + 1 else p
    ensures r.1 == q.(limit := r.1.limit)
    ensures r.1.limit != q.limit ==>
      p < |ts| && r.1.limit.Some? && r.1.limit == LimitOf(ts[p], env) && r.1.limit.value > 0
    ensures p < |ts| && LimitOf(ts[p], env).Some? && LimitOf(ts[p], env).value > 0
      ==> r.1.limit == LimitOf(ts[p], env)
  {
    if p < |ts| then
      var limit := LimitOf(ts[p], env);
      if limit.Some? && limit.value > 0 then (p + 1, q.(limit := limit)) else (p + 1, q)
    else (p, q)
  }

  /** `parseGroupBy`, entered with `p` just past the GROUP BY token: the next token names the field. */
  function GroupByClause(ts: seq<Token>, p: nat, q: Query): (r: (nat, Query))
    requires p <= |ts|
    ensures p < |ts| ==> r == (p + 1, q.(groupBy := FieldOf(ts[p])))
    ensures p == |ts| ==> r == (p, q)
  {
    if p < |ts| then (p + 1, q.(groupBy := FieldOf(ts[p]))) else (p, q)
  }

  /** One turn of `parseExpression` at `pos`: the new position and query, or the error thrown. */
  function Step(ts: seq<Token>, pos: nat, q: Query, env: Env): (r: Result<(nat, Query)>)
    requires pos < |ts|
    ensures r.Ok? ==> pos < r.value.0 <= |ts|
    ensures r.Ok? ==> r.value.1.kind == q.kind
  {
    match ts[pos]
    case FieldQuery(_, _, _) =>
      (match AddFilter(q, ts[pos])
       case Ok(q') => Ok((pos + 1, q'))
       case Err(e) => Err(e))
    case Logic(op) => Ok((pos + 1, SetLogic(q, op)))
    case OrderByKw => OrderByClause(ts, pos + 1, q)
    case LimitKw => Ok(LimitClause(ts, pos + 1, q, env))
    case GroupByKw => Ok(GroupByClause(ts, pos + 1, q))
    case Paren(_) => Ok((pos + 1, q))
    case ValueTok(_) => Ok((pos + 1, q))
  }

  /** The filters the field-query tokens of `ts` stand for, whether or not the walk reaches them. */
  function AllFilters(ts: seq<Token>): set<Filter> {
    set t | t in ts && t.FieldQuery? :: FilterOf(t)
  }

  /**
   * `parseExpression` from position `pos`: the query once every token is
   * read, or the first error. Filters are only ever appended, each comes
   * from a field-query token and passes both checks, the logic is the
   * starting one or AND or OR, and a limit that changes is positive.
   */
  function ParseFrom(ts: seq<Token>, pos: nat, q: Query, env: Env): (r: Result<Query>)
    ensures r.Ok? ==> r.value.kind == q.kind
    ensures r.Ok? ==> |q.filters| <= |r.value.filters| && r.value.filters[..|q.filters|] == q.filters
    ensures r.Ok? ==> forall i | |q.filters| <= i < |r.value.filters| ::
      FilterOk(r.value.filters[i], q.kind) && r.value.filters[i] in AllFilters(ts)
    ensures r.Ok? ==> r.value.logic in {q.logic, "AND", "OR"}
    ensures r.Ok? && r.value.limit != q.limit ==> r.value.limit.Some? && r.value.limit.value > 0
    decreases |ts| - pos
  {
    if pos >= |ts| then Ok(q)
    else
      match Step(ts, pos, q, env)
      case Err(e) => Err(e)
      case Ok((p, q')) =>
        StepFacts(ts, pos, q, env);
        var r := ParseFrom(ts, p, q', env);
        ChainFacts(ts, q, q', r);
        r
  }

  /** The facts `ParseFrom` promises carry from one turn and the rest of the walk to the whole walk. */
  lemma ChainFacts(ts: seq<Token>, q: Query, q': Query, r: Result<Query>)
    requires q'.kind == q.kind
    requires |q.filters| <= |q'.filters| && q'.filters[..|q.filters|] == q.filters
    requires forall i | |q.filters| <= i < |q'.filters| :: FilterOk(q'.filters[i], q.kind) && q'.filters[i] in AllFilters(ts)
    requires q'.logic in {q.logic, "AND", "OR"}
    requires q'.limit != q.limit ==> q'.limit.Some? && q'.limit.value > 0
    requires r.Ok? ==> r.value.kind == q'.kind
    requires r.Ok? ==> |q'.filters| <= |r.value.filters| && r.value.filters[..|q'.filters|] == q'.filters
    requires r.Ok? ==> forall i | |q'.filters| <= i < |r.value.filters| ::
      FilterOk(r.value.filters[i], q'.kind) && r.value.filters[i] in AllFilters(ts)
    requires r.Ok? ==> r.value.logic in {q'.logic, "AND", "OR"}
    requires r.Ok? && r.value.limit != q'.limit ==> r.value.limit.Some? && r.value.limit.value > 0
    ensures r.Ok? ==> |q.filters| <= |r.value.filters| && r.value.filters[..|q.filters|] == q.filters
    ensures r.Ok? ==> forall i | |q.filters| <= i < |r.value.filters| ::
      FilterOk(r.value.filters[i], q.kind) && r.value.filters[i] in AllFilters(ts)
    ensures r.Ok? ==> r.value.logic in {q.logic, "AND", "OR"}
    ensures r.Ok? && r.value.limit != q.limit ==> r.value.limit.Some? && r.value.limit.value > 0
  {
    if r.Ok? {
      var fs := r.value.filters;
      assert fs[..|q.filters|] == fs[..|q'.filters|][..|q.filters|];
      forall i | |q.filters| <= i < |fs|
        ensures FilterOk(fs[i], q.kind) && fs[i] in AllFilters(ts)
      {
        if i < |q'.filters| {
          assert fs[i] == fs[..|q'.filters|][i];
        }
      }
    }
  }

  /** What one turn does to the filters, the logic and the limit. */
  lemma StepFacts(ts: seq<Token>, pos: nat, q: Query, env: Env)
    requires pos < |ts| && Step(ts, pos, q, env).Ok?
    ensures var q' := Step(ts, pos, q, env).value.1;
      && |q.filters| <= |q'.filters| && q'.filters[..|q.filters|] == q.filters
      && (forall i | |q.filters| <= i < |q'.filters| :: FilterOk(q'.filters[i], q.kind) && q'.filters[i] in AllFilters(ts))
      && q'.logic in {q.logic, "AND", "OR"}
      && (q'.limit != q.limit ==> q'.limit.Some? && q'.limit.value > 0)
  {
    if ts[pos].FieldQuery? {
      assert ts[pos] in ts;
    }
  }

  /** `parse(queryString, type)`: an empty or non-string query is refused before it is tokenized. */
  function ParseQuery(input: JsValue, kind: string, env: Env): (r: Result<Query>)
    ensures !(input.Str? && input.s != "") ==> r == Err(Error("查詢字符串不能為空"))
    ensures input.Str? && input.s != "" && r.Err? ==>
      r.error.Error? && StartsWith(r.error.message, "查詢解析錯誤: ")
    ensures r.Ok? ==> r.value.kind == kind && r.value.logic in {"AND", "OR"}
    ensures r.Ok? ==> forall f | f in r.value.filters :: FilterOk(f, kind)
  {
    if !(input.Str? && input.s != "") then Err(Error("查詢字符串不能為空"))
    else
      match ParseFrom(Lex(input.s, env.now), 0, EmptyQuery(kind), env)
      case Ok(q) => Ok(q)
      case Err(e) =>
        var message := "查詢解析錯誤: " + e.Message();
        assert message[..|"查詢解析錯誤: "|] == "查詢解析錯誤: ";
        Err(Error(message))
  }

  // ---------------------------------------------------------------------
  // The parser as a stateful object

  /** The query object the handlers fill in. */
  class ParsedQuery {
    var filters: seq<Filter>
    var logic: string
    var orderBy: Option<OrderBy>
    var limit: Option<int>
    var groupBy: JsValue
    var kind: string

    constructor(kind: string)
      ensures Snapshot() == EmptyQuery(kind)
    {
      filters := [];
      logic := "AND";
      orderBy := None;
      limit := None;
      groupBy := Null;
      this.kind := kind;
    }

    /** The query object's fields as a value. */
    function Snapshot(): Query
      reads this
    {
      Query(filters, logic, orderBy, limit, groupBy, kind)
    }
  }

  /** `QueryParser`: the tokens being read, the cursor, and the kind of record the query is for. */
  class QueryParser {
    var tokens: seq<Token>
    var position: nat
    var dataType: string

    /** A parser with no tokens; the kind of record is set by Parse. */
    constructor()
      ensures tokens == [] && position == 0
    {
      tokens := [];
      position := 0;
      dataType := "";
    }

    /** `parse(queryString, type)`; the caller passes the type, whose default is ISSUE. */
    method Parse(input: JsValue, kind: string, env: Env) returns (r: Result<ParsedQuery>)
      modifies this
      ensures r.Ok? <==> ParseQuery(input, kind, env).Ok?
      ensures r.Ok? ==> fresh(r.value) && r.value.Snapshot() == ParseQuery(input, kind, env).value
      ensures r.Err? ==> r.error == ParseQuery(input, kind, env).error
    {
      if !(input.Str? && input.s != "") {
        return Err(Error("查詢字符串不能為空"));
      }
      tokens := Tokenize(input.s, env.now);
      position := 0;
      dataType := kind;
      var query := new ParsedQuery(kind);
      var err := ParseExpression(query, env);
      if err.Some? {
        return Err(Error("查詢解析錯誤: " + err.value.Message()));
      }
      return Ok(query);
    }

    /** `tokenize(queryString)`: one token per match of the tokenizer, white space skipped. */
    method Tokenize(s: string, now: int) returns (ts: seq<Token>)
      ensures ts == Lex(s, now)
    {
      ts := [];
      var last := 0;
      while true
        invariant last <= |s|
        invariant ts + Tokens(s, last, now) == Lex(s, now)
        decreases |s| - last
      {
        var start := RunEnd(s, last, IsSpace);
        if start == |s| {
          assert Tokens(s, last, now) == [];
          assert ts + [] == ts;
          break;
        }
        var (l, e) := MatchAt(s, start);
        assert Tokens(s, last, now) == [ToToken(l, now)] + Tokens(s, e, now);
        ts := ts + [ToToken(l, now)];
        last := e;
      }
    }

    /** `parseExpression(query)`: None when every token is read, or the error a handler throws. */
    method ParseExpression(query: ParsedQuery, env: Env) returns (err: Option<Failure>)
      requires dataType == query.kind
      modifies this, query
      ensures tokens == old(tokens) && dataType == old(dataType)
      ensures var r := ParseFrom(tokens, old(position), old(query.Snapshot()), env);
        if r.Ok? then err.None? && query.Snapshot() == r.value else err == Some(r.error)
    {
      while position < |tokens|
        invariant tokens == old(tokens) && dataType == old(dataType) && dataType == query.kind
        invariant ParseFrom(tokens, position, query.Snapshot(), env)
          == ParseFrom(tokens, old(position), old(query.Snapshot()), env)
        decreases |tokens| - position
      {
        var token := tokens[position];
        match token {
          case FieldQuery(_, _, _) =>
            err := ParseFieldQuery(query, token);
            if err.Some? {
              return;
            }
          case Logic(_) =>
            ParseLogicOperator(query, token);
          case OrderByKw =>
            err := ParseOrderBy(query);
            if err.Some? {
              return;
            }
          case LimitKw =>
            ParseLimit(query, env);
          case GroupByKw =>
            ParseGroupBy(query);
          case Paren(_) =>
            ParseParentheses(query, token);
          case ValueTok(_) =>
            position := position + 1;
        }
      }
      err := None;
    }

    /** `parseFieldQuery(query, token)` */
    method ParseFieldQuery(query: ParsedQuery, token: Token) returns (err: Option<Failure>)
      requires token.FieldQuery? && dataType == query.kind
      modifies this, query
      ensures tokens == old(tokens) && dataType == old(dataType) && query.kind == old(query.kind)
      ensures var r := AddFilter(old(query.Snapshot()), token);
        if r.Ok? then err.None? && query.Snapshot() == r.value && position == old(position) + 1
        else err == Some(r.error)
    {
      var field := token.field;
      if !QueryGrammar.IsValidField(field, dataType) {
        return Some(Error("無效的字段: " + field));
      }
      var normalizedOperator := NormalizeOperator(token.operator);
      if !QueryGrammar.IsValidOperator(normalizedOperator) {
        return Some(Error("無效的操作符: " + token.operator));
      }
      query.filters := query.filters + [Filter(field, normalizedOperator, token.value, token.operator)];
      position := position + 1;
      err := None;
    }

    /** `parseLogicOperator(query, token)` */
    method ParseLogicOperator(query: ParsedQuery, token: Token)
      requires token.Logic?
      modifies this, query
      ensures tokens == old(tokens) && dataType == old(dataType)
      ensures query.Snapshot() == SetLogic(old(query.Snapshot()), token.operator)
      ensures position == old(position) + 1
    {
      if token.operator == "AND" || token.operator == "OR" {
        query.logic := token.operator;
      }
      position := position + 1;
    }

    /** `parseOrderBy(query)`, with the cursor on the ORDER BY token. */
    method ParseOrderBy(query: ParsedQuery) returns (err: Option<Failure>)
      requires position < |tokens|
      modifies this, query
      ensures tokens == old(tokens) && dataType == old(dataType)
      ensures var r := OrderByClause(tokens, old(position) + 1, old(query.Snapshot()));
        if r.Ok? then err.None? && (position, query.Snapshot()) == r.value else err == Some(r.error)
    {
      position := position + 1;
      if position < |tokens| {
        var fieldToken := tokens[position];
        var field := FieldOf(fieldToken);
        var direction := "ASC";
        if position + 1 < |tokens| {
          var value := TokenValue(tokens[position + 1]);
          if Truthy(value) && !value.Str? {
            return Some(TypeError("directionToken.value.toUpperCase is not a function"));
          }
          if Truthy(value) && (Upper(value.s) == "DESC" || Upper(value.s) == "ASC") {
            direction := Upper(value.s);
            position := position + 1;
          }
        }
        query.orderBy := Some(OrderBy(field, direction));
        position := position + 1;
      }
      err := None;
    }

    /** `parseLimit(query)`, with the cursor on the LIMIT token. */
    method ParseLimit(query: ParsedQuery, env: Env)
      requires position < |tokens|
      modifies this, query
      ensures tokens == old(tokens) && dataType == old(dataType)
      ensures (position, query.Snapshot()) == LimitClause(tokens, old(position) + 1, old(query.Snapshot()), env)
    {
      ghost var before := query.Snapshot();
      position := position + 1;
      if position < |tokens| {
        var limitToken := tokens[position];
        var limit := LimitOf(limitToken, env);
        if limit.Some? && limit.value > 0 {
          query.limit := limit;
          assert query.Snapshot() == before.(limit := limit);
        } else {
          assert query.Snapshot() == before;
        }
        position := position + 1;
      }
    }

    /** `parseGroupBy(query)`, with the cursor on the GROUP BY token. */
    method ParseGroupBy(query: ParsedQuery)
      requires position < |tokens|
      modifies this, query
      ensures tokens == old(tokens) && dataType == old(dataType)
      ensures (position, query.Snapshot()) == GroupByClause(tokens, old(position) + 1, old(query.Snapshot()))
    {
      position := position + 1;
      if position < |tokens| {
        var fieldToken := tokens[position];
        query.groupBy := FieldOf(fieldToken);
        position := position + 1;
      }
    }

    /** `parseParentheses(query, token)`: parentheses are skipped. */
    method ParseParentheses(query: ParsedQuery, token: Token)
      modifies this
      ensures tokens == old(tokens) && dataType == old(dataType)
      ensures position == old(position) + 1
    {
      position := position + 1;
    }
  }

  // ---------------------------------------------------------------------
  // Validation and statistics

  /**
   * `validateQuery(query)`: a query needs a filter, and every filter a
   * non-empty field and operator.
   */
  method ValidateQuery(q: Query) returns (r: Result<bool>)
    ensures q.filters == [] ==> r == Err(Error("查詢必須至少包含一個過濾條件"))
    ensures q.filters != [] ==>
      (r == Ok(true) <==> forall f | f in q.filters :: f.field != "" && f.operator != "")
    ensures q.filters != [] && r.Err? ==> r == Err(Error("過濾條件必須包含字段和操作符"))
  {
    if |q.filters| == 0 {
      return Err(Error("查詢必須至少包含一個過濾條件"));
    }
    for i := 0 to |q.filters|
      invariant forall k | 0 <= k < i :: q.filters[k].field != "" && q.filters[k].operator != ""
    {
      var filter := q.filters[i];
      if filter.field == "" || filter.operator == "" {
        return Err(Error("過濾條件必須包含字段和操作符"));
      }
    }
    return Ok(true);
  }

  /** The statistics `getQueryStats` reports. */
  datatype QueryStats = QueryStats(
    filterCount: nat,
    hasOrderBy: bool,
    hasLimit: bool,
    hasGroupBy: bool,
    complexity: real)

  /** `Math.round` on a number: the nearest integer, halves rounded up. */
  function MathRound(x: real): (n: int)
    ensures n as real - 0.5 <= x < n as real + 0.5
  {
    (x + 0.5).Floor
  }

  /**
   * `calculateComplexity`: one per filter, one for a sort, a half for a
   * limit and two for a grouping, rounded to one decimal place, which
   * changes nothing since the sum is a multiple of a half.
   */
  function Complexity(q: Query): (c: real)
    ensures |q.filters| as real <= c <= |q.filters| as real + 3.5
    ensures c == |q.filters| as real + (if q.orderBy.Some? then 1.0 else 0.0)
      + (if q.limit.Some? && q.limit.value != 0 then 0.5 else 0.0) + (if Truthy(q.groupBy) then 2.0 else 0.0)
  {
    var complexity := |q.filters| as real
      + (if q.orderBy.Some? then 1.0 else 0.0)
      + (if q.limit.Some? && q.limit.value != 0 then 0.5 else 0.0)
      + (if Truthy(q.groupBy) then 2.0 else 0.0);
    var tenths: int := 10 * |q.filters|
      + (if q.orderBy.Some? then 10 else 0)
      + (if q.limit.Some? && q.limit.value != 0 then 5 else 0)
      + (if Truthy(q.groupBy) then 20 else 0);
    assert complexity * 10.0 == tenths as real;
    assert MathRound(tenths as real) == tenths;
    MathRound(complexity * 10.0) as real / 10.0
  }

  /**
   * `getQueryStats(query)`: each flag is the truthiness of its clause, and
   * the complexity is `calculateComplexity` of the same query.
   */
  function QueryStatistics(q: Query): (s: QueryStats)
    ensures s.filterCount == |q.filters|
    ensures s.hasOrderBy <==> q.orderBy.Some?
    ensures s.hasLimit <==> q.limit.Some? && q.limit.value != 0
    ensures s.hasGroupBy <==> Truthy(q.groupBy)
    ensures s.complexity == Complexity(q)
    ensures s.filterCount as real <= s.complexity <= s.filterCount as real + 3.5
    ensures s.complexity == s.filterCount as real + (if s.hasOrderBy then 1.0 else 0.0)
      + (if s.hasLimit then 0.5 else 0.0) + (if s.hasGroupBy then 2.0 else 0.0)
  {
    QueryStats(|q.filters|, q.orderBy.Some?, q.limit.Some? && q.limit.value != 0, Truthy(q.groupBy), Complexity(q))
  }
}
