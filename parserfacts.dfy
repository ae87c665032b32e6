/**
 * Properties of the parser: how filters accumulate and how the logic is
 * settled when no sort, limit or grouping clause takes tokens away, which
 * operators can come out of a parsed text, and what validation then finds.
 */
module ParserFacts {
  import opened Results
  import opened JsValues
  import QueryGrammar
  import opened QueryLexer
  import opened Parser

  /** Normalizing an operator twice is normalizing it once. */
  lemma NormalizeIdempotent(op: string)
    ensures NormalizeOperator(NormalizeOperator(op)) == NormalizeOperator(op)
  {
  }

  /** Operators such as `=>` or `!` survive normalization and are refused. */
  lemma MalformedOperators(q: Query, field: string, v: JsValue)
    requires QueryGrammar.IsValidField(field, q.kind)
    ensures AddFilter(q, FieldQuery(field, "=>", v)) == Err(Error("無效的操作符: =>"))
    ensures AddFilter(q, FieldQuery(field, "!", v)) == Err(Error("無效的操作符: !"))
    ensures AddFilter(q, FieldQuery(field, "", v)).Ok?
  {
    assert NormalizeOperator("=>") == "=>" && !QueryGrammar.IsValidOperator("=>");
    assert NormalizeOperator("!") == "!" && !QueryGrammar.IsValidOperator("!");
    assert "無效的操作符: " + "=>" == "無效的操作符: =>";
    assert "無效的操作符: " + "!" == "無效的操作符: !";
  }

  /** The check of a value against its field never throws once the field has passed its own check. */
  lemma ValueCheckTotal(field: string, v: JsValue, kind: string, env: Env)
    requires QueryGrammar.IsValidField(field, kind)
    ensures QueryGrammar.IsValidValue(field, v, kind, env).Ok?
  {
  }

  // ---------------------------------------------------------------------
  // Clause-free token sequences

  /** No token takes the token after it away from the walk. */
  predicate ClauseFree(ts: seq<Token>) {
    forall t | t in ts :: !t.OrderByKw? && !t.LimitKw? && !t.GroupByKw?
  }

  /** The filters of the field-query tokens, in token order. */
  function FieldFilters(ts: seq<Token>): (fs: seq<Filter>)
    ensures |fs| <= |ts|
  {
    if ts == [] then []
    else (if ts[0].FieldQuery? then [FilterOf(ts[0])] else []) + FieldFilters(ts[1..])
  }

  /** A token that is not a field query, or one that passes the field and the operator check of the kind. */
  predicate Accepted(t: Token, kind: string) {
    t.FieldQuery? ==>
      QueryGrammar.IsValidField(t.field, kind) && QueryGrammar.IsValidOperator(NormalizeOperator(t.operator))
  }

  /** Every field-query token passes the field and the operator check of the kind. */
  predicate AllAccepted(ts: seq<Token>, kind: string) {
    forall t | t in ts :: Accepted(t, kind)
  }

  /** The operator of the last AND or OR token, or `logic` when there is none. */
  function LastLogic(ts: seq<Token>, logic: string): (r: string)
    ensures r == logic || r == "AND" || r == "OR"
  {
    if ts == [] then logic
    else
      var t := ts[|ts| - 1];
      if t.Logic? && (t.operator == "AND" || t.operator == "OR") then t.operator
      else LastLogic(ts[..|ts| - 1], logic)
  }

  /** Reading one more token from the front: an AND or OR token becomes the logic to start from. */
  lemma {:induction false} LastLogicFront(t: Token, rest: seq<Token>, logic: string)
    ensures LastLogic([t] + rest, logic)
      == LastLogic(rest, if t.Logic? && (t.operator == "AND" || t.operator == "OR") then t.operator else logic)
    decreases |rest|
  {
    var start := if t.Logic? && (t.operator == "AND" || t.operator == "OR") then t.operator else logic;
    if rest == [] {
      assert [t] + rest == [t] && [t][..0] == [];
    } else {
      var all := [t] + rest;
      assert all[|all| - 1] == rest[|rest| - 1];
      assert all[..|all| - 1] == [t] + rest[..|rest| - 1];
      LastLogicFront(t, rest[..|rest| - 1], logic);
    }
  }

  /** The query after one clause-free token: its filter appended, its AND or OR taken as the logic. */
  function Advance(q: Query, t: Token): Query {
    q.(filters := q.filters + (if t.FieldQuery? then [FilterOf(t)] else []),
       logic := if t.Logic? && (t.operator == "AND" || t.operator == "OR") then t.operator else q.logic)
  }

  /**
   * Without ORDER BY, LIMIT or GROUP BY, the walk succeeds exactly when
   * every field query passes its checks, and then it appends one filter per
   * field query, in token order, and the last AND or OR decides the logic;
   * nothing else changes.
   */
  lemma {:induction false} ClauseFreeParse(ts: seq<Token>, pos: nat, q: Query, env: Env)
    requires pos <= |ts| && ClauseFree(ts[pos..])
    ensures ParseFrom(ts, pos, q, env).Ok? <==> AllAccepted(ts[pos..], q.kind)
    ensures ParseFrom(ts, pos, q, env).Ok? ==> (ParseFrom(ts, pos, q, env).value
      == q.(filters := q.filters + FieldFilters(ts[pos..]), logic := LastLogic(ts[pos..], q.logic)))
    decreases |ts| - pos
  {
    if pos == |ts| {
      assert ts[pos..] == [];
      assert q.filters + [] == q.filters;
    } else {
      var t := ts[pos];
      FrontToken(ts, pos, q.kind);
      ParseFront(ts, pos, q, env);
      if Accepted(t, q.kind) {
        ClauseFreeParse(ts, pos + 1, Advance(q, t), env);
        AdvanceRest(q, t, ts[pos + 1..]);
      }
    }
  }

  /** Advancing over a token and then over the rest is advancing over both at once. */
  lemma AdvanceRest(q: Query, t: Token, rest: seq<Token>)
    ensures var q' := Advance(q, t);
      q'.(filters := q'.filters + FieldFilters(rest), logic := LastLogic(rest, q'.logic))
      == q.(filters := q.filters + FieldFilters([t] + rest), logic := LastLogic([t] + rest, q.logic))
  {
    LastLogicFront(t, rest, q.logic);
    FieldFiltersFront(t, rest);
    var front := if t.FieldQuery? then [FilterOf(t)] else [];
    assert q.filters + front + FieldFilters(rest) == q.filters + (front + FieldFilters(rest));
  }

  /** The filters of a token in front of others. */
  lemma FieldFiltersFront(t: Token, rest: seq<Token>)
    ensures FieldFilters([t] + rest) == (if t.FieldQuery? then [FilterOf(t)] else []) + FieldFilters(rest)
  {
    assert ([t] + rest)[0] == t && ([t] + rest)[1..] == rest;
  }

  /** Splitting the first token off a clause-free suffix. */
  lemma FrontToken(ts: seq<Token>, pos: nat, kind: string)
    requires pos < |ts| && ClauseFree(ts[pos..])
    ensures ts[pos..] == [ts[pos]] + ts[pos + 1..]
    ensures ClauseFree(ts[pos + 1..]) && !ts[pos].OrderByKw? && !ts[pos].LimitKw? && !ts[pos].GroupByKw?
    ensures AllAccepted(ts[pos..], kind) <==> Accepted(ts[pos], kind) && AllAccepted(ts[pos + 1..], kind)
    ensures FieldFilters(ts[pos..])
      == (if ts[pos].FieldQuery? then [FilterOf(ts[pos])] else []) + FieldFilters(ts[pos + 1..])
  {
    assert ts[pos..] == [ts[pos]] + ts[pos + 1..];
    assert ts[pos] in ts[pos..];
    assert forall u | u in ts[pos + 1..] :: u in ts[pos..];
  }

  /** One turn of the walk on a token that is not a clause keyword. */
  lemma ParseFront(ts: seq<Token>, pos: nat, q: Query, env: Env)
    requires pos < |ts| && !ts[pos].OrderByKw? && !ts[pos].LimitKw? && !ts[pos].GroupByKw?
    ensures !Accepted(ts[pos], q.kind) ==> ParseFrom(ts, pos, q, env).Err?
    ensures Accepted(ts[pos], q.kind) ==> ParseFrom(ts, pos, q, env) == ParseFrom(ts, pos + 1, Advance(q, ts[pos]), env)
  {
    var t := ts[pos];
    if t.FieldQuery? {
      if Accepted(t, q.kind) {
        assert Step(ts, pos, q, env) == Ok((pos + 1, Advance(q, t)));
      } else {
        assert Step(ts, pos, q, env).Err?;
      }
    } else {
      assert q.filters + [] == q.filters;
      assert Step(ts, pos, q, env) == Ok((pos + 1, Advance(q, t)));
    }
  }

  // ---------------------------------------------------------------------
  // Parsed text

  /** The seven comparison operators the tokenizer can spell. */
  const GlyphOperators: seq<string> := ["=", "!=", ">", ">=", "<", "<=", "~"]

  /**
   * A query parsed from text only holds the seven comparison operators,
   * never `contains`, `in`, `exists` and the other word operators, and its
   * fields are lower-case words of the kind's field table.
   */
  lemma ParsedOperators(s: string, kind: string, env: Env)
    requires ParseQuery(Str(s), kind, env).Ok?
    ensures forall f | f in ParseQuery(Str(s), kind, env).value.filters ::
      f.operator in GlyphOperators && QueryGrammar.IsValidField(f.field, kind)
      && forall c | c in f.field :: !('A' <= c <= 'Z')
  {
    var ts := Lex(s, env.now);
    var r := ParseFrom(ts, 0, EmptyQuery(kind), env);
    assert r.Ok? && r.value == ParseQuery(Str(s), kind, env).value;
    forall f | f in r.value.filters
      ensures f.operator in GlyphOperators && QueryGrammar.IsValidField(f.field, kind)
      ensures forall c | c in f.field :: !('A' <= c <= 'Z')
    {
      var i :| 0 <= i < |r.value.filters| && r.value.filters[i] == f;
      assert FilterOk(f, kind) && f in AllFilters(ts);
      var t :| t in ts && t.FieldQuery? && FilterOf(t) == f;
      assert TokenShape(t);
      QueryGrammar.GlyphOperators(t.operator);
    }
  }

  /** A successful parse with at least one filter passes `validateQuery`: no filter lacks a field or an operator. */
  lemma ParsedQueriesValidate(input: JsValue, kind: string, env: Env)
    requires ParseQuery(input, kind, env).Ok?
    ensures forall f | f in ParseQuery(input, kind, env).value.filters :: f.field != "" && f.operator != ""
  {
    var q := ParseQuery(input, kind, env).value;
    QueryGrammar.EmptyNeverValid(kind);
    forall f | f in q.filters ensures f.field != "" && f.operator != "" {
      assert FilterOk(f, kind);
    }
  }
}
