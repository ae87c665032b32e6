/**
 * The three issues of the complex-filtering example: AND on status and
 * assignee keeps one of them, OR on priority and assignee keeps all three.
 */
module ExecutorCases {
  import opened JsValues
  import opened Parser
  import opened QueryCompare
  import opened QueryFiltering

  /** A field name without a dot is a path of one step. */
  lemma {:induction false} SplitNoDot(s: string)
    requires NoDot(s)
    ensures SplitOn(s, ".") == [s]
    decreases |s|
  {
    if s != [] {
      assert !StartsWith(s, ".") by {
        assert s[..1][0] == s[0];
      }
      SplitNoDot(s[1..]);
      assert [s[0]] + s[1..] == s;
    }
  }

  /** Lower-case text is its own lower case. */
  lemma LowerUnchanged(s: string)
    requires LowerCase(s)
    ensures Lower(s) == s
  {
  }

  /** An `=` filter on a plain string field of an object compares the lower-case texts. */
  lemma PlainEqual(props: map<string, JsValue>, field: string, value: string, env: Env)
    requires NoDot(field)
    requires field in props && props[field].Str?
    requires LowerCase(props[field].s) && LowerCase(value)
    ensures Evaluate(Obj(props), Filter(field, "=", Str(value), "="), env) <==> props[field].s == value
  {
    SplitNoDot(field);
    LowerUnchanged(props[field].s);
    LowerUnchanged(value);
    assert FieldValue(Obj(props), [field]) == FieldValue(props[field], []);
  }

  /** Filtering three records keeps each one that passes, in order. */
  lemma FilterThree(a: JsValue, b: JsValue, c: JsValue, filters: seq<Filter>, logic: string, env: Env)
    ensures ApplyFilters([a, b, c], filters, logic, env)
      == (if Keep(a, filters, logic, env) then [a] else [])
       + (if Keep(b, filters, logic, env) then [b] else [])
       + (if Keep(c, filters, logic, env) then [c] else [])
  {
    assert [a, b, c][1..] == [b, c] && [b, c][1..] == [c] && [c][1..] == [];
    assert ApplyFilters([c], filters, logic, env) == (if Keep(c, filters, logic, env) then [c] else []) + [];
  }

  /** An issue with a status, a priority and an assignee. */
  function Issue(status: string, priority: string, assignee: string): JsValue {
    Obj(map["status" := Str(status), "priority" := Str(priority), "assignee" := Str(assignee)])
  }

  /** `{ field, operator: '=', value }` */
  function Equals(field: string, value: string): Filter {
    Filter(field, "=", Str(value), "=")
  }

  /** Text with no capital letters. */
  predicate LowerCase(s: string) {
    forall k | 0 <= k < |s| :: !('A' <= s[k] <= 'Z')
  }

  /** A field name with no dot in it. */
  predicate NoDot(s: string) {
    forall k | 0 <= k < |s| :: s[k] != '.'
  }

  /** The three field names of an issue are plain names. */
  lemma IssueFields()
    ensures NoDot("status") && NoDot("priority") && NoDot("assignee")
  {
  }

  /**
   * The example's three issues, for any lower-case values: AND on status and
   * assignee keeps the first issue only.
   */
  lemma AndKeepsOne(open: string, closed: string, high: string, low: string, john: string, mary: string, env: Env)
    requires LowerCase(open) && LowerCase(closed) && LowerCase(high) && LowerCase(low) && LowerCase(john) && LowerCase(mary)
    requires open != closed && john != mary
    ensures var data := [Issue(open, high, john), Issue(open, low, mary), Issue(closed, high, john)];
      ApplyFilters(data, [Equals("status", open), Equals("assignee", john)], "AND", env) == [data[0]]
  {
    var a, b, c := Issue(open, high, john), Issue(open, low, mary), Issue(closed, high, john);
    var byStatus, byAssignee := Equals("status", open), Equals("assignee", john);
    IssueFields();
    PlainEqual(a.props, "status", open, env);
    PlainEqual(a.props, "assignee", john, env);
    PlainEqual(b.props, "assignee", john, env);
    PlainEqual(c.props, "status", open, env);
    AndOfTwo(a, byStatus, byAssignee, env);
    AndOfTwo(b, byStatus, byAssignee, env);
    AndOfTwo(c, byStatus, byAssignee, env);
    FilterThree(a, b, c, [byStatus, byAssignee], "AND", env);
  }

  /**
   * The same issues: OR on priority and assignee keeps all three.
   */
  lemma OrKeepsThree(open: string, closed: string, high: string, low: string, john: string, mary: string, env: Env)
    requires LowerCase(open) && LowerCase(closed) && LowerCase(high) && LowerCase(low) && LowerCase(john) && LowerCase(mary)
    ensures var data := [Issue(open, high, john), Issue(open, low, mary), Issue(closed, high, john)];
      ApplyFilters(data, [Equals("priority", high), Equals("assignee", mary)], "OR", env) == data
  {
    var a, b, c := Issue(open, high, john), Issue(open, low, mary), Issue(closed, high, john);
    var byPriority, byAssignee := Equals("priority", high), Equals("assignee", mary);
    IssueFields();
    PlainEqual(a.props, "priority", high, env);
    PlainEqual(b.props, "assignee", mary, env);
    PlainEqual(c.props, "priority", high, env);
    OrOfTwo(a, byPriority, byAssignee, env);
    OrOfTwo(b, byPriority, byAssignee, env);
    OrOfTwo(c, byPriority, byAssignee, env);
    FilterThree(a, b, c, [byPriority, byAssignee], "OR", env);
  }

  /** AND over two filters: both must hold. */
  lemma AndOfTwo(item: JsValue, f: Filter, g: Filter, env: Env)
    ensures Keep(item, [f, g], "AND", env) <==> Evaluate(item, f, env) && Evaluate(item, g, env)
  {
    assert f in [f, g] && g in [f, g];
  }

  /** OR over two filters: either may hold. */
  lemma OrOfTwo(item: JsValue, f: Filter, g: Filter, env: Env)
    ensures Keep(item, [f, g], "OR", env) <==> Evaluate(item, f, env) || Evaluate(item, g, env)
  {
    assert f in [f, g] && g in [f, g];
  }
}
