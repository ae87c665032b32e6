/**
 * `applyFilters`: the records every filter accepts, or under OR the records
 * some filter accepts, kept in their original order.
 */
module QueryFiltering {
  import opened JsValues
  import opened Parser
  import opened QueryCompare

  /** Whether a record passes the filters under the logic: OR wants one filter, anything else all of them. */
  predicate Keep(item: JsValue, filters: seq<Filter>, logic: string, env: Env) {
    if logic == "OR" then exists f | f in filters :: Evaluate(item, f, env)
    else forall f | f in filters :: Evaluate(item, f, env)
  }

  /** `data.filter(...)` with the test above. */
  function ApplyFilters(data: seq<JsValue>, filters: seq<Filter>, logic: string, env: Env): (r: seq<JsValue>)
    ensures |r| <= |data|
    ensures forall x | x in r :: x in data && Keep(x, filters, logic, env)
  {
    if data == [] then []
    else (if Keep(data[0], filters, logic, env) then [data[0]] else []) + ApplyFilters(data[1..], filters, logic, env)
  }

  /** `sub` is `data` with some elements left out, the rest in their order. */
  predicate IsSubsequence<T(==)>(sub: seq<T>, data: seq<T>)
    decreases |data|
  {
    if sub == [] then true
    else if data == [] then false
    else if sub[0] == data[0] then IsSubsequence(sub[1..], data[1..])
    else IsSubsequence(sub, data[1..])
  }

  /** Filtering keeps the order of what it keeps. */
  lemma {:induction false} FilterSubsequence(data: seq<JsValue>, filters: seq<Filter>, logic: string, env: Env)
    ensures IsSubsequence(ApplyFilters(data, filters, logic, env), data)
    decreases |data|
  {
    if data != [] {
      var rest := ApplyFilters(data[1..], filters, logic, env);
      FilterSubsequence(data[1..], filters, logic, env);
      if Keep(data[0], filters, logic, env) {
        assert ([data[0]] + rest)[1..] == rest;
      } else {
        assert [] + rest == rest;
        SkipFront(rest, data);
      }
    }
  }

  /** A subsequence of the tail is a subsequence of the whole. */
  lemma {:induction false} SkipFront<T>(sub: seq<T>, data: seq<T>)
    requires data != [] && IsSubsequence(sub, data[1..])
    ensures IsSubsequence(sub, data)
    decreases |data|, 0
  {
    if sub != [] && sub[0] == data[0] {
      assert IsSubsequence(sub[1..], data[1..]) by {
        SubsequenceTail(sub, data[1..]);
      }
    }
  }

  /** Dropping the first element of a subsequence keeps it a subsequence. */
  lemma {:induction false} SubsequenceTail<T>(sub: seq<T>, data: seq<T>)
    requires sub != [] && IsSubsequence(sub, data)
    ensures IsSubsequence(sub[1..], data)
    decreases |data|, 1
  {
    if data != [] {
      if sub[0] == data[0] {
        if sub[1..] != [] {
          SkipFront(sub[1..], data);
        }
      } else {
        SubsequenceTail(sub, data[1..]);
        if sub[1..] != [] {
          SkipFront(sub[1..], data);
        }
      }
    }
  }

  /** Each record is kept as many times as it occurs, when it passes, and not at all otherwise. */
  lemma {:induction false} FilterCounts(data: seq<JsValue>, filters: seq<Filter>, logic: string, env: Env, x: JsValue)
    ensures multiset(ApplyFilters(data, filters, logic, env))[x]
      == if Keep(x, filters, logic, env) then multiset(data)[x] else 0
    decreases |data|
  {
    if data != [] {
      FilterCounts(data[1..], filters, logic, env, x);
      assert data == [data[0]] + data[1..];
    }
  }

  /** Filtering a concatenation filters each part. */
  lemma {:induction false} FilterAppend(a: seq<JsValue>, b: seq<JsValue>, filters: seq<Filter>, logic: string, env: Env)
    ensures ApplyFilters(a + b, filters, logic, env) == ApplyFilters(a, filters, logic, env) + ApplyFilters(b, filters, logic, env)
    decreases |a|
  {
    if a != [] {
      assert (a + b)[1..] == a[1..] + b;
      FilterAppend(a[1..], b, filters, logic, env);
    } else {
      assert a + b == b;
    }
  }

  /** Filtering twice with the same filters changes nothing more. */
  lemma {:induction false} FilterIdempotent(data: seq<JsValue>, filters: seq<Filter>, logic: string, env: Env)
    ensures ApplyFilters(ApplyFilters(data, filters, logic, env), filters, logic, env) == ApplyFilters(data, filters, logic, env)
    decreases |data|
  {
    if data != [] {
      var head := if Keep(data[0], filters, logic, env) then [data[0]] else [];
      FilterAppend(head, ApplyFilters(data[1..], filters, logic, env), filters, logic, env);
      FilterIdempotent(data[1..], filters, logic, env);
      if head != [] {
        assert ApplyFilters(head, filters, logic, env) == head by {
          assert head[1..] == [];
        }
      }
    }
  }

  /** With a single filter AND and OR agree; with none, AND keeps everything and OR nothing. */
  lemma LogicCornerCases(item: JsValue, f: Filter, env: Env)
    ensures Keep(item, [f], "AND", env) == Keep(item, [f], "OR", env)
    ensures Keep(item, [], "AND", env) && !Keep(item, [], "OR", env)
  {
    assert f in [f];
  }

  /** Everything AND keeps, OR keeps too, as long as there is at least one filter. */
  lemma AndWithinOr(item: JsValue, filters: seq<Filter>, env: Env)
    requires filters != [] && Keep(item, filters, "AND", env)
    ensures Keep(item, filters, "OR", env)
  {
    assert filters[0] in filters;
  }
}
