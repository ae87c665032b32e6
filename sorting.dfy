/**
 * `applySorting`: the records reordered in place by one field, missing
 * values first, strings without regard to case, numbers by value, anything
 * else by its string form; DESC negates every comparison.
 *
 * `Array.prototype.sort` never hands `undefined` elements to the
 * comparator: it sorts the other records and puts the `undefined` ones
 * after them.
 *
 * The order is that of a stable insertion sort driven by the comparator.
 * For a comparator that is a consistent order this is the one order a
 * stable sort can produce; for mixed kinds of values the comparator is not
 * transitive and JavaScript leaves the order to the engine.
 */
module RecordSort {
  import opened Results
  import opened JsValues
  import opened Parser
  import opened QueryCompare

  /** The comparator passed to `data.sort`, on the records' values along `path`. */
  function SortCompare(a: JsValue, b: JsValue, path: seq<string>, desc: bool, env: Env): int {
    var va := FieldValue(a, path);
    var vb := FieldValue(b, path);
    var c :=
      if Nullish(va) then (if Nullish(vb) then 0 else -1)
      else if Nullish(vb) then 1
      else if va.Str? && vb.Str? then LexCompare(Lower(va.s), Lower(vb.s))
      else if va.Num? && vb.Num? then va.n - vb.n
      else LexCompare(JsString(va, env), JsString(vb, env));
    if desc then -c else c
  }

  /** `localeCompare` as modelled is antisymmetric. */
  lemma {:induction false} LexCompareFlip(a: string, b: string)
    ensures LexCompare(a, b) == -LexCompare(b, a)
    decreases |a|
  {
    if a != [] && b != [] && a[0] == b[0] {
      LexCompareFlip(a[1..], b[1..]);
    }
  }

  /** Exchanging the records negates the comparison. */
  lemma CompareFlip(a: JsValue, b: JsValue, path: seq<string>, desc: bool, env: Env)
    ensures SortCompare(a, b, path, desc, env) == -SortCompare(b, a, path, desc, env)
  {
    var va := FieldValue(a, path);
    var vb := FieldValue(b, path);
    if va.Str? && vb.Str? {
      LexCompareFlip(Lower(va.s), Lower(vb.s));
    }
    LexCompareFlip(JsString(va, env), JsString(vb, env));
  }

  /** The comparator of the sort clause, as a function value. */
  function Comparator(path: seq<string>, desc: bool, env: Env): (JsValue, JsValue) -> int {
    (a: JsValue, b: JsValue) => SortCompare(a, b, path, desc, env)
  }

  /** A comparator that negates its result when its arguments are exchanged. */
  ghost predicate Antisymmetric(cmp: (JsValue, JsValue) -> int) {
    forall a, b :: cmp(a, b) == -cmp(b, a)
  }

  /** The comparator of a sort clause is antisymmetric, whatever the values. */
  lemma ComparatorAntisymmetric(path: seq<string>, desc: bool, env: Env)
    ensures Antisymmetric(Comparator(path, desc, env))
  {
    forall a, b ensures Comparator(path, desc, env)(a, b) == -Comparator(path, desc, env)(b, a) {
      CompareFlip(a, b, path, desc, env);
    }
  }

  /** `x` inserted into `s`: it moves left past every element that compares greater than it. */
  function Insert(s: seq<JsValue>, x: JsValue, cmp: (JsValue, JsValue) -> int): (r: seq<JsValue>)
    ensures |r| == |s| + 1
  {
    if s == [] || cmp(s[|s| - 1], x) <= 0 then s + [x]
    else
      var init := s[..|s| - 1];
      assert s == init + [s[|s| - 1]];
      Insert(init, x, cmp) + [s[|s| - 1]]
  }

  /** The order the sort leaves: each record in turn inserted into the sorted records before it. */
  function SortSpec(s: seq<JsValue>, cmp: (JsValue, JsValue) -> int): (r: seq<JsValue>)
    ensures |r| == |s|
  {
    if s == [] then []
    else
      var init := s[..|s| - 1];
      assert s == init + [s[|s| - 1]];
      Insert(SortSpec(init, cmp), s[|s| - 1], cmp)
  }

  /** After the insertion the last record is `x` or the record that was last. */
  lemma {:induction false} InsertLast(s: seq<JsValue>, x: JsValue, cmp: (JsValue, JsValue) -> int)
    ensures var r := Insert(s, x, cmp); r[|r| - 1] == x || (s != [] && r[|r| - 1] == s[|s| - 1])
  {
  }

  /** Inserting adds `x` and keeps every other record. */
  lemma {:induction false} InsertPermutes(s: seq<JsValue>, x: JsValue, cmp: (JsValue, JsValue) -> int)
    ensures multiset(Insert(s, x, cmp)) == multiset(s) + multiset{x}
    decreases |s|
  {
    if s != [] && cmp(s[|s| - 1], x) > 0 {
      var init := s[..|s| - 1];
      assert s == init + [s[|s| - 1]];
      InsertPermutes(init, x, cmp);
    }
  }

  /** Sorting neither loses nor duplicates a record. */
  lemma {:induction false} SortPermutes(s: seq<JsValue>, cmp: (JsValue, JsValue) -> int)
    ensures multiset(SortSpec(s, cmp)) == multiset(s)
    decreases |s|
  {
    if s != [] {
      var init := s[..|s| - 1];
      assert s == init + [s[|s| - 1]];
      SortPermutes(init, cmp);
      InsertPermutes(SortSpec(init, cmp), s[|s| - 1], cmp);
    }
  }

  /** No record compares greater than the one after it. */
  predicate AdjacentSorted(s: seq<JsValue>, cmp: (JsValue, JsValue) -> int) {
    forall i | 0 <= i < |s| - 1 :: cmp(s[i], s[i + 1]) <= 0
  }

  lemma {:induction false} InsertSorted(s: seq<JsValue>, x: JsValue, cmp: (JsValue, JsValue) -> int)
    requires Antisymmetric(cmp) && AdjacentSorted(s, cmp)
    ensures AdjacentSorted(Insert(s, x, cmp), cmp)
    decreases |s|
  {
    if s == [] || cmp(s[|s| - 1], x) <= 0 {
    } else {
      var init := s[..|s| - 1];
      var last := s[|s| - 1];
      assert AdjacentSorted(init, cmp);
      InsertSorted(init, x, cmp);
      InsertLast(init, x, cmp);
      var r' := Insert(init, x, cmp);
      assert cmp(x, last) == -cmp(last, x);
      assert cmp(r'[|r'| - 1], last) <= 0;
      var r := r' + [last];
      forall i | 0 <= i < |r| - 1 ensures cmp(r[i], r[i + 1]) <= 0 {
        if i < |r'| - 1 {
          assert r[i] == r'[i] && r[i + 1] == r'[i + 1];
        }
      }
    }
  }

  /** The sorted order has no pair of neighbours out of order. */
  lemma {:induction false} SortSpecSorted(s: seq<JsValue>, cmp: (JsValue, JsValue) -> int)
    requires Antisymmetric(cmp)
    ensures AdjacentSorted(SortSpec(s, cmp), cmp)
    decreases |s|
  {
    if s != [] {
      SortSpecSorted(s[..|s| - 1], cmp);
      InsertSorted(SortSpec(s[..|s| - 1], cmp), s[|s| - 1], cmp);
    }
  }

  /** Dropping the first record keeps the neighbours in order. */
  lemma SortedTail(r: seq<JsValue>, cmp: (JsValue, JsValue) -> int)
    requires r != [] && AdjacentSorted(r, cmp)
    ensures AdjacentSorted(r[1..], cmp)
  {
    var tail := r[1..];
    forall i | 0 <= i < |tail| - 1 ensures cmp(tail[i], tail[i + 1]) <= 0 {
      assert tail[i] == r[i + 1] && tail[i + 1] == r[i + 2];
    }
  }

  /** Two numbers the ASC comparator accepts in this order are in ascending order. */
  lemma NumbersInOrder(a: JsValue, b: JsValue, path: seq<string>, env: Env)
    requires FieldValue(a, path).Num? && FieldValue(b, path).Num?
    requires Comparator(path, false, env)(a, b) <= 0
    ensures FieldValue(a, path).n <= FieldValue(b, path).n
  {
  }

  /** In a sequence without neighbours out of order, missing and present values are never interleaved the wrong way. */
  lemma {:induction false} MissingStaysBefore(r: seq<JsValue>, path: seq<string>, desc: bool, env: Env)
    requires AdjacentSorted(r, Comparator(path, desc, env))
    ensures !desc ==> forall i, j | 0 <= i < j < |r| && Nullish(FieldValue(r[j], path)) :: Nullish(FieldValue(r[i], path))
    ensures desc ==> forall i, j | 0 <= i < j < |r| && Nullish(FieldValue(r[i], path)) :: Nullish(FieldValue(r[j], path))
    decreases |r|
  {
    var cmp := Comparator(path, desc, env);
    if r != [] {
      var tail := r[1..];
      SortedTail(r, cmp);
      MissingStaysBefore(tail, path, desc, env);
      forall i, j | 0 <= i < j < |r|
        ensures !desc && Nullish(FieldValue(r[j], path)) ==> Nullish(FieldValue(r[i], path))
        ensures desc && Nullish(FieldValue(r[i], path)) ==> Nullish(FieldValue(r[j], path))
      {
        assert SortCompare(r[0], r[1], path, desc, env) <= 0 by {
          assert cmp(r[0], r[1]) <= 0;
        }
        if i > 0 {
          assert r[i] == tail[i - 1] && r[j] == tail[j - 1];
        } else if j > 1 {
          assert r[j] == tail[j - 1] && r[1] == tail[0];
        }
      }
    }
  }

  /** Where every record's value is a number, ASC orders them by value. */
  lemma {:induction false} NumbersAscending(r: seq<JsValue>, path: seq<string>, env: Env)
    requires AdjacentSorted(r, Comparator(path, false, env))
    requires forall x | x in r :: FieldValue(x, path).Num?
    ensures forall i, j | 0 <= i < j < |r| :: FieldValue(r[i], path).n <= FieldValue(r[j], path).n
    decreases |r|
  {
    var cmp := Comparator(path, false, env);
    if r != [] {
      var tail := r[1..];
      assert forall x | x in tail :: x in r;
      SortedTail(r, cmp);
      NumbersAscending(tail, path, env);
      if |r| > 1 {
        assert r[0] in r && r[1] in r;
        assert cmp(r[0], r[1]) <= 0;
        NumbersInOrder(r[0], r[1], path, env);
        forall i, j | 0 <= i < j < |r| ensures FieldValue(r[i], path).n <= FieldValue(r[j], path).n {
          if i > 0 {
            assert r[i] == tail[i - 1] && r[j] == tail[j - 1];
          } else if j > 1 {
            assert r[j] == tail[j - 1] && r[1] == tail[0];
          }
        }
      }
    }
  }

  // ---------------------------------------------------------------------
  // The sort in place

  /**
   * `x` lands right after `p` when the last element of `p` does not compare
   * greater than it and every element of `t` does.
   */
  lemma {:induction false} InsertSplit(p: seq<JsValue>, t: seq<JsValue>, x: JsValue, cmp: (JsValue, JsValue) -> int)
    requires p == [] || cmp(p[|p| - 1], x) <= 0
    requires forall k | 0 <= k < |t| :: cmp(t[k], x) > 0
    ensures Insert(p + t, x, cmp) == p + [x] + t
    decreases |t|
  {
    if t == [] {
      assert p + t == p;
    } else {
      var t' := t[..|t| - 1];
      var last := t[|t| - 1];
      assert (p + t)[..|p + t| - 1] == p + t' && (p + t)[|p + t| - 1] == last;
      assert cmp(last, x) > 0;
      InsertSplit(p, t', x, cmp);
      assert p + [x] + t' + [last] == p + [x] + t;
    }
  }

  /** Exchanging `x` with the element before it moves the split point one to the left. */
  lemma SwapLeft(p: seq<JsValue>, x: JsValue, rest: seq<JsValue>, j: int, q: seq<JsValue>)
    requires 0 < j <= |p| && q == p[..j] + [x] + p[j..] + rest
    ensures q[j - 1] == p[j - 1] && q[j] == x
    ensures q[j := p[j - 1]][j - 1 := x] == p[..j - 1] + [x] + p[j - 1..] + rest
  {
    var r := q[j := p[j - 1]][j - 1 := x];
    var t := p[..j - 1] + [x] + p[j - 1..] + rest;
    assert |r| == |t|;
    forall k | 0 <= k < |r| ensures r[k] == t[k] {
      if k < j - 1 {
      } else if k == j - 1 {
      } else if k == j {
      } else if k <= |p| {
        assert r[k] == p[k - 1];
      }
    }
  }

  /** A sequence cut around position `i`, in the shape the insertion loop starts from. */
  lemma SplitAt(q: seq<JsValue>, i: int)
    requires 0 <= i < |q|
    ensures q == q[..i][..i] + [q[i]] + q[..i][i..] + q[i + 1..]
  {
    assert q[..i][..i] == q[..i] && q[..i][i..] == [];
    assert q == q[..i] + [q[i]] + q[i + 1..];
  }

  /** Once the element before `x` does not compare greater, the records before `rest` are the insertion. */
  lemma Settled(q: seq<JsValue>, sorted: seq<JsValue>, x: JsValue, rest: seq<JsValue>, j: int, cmp: (JsValue, JsValue) -> int)
    requires 0 <= j <= |sorted| && q == sorted[..j] + [x] + sorted[j..] + rest
    requires j == 0 || cmp(q[j - 1], q[j]) <= 0
    requires forall k | j <= k < |sorted| :: cmp(sorted[k], x) > 0
    ensures q[..|sorted| + 1] == Insert(sorted, x, cmp) && q[|sorted| + 1..] == rest
  {
    var p, t := sorted[..j], sorted[j..];
    assert j > 0 ==> q[j - 1] == p[|p| - 1] && q[j] == x;
    assert forall k | 0 <= k < |t| :: t[k] == sorted[j + k];
    InsertSplit(p, t, x, cmp);
    assert sorted == p + t;
    assert q[..|sorted| + 1] == p + [x] + t;
  }

  /** Moves `a[i]` left past every record before it that compares greater. */
  method InsertAt(a: array<JsValue>, i: int, cmp: (JsValue, JsValue) -> int)
    requires 0 <= i < a.Length
    modifies a
    ensures a[..i + 1] == Insert(old(a[..i]), old(a[i]), cmp)
    ensures a[i + 1..] == old(a[i + 1..])
  {
    ghost var sorted := a[..i];
    ghost var rest := a[i + 1..];
    var x := a[i];
    var j := i;
    SplitAt(a[..], i);
    while j > 0 && cmp(a[j - 1], a[j]) > 0
      invariant 0 <= j <= i
      invariant a[..] == sorted[..j] + [x] + sorted[j..] + rest
      invariant forall k | j <= k < i :: cmp(sorted[k], x) > 0
    {
      ghost var q := a[..];
      SwapLeft(sorted, x, rest, j, q);
      a[j] := a[j - 1];
      a[j - 1] := x;
      assert a[..] == q[j := sorted[j - 1]][j - 1 := x];
      j := j - 1;
    }
    Settled(a[..], sorted, x, rest, j, cmp);
  }

  /** The comparator sorts the first `n` records of `a` in place, by insertion, moving each left past greater ones. */
  method SortRecords(a: array<JsValue>, n: int, cmp: (JsValue, JsValue) -> int)
    requires 0 <= n <= a.Length
    modifies a
    ensures a[..n] == SortSpec(old(a[..n]), cmp)
    ensures a[n..] == old(a[n..])
  {
    ghost var original := a[..];
    var i := 0;
    while i < n
      invariant 0 <= i <= n
      invariant a[..i] == SortSpec(original[..i], cmp)
      invariant a[i..] == original[i..]
    {
      assert original[..i + 1][..i] == original[..i];
      InsertAt(a, i, cmp);
      i := i + 1;
    }
    assert a[n..] == a[i..][n - i..] && original[n..] == original[i..][n - i..];
  }

  // ---------------------------------------------------------------------
  // Undefined elements

  /** The records that are not `undefined`, in their order: the ones the comparator sees. */
  function DefinedRecords(s: seq<JsValue>): (r: seq<JsValue>)
    ensures |r| <= |s|
    ensures forall k | 0 <= k < |r| :: !r[k].Undefined?
  {
    if s == [] then []
    else
      var init := s[..|s| - 1];
      DefinedRecords(init) + (if s[|s| - 1].Undefined? then [] else [s[|s| - 1]])
  }

  /** The `undefined` records, which the sort moves to the end. */
  function UndefinedRecords(s: seq<JsValue>): (r: seq<JsValue>)
    ensures |DefinedRecords(s)| + |r| == |s|
    ensures forall k | 0 <= k < |r| :: r[k] == Undefined
  {
    if s == [] then []
    else
      var init := s[..|s| - 1];
      UndefinedRecords(init) + (if s[|s| - 1].Undefined? then [Undefined] else [])
  }

  /** Between them the two parts hold every record exactly once. */
  lemma {:induction false} PartitionPermutes(s: seq<JsValue>)
    ensures multiset(DefinedRecords(s)) + multiset(UndefinedRecords(s)) == multiset(s)
    decreases |s|
  {
    if s != [] {
      var init := s[..|s| - 1];
      PartitionPermutes(init);
      assert s == init + [s[|s| - 1]];
    }
  }

  /** A permutation of records none of which is `undefined` has none either. */
  lemma NoneUndefined(r: seq<JsValue>, s: seq<JsValue>)
    requires multiset(r) == multiset(s)
    requires forall k | 0 <= k < |s| :: !s[k].Undefined?
    ensures forall k | 0 <= k < |r| :: !r[k].Undefined?
  {
    forall k | 0 <= k < |r| ensures !r[k].Undefined? {
      assert r[k] in multiset(r);
      var m :| 0 <= m < |s| && s[m] == r[k];
    }
  }

  /**
   * Moves every `undefined` record to the end of `a`, keeping the others in
   * their order in front of them.
   */
  method MoveUndefinedLast(a: array<JsValue>) returns (n: int)
    modifies a
    ensures 0 <= n <= a.Length
    ensures a[..n] == DefinedRecords(old(a[..]))
    ensures a[n..] == UndefinedRecords(old(a[..]))
  {
    ghost var original := a[..];
    var i, w := 0, 0;
    while i < a.Length
      invariant 0 <= w <= i <= a.Length
      invariant a[..w] == DefinedRecords(original[..i])
      invariant a[i..] == original[i..]
    {
      assert original[..i + 1][..i] == original[..i];
      assert a[i] == original[i];
      if !a[i].Undefined? {
        a[w] := a[i];
        w := w + 1;
      }
      i := i + 1;
    }
    assert original[..i] == original;
    var k := w;
    while k < a.Length
      invariant w <= k <= a.Length
      invariant a[..w] == DefinedRecords(original)
      invariant forall t | w <= t < k :: a[t] == Undefined
    {
      a[k] := Undefined;
      k := k + 1;
    }
    n := w;
  }

  /**
   * What `applySorting` leaves: the records that are not `undefined` in
   * sorted order followed by the `undefined` ones, or the error `field.split`
   * throws when the comparator runs, which it only does on at least two
   * records that are not `undefined`.
   */
  function SortOutcome(data: seq<JsValue>, orderBy: OrderBy, env: Env): (r: Result<seq<JsValue>>)
    ensures r.Ok? ==> |r.value| == |data| && multiset(r.value) == multiset(data)
    ensures r.Err? <==> |DefinedRecords(data)| >= 2 && !orderBy.field.Str?
    ensures r.Ok? ==> forall k | 0 <= k < |DefinedRecords(data)| :: !r.value[k].Undefined?
    ensures r.Ok? ==> forall k | |DefinedRecords(data)| <= k < |data| :: r.value[k] == Undefined
  {
    var defined := DefinedRecords(data);
    PartitionPermutes(data);
    if |defined| < 2 then Ok(defined + UndefinedRecords(data))
    else
      match FieldPath(orderBy.field)
      case Err(e) => Err(e)
      case Ok(path) =>
        var cmp := Comparator(path, orderBy.direction == "DESC", env);
        SortPermutes(defined, cmp);
        NoneUndefined(SortSpec(defined, cmp), defined);
        Ok(SortSpec(defined, cmp) + UndefinedRecords(data))
  }

  /** `applySorting(data, orderBy)`, which sorts the array it is given. */
  method ApplySorting(a: array<JsValue>, orderBy: OrderBy, env: Env) returns (r: Result<seq<JsValue>>)
    modifies a
    ensures r == SortOutcome(old(a[..]), orderBy, env)
    ensures r.Ok? ==> a[..] == r.value
    ensures r.Err? ==> a[..] == old(a[..])
  {
    var path := FieldPath(orderBy.field);
    if path.Err? && |DefinedRecords(a[..])| >= 2 {
      return Err(path.error);
    }
    ghost var original := a[..];
    var n := MoveUndefinedLast(a);
    if n >= 2 {
      SortRecords(a, n, Comparator(path.value, orderBy.direction == "DESC", env));
    }
    assert a[..] == a[..n] + a[n..];
    return Ok(a[..]);
  }

  // ---------------------------------------------------------------------
  // The order of the result

  /** The sorted records are the records that are not `undefined`, in comparator order, then the `undefined` ones. */
  lemma SortedParts(data: seq<JsValue>, field: string, desc: bool, env: Env)
    ensures var r := SortOutcome(data, OrderBy(Str(field), if desc then "DESC" else "ASC"), env);
      var n := |DefinedRecords(data)|;
      && r.Ok?
      && r.value[..n] == SortSpec(DefinedRecords(data), Comparator(SplitOn(field, "."), desc, env))
      && AdjacentSorted(r.value[..n], Comparator(SplitOn(field, "."), desc, env))
  {
    var cmp := Comparator(SplitOn(field, "."), desc, env);
    var defined := DefinedRecords(data);
    ComparatorAntisymmetric(SplitOn(field, "."), desc, env);
    SortSpecSorted(defined, cmp);
    if |defined| < 2 {
      assert SortSpec(defined, cmp) == defined by {
        if |defined| == 1 {
          assert defined[..0] == [];
        }
      }
    }
  }

  /**
   * Under ASC every record missing the field comes before every record that
   * has it, and the `undefined` records come after all of them.
   */
  lemma MissingFirstAscending(data: seq<JsValue>, field: string, env: Env)
    ensures var r := SortOutcome(data, OrderBy(Str(field), "ASC"), env);
      var n := |DefinedRecords(data)|;
      && r.Ok?
      && (forall i, j | 0 <= i < j < n && Nullish(FieldValue(r.value[j], SplitOn(field, "."))) :: Nullish(FieldValue(r.value[i], SplitOn(field, "."))))
      && (forall k | n <= k < |r.value| :: r.value[k] == Undefined)
  {
    var r := SortOutcome(data, OrderBy(Str(field), "ASC"), env).value;
    var n := |DefinedRecords(data)|;
    SortedParts(data, field, false, env);
    MissingStaysBefore(r[..n], SplitOn(field, "."), false, env);
  }

  /**
   * Under DESC every record missing the field comes after every record that
   * has it, and the `undefined` records come after all of them.
   */
  lemma MissingLastDescending(data: seq<JsValue>, field: string, env: Env)
    ensures var r := SortOutcome(data, OrderBy(Str(field), "DESC"), env);
      var n := |DefinedRecords(data)|;
      && r.Ok?
      && (forall i, j | 0 <= i < j < n && Nullish(FieldValue(r.value[i], SplitOn(field, "."))) :: Nullish(FieldValue(r.value[j], SplitOn(field, "."))))
      && (forall k | n <= k < |r.value| :: r.value[k] == Undefined)
  {
    var r := SortOutcome(data, OrderBy(Str(field), "DESC"), env).value;
    var n := |DefinedRecords(data)|;
    SortedParts(data, field, true, env);
    MissingStaysBefore(r[..n], SplitOn(field, "."), true, env);
  }

  /** With fewer than two records that are not `undefined` the comparator never runs. */
  lemma FewDefined(data: seq<JsValue>, orderBy: OrderBy, env: Env)
    requires |DefinedRecords(data)| < 2
    ensures SortOutcome(data, orderBy, env) == Ok(DefinedRecords(data) + UndefinedRecords(data))
  {
  }

  /** An `undefined` record goes after the records that are not `undefined`. */
  lemma UndefinedSortsLast(env: Env)
    ensures SortOutcome([Undefined, Obj(map["x" := Num(1)])], OrderBy(Str("x"), "ASC"), env)
      == Ok([Obj(map["x" := Num(1)]), Undefined])
  {
    var x := Obj(map["x" := Num(1)]);
    var one: seq<JsValue> := [Undefined];
    assert one[..0] == [];
    assert DefinedRecords(one) == [] && UndefinedRecords(one) == [Undefined];
    var d := [Undefined, x];
    assert d[..1] == one;
    assert DefinedRecords(d) == [x] && UndefinedRecords(d) == [Undefined];
    FewDefined(d, OrderBy(Str("x"), "ASC"), env);
    assert [x] + [Undefined] == [x, Undefined];
  }

  /** `undefined` records never reach the comparator, so a field that is not a string cannot make it throw. */
  lemma UndefinedNeverCompared(env: Env)
    ensures SortOutcome([Undefined, Undefined], OrderBy(Null, "ASC"), env) == Ok([Undefined, Undefined])
  {
    var one: seq<JsValue> := [Undefined];
    assert one[..0] == [];
    assert DefinedRecords(one) == [] && UndefinedRecords(one) == [Undefined];
    var u := [Undefined, Undefined];
    assert u[..1] == one;
    assert DefinedRecords(u) == [] && UndefinedRecords(u) == [Undefined, Undefined];
    FewDefined(u, OrderBy(Null, "ASC"), env);
    assert [] + u == u;
  }
}
