/**
 * `applyGrouping`: the records collected into one bucket per distinct string
 * form of their grouping value, falsy values under "undefined", then each
 * bucket turned into `{ groupValue, count, items }` in the order
 * `Object.entries` lists the keys of a plain object: keys that are array
 * indices first, in ascending numeric order, then the rest in the order they
 * were first added.
 */
module RecordGroups {
  import opened Results
  import opened JsValues
  import opened QueryCompare

  // ---------------------------------------------------------------------
  // Keys and buckets

  /** `String(getFieldValue(item, field) || 'undefined')` */
  function GroupKey(item: JsValue, path: seq<string>, env: Env): string {
    var v := FieldValue(item, path);
    JsString(if Truthy(v) then v else Str("undefined"), env)
  }

  /** The distinct keys of the records, in the order each first occurs. */
  function KeysSeen(data: seq<JsValue>, path: seq<string>, env: Env): seq<string>
    decreases |data|
  {
    if data == [] then []
    else
      var keys := KeysSeen(data[..|data| - 1], path, env);
      var k := GroupKey(data[|data| - 1], path, env);
      if k in keys then keys else keys + [k]
  }

  /** The object `grouped` after the records are pushed one by one, as a map from key to bucket. */
  function BucketMap(data: seq<JsValue>, path: seq<string>, env: Env): map<string, seq<JsValue>>
    decreases |data|
  {
    if data == [] then map[]
    else
      var m := BucketMap(data[..|data| - 1], path, env);
      var x := data[|data| - 1];
      var k := GroupKey(x, path, env);
      m[k := (if k in m then m[k] else []) + [x]]
  }

  /** The records whose key is `k`, in their order: the reference for one bucket. */
  function Bucket(data: seq<JsValue>, k: string, path: seq<string>, env: Env): seq<JsValue>
    decreases |data|
  {
    if data == [] then []
    else
      var rest := Bucket(data[..|data| - 1], k, path, env);
      if GroupKey(data[|data| - 1], path, env) == k then rest + [data[|data| - 1]] else rest
  }

  /** The key of a record occurs among the keys of any records that include it. */
  predicate HasKey(data: seq<JsValue>, k: string, path: seq<string>, env: Env) {
    exists x | x in data :: GroupKey(x, path, env) == k
  }

  /** No element occurs twice. */
  predicate Distinct(keys: seq<string>) {
    forall i, j | 0 <= i < j < |keys| :: keys[i] != keys[j]
  }

  /** The keys seen are exactly the keys of the records, each once. */
  lemma {:induction false} KeysSeenExact(data: seq<JsValue>, path: seq<string>, env: Env)
    ensures forall k :: k in KeysSeen(data, path, env) <==> HasKey(data, k, path, env)
    ensures Distinct(KeysSeen(data, path, env))
    decreases |data|
  {
    if data != [] {
      var init := data[..|data| - 1];
      var x := data[|data| - 1];
      assert data == init + [x];
      KeysSeenExact(init, path, env);
      var keys := KeysSeen(init, path, env);
      var k0 := GroupKey(x, path, env);
      if k0 !in keys {
        var keys' := keys + [k0];
        forall i, j | 0 <= i < j < |keys'| ensures keys'[i] != keys'[j] {
          assert keys'[i] == keys[i] && keys[i] in keys;
          if j < |keys| {
            assert keys'[j] == keys[j];
          } else {
            assert keys'[j] == k0;
          }
        }
        assert KeysSeen(data, path, env) == keys';
      }
      forall k ensures k in KeysSeen(data, path, env) <==> HasKey(data, k, path, env) {
        if HasKey(data, k, path, env) {
          var y :| y in data && GroupKey(y, path, env) == k;
          if y != x {
            assert y in init;
          }
        }
        if HasKey(init, k, path, env) {
          var y :| y in init && GroupKey(y, path, env) == k;
          assert y in data;
        }
      }
    }
  }

  /** The map built record by record holds, for each key seen, exactly that key's bucket. */
  lemma {:induction false} BucketMapMatches(data: seq<JsValue>, path: seq<string>, env: Env)
    ensures forall k :: k in BucketMap(data, path, env) <==> k in KeysSeen(data, path, env)
    ensures forall k | k in BucketMap(data, path, env) :: BucketMap(data, path, env)[k] == Bucket(data, k, path, env)
    decreases |data|
  {
    if data != [] {
      var init := data[..|data| - 1];
      BucketMapMatches(init, path, env);
      var k0 := GroupKey(data[|data| - 1], path, env);
      forall k | k !in BucketMap(init, path, env) ensures Bucket(init, k, path, env) == [] {
        EmptyBucket(init, k, path, env);
      }
      assert k0 !in BucketMap(init, path, env) ==> Bucket(init, k0, path, env) == [];
    }
  }

  /** A key no record has has an empty bucket. */
  lemma {:induction false} EmptyBucket(data: seq<JsValue>, k: string, path: seq<string>, env: Env)
    requires k !in KeysSeen(data, path, env)
    ensures Bucket(data, k, path, env) == []
    decreases |data|
  {
    if data != [] {
      EmptyBucket(data[..|data| - 1], k, path, env);
    }
  }

  /**
   * A bucket holds every record with its key as often as the record occurs,
   * and nothing else.
   */
  lemma {:induction false} BucketContents(data: seq<JsValue>, k: string, path: seq<string>, env: Env, x: JsValue)
    ensures multiset(Bucket(data, k, path, env))[x] == if GroupKey(x, path, env) == k then multiset(data)[x] else 0
    decreases |data|
  {
    if data != [] {
      var init := data[..|data| - 1];
      assert data == init + [data[|data| - 1]];
      BucketContents(init, k, path, env, x);
    }
  }

  /** Records whose grouping value is missing or falsy share the bucket of the string "undefined". */
  lemma FalsyShareGroup(a: JsValue, b: JsValue, path: seq<string>, env: Env)
    requires !Truthy(FieldValue(a, path))
    requires FieldValue(b, path) == Str("undefined") || !Truthy(FieldValue(b, path))
    ensures GroupKey(a, path, env) == GroupKey(b, path, env) == "undefined"
  {
  }

  // ---------------------------------------------------------------------
  // Object.entries order

  /** The keys that are array indices, in the order given. */
  function IndexKeys(keys: seq<string>): (r: seq<string>)
    ensures forall k | k in r :: IsArrayIndex(k)
  {
    if keys == [] then []
    else (if IsArrayIndex(keys[0]) then [keys[0]] else []) + IndexKeys(keys[1..])
  }

  /** The keys that are not array indices, in the order given. */
  function NamedKeys(keys: seq<string>): (r: seq<string>)
    ensures forall k | k in r :: !IsArrayIndex(k)
  {
    if keys == [] then []
    else (if IsArrayIndex(keys[0]) then [] else [keys[0]]) + NamedKeys(keys[1..])
  }

  /** The numeric value of an index key (0 for any other key, which is never sorted). */
  function IndexValue(k: string): nat {
    if IsArrayIndex(k) then ArrayIndexValue(k) else 0
  }

  /** Keys in ascending numeric order. */
  predicate IndexAscending(keys: seq<string>) {
    forall i | 0 <= i < |keys| - 1 :: IndexValue(keys[i]) <= IndexValue(keys[i + 1])
  }

  /** A key placed before the first key with a value at least its own. */
  function InsertIndex(sorted: seq<string>, k: string): (r: seq<string>)
    ensures |r| == |sorted| + 1
    ensures multiset(r) == multiset(sorted) + multiset{k}
  {
    if sorted == [] || IndexValue(k) <= IndexValue(sorted[0]) then [k] + sorted
    else
      assert sorted == [sorted[0]] + sorted[1..];
      [sorted[0]] + InsertIndex(sorted[1..], k)
  }

  /** Insertion keeps ascending keys ascending. */
  lemma {:induction false} InsertIndexAscending(sorted: seq<string>, k: string)
    requires IndexAscending(sorted)
    ensures IndexAscending(InsertIndex(sorted, k))
    ensures var r := InsertIndex(sorted, k); r[0] == k || r[0] == sorted[0]
    decreases |sorted|
  {
    if sorted != [] && IndexValue(k) > IndexValue(sorted[0]) {
      var tail := sorted[1..];
      assert IndexAscending(tail) by {
        forall i | 0 <= i < |tail| - 1 ensures IndexValue(tail[i]) <= IndexValue(tail[i + 1]) {
          assert tail[i] == sorted[i + 1] && tail[i + 1] == sorted[i + 2];
        }
      }
      InsertIndexAscending(tail, k);
      var rest := InsertIndex(tail, k);
      var r := [sorted[0]] + rest;
      forall i | 0 <= i < |r| - 1 ensures IndexValue(r[i]) <= IndexValue(r[i + 1]) {
        if i > 0 {
          assert r[i] == rest[i - 1] && r[i + 1] == rest[i];
        } else if tail != [] {
          assert r[1] == rest[0];
        }
      }
    }
  }

  /** The keys sorted into ascending numeric order, by insertion. */
  function SortIndices(keys: seq<string>): (r: seq<string>)
    ensures |r| == |keys|
    ensures multiset(r) == multiset(keys)
  {
    if keys == [] then []
    else
      assert keys == [keys[0]] + keys[1..];
      InsertIndex(SortIndices(keys[1..]), keys[0])
  }

  /** The sorted keys are ascending. */
  lemma {:induction false} SortIndicesAscending(keys: seq<string>)
    ensures IndexAscending(SortIndices(keys))
    decreases |keys|
  {
    if keys != [] {
      SortIndicesAscending(keys[1..]);
      InsertIndexAscending(SortIndices(keys[1..]), keys[0]);
    }
  }

  /** The order `Object.entries` lists the keys of a plain object added in the order `keys`. */
  function EntryOrder(keys: seq<string>): seq<string> {
    SortIndices(IndexKeys(keys)) + NamedKeys(keys)
  }

  /** The keys split into index keys and named keys, nothing lost and nothing added. */
  lemma {:induction false} KeysPartition(keys: seq<string>)
    ensures multiset(IndexKeys(keys)) + multiset(NamedKeys(keys)) == multiset(keys)
  {
    if keys != [] {
      KeysPartition(keys[1..]);
      assert keys == [keys[0]] + keys[1..];
    }
  }

  /** Named keys keep the order in which they were added. */
  lemma {:induction false} NamedKeysInOrder(keys: seq<string>, i: int, j: int)
    requires 0 <= i < j < |keys| && !IsArrayIndex(keys[i]) && !IsArrayIndex(keys[j])
    ensures exists a, b | 0 <= a < b < |NamedKeys(keys)| :: NamedKeys(keys)[a] == keys[i] && NamedKeys(keys)[b] == keys[j]
    decreases |keys|
  {
    var rest := NamedKeys(keys[1..]);
    if i == 0 {
      assert keys[j] == keys[1..][j - 1];
      NamedIn(keys[1..], j - 1);
      var b :| 0 <= b < |rest| && rest[b] == keys[j];
      assert NamedKeys(keys) == [keys[0]] + rest;
      assert NamedKeys(keys)[0] == keys[i] && NamedKeys(keys)[b + 1] == keys[j];
    } else {
      NamedKeysInOrder(keys[1..], i - 1, j - 1);
      var a, b :| 0 <= a < b < |rest| && rest[a] == keys[i] && rest[b] == keys[j];
      var head := if IsArrayIndex(keys[0]) then [] else [keys[0]];
      assert NamedKeys(keys) == head + rest;
      assert NamedKeys(keys)[|head| + a] == keys[i] && NamedKeys(keys)[|head| + b] == keys[j];
    }
  }

  /** A named key is among the named keys. */
  lemma {:induction false} NamedIn(keys: seq<string>, j: int)
    requires 0 <= j < |keys| && !IsArrayIndex(keys[j])
    ensures exists b | 0 <= b < |NamedKeys(keys)| :: NamedKeys(keys)[b] == keys[j]
    decreases |keys|
  {
    var head := if IsArrayIndex(keys[0]) then [] else [keys[0]];
    assert NamedKeys(keys) == head + NamedKeys(keys[1..]);
    if j == 0 {
      assert NamedKeys(keys)[0] == keys[0];
    } else {
      NamedIn(keys[1..], j - 1);
      var b :| 0 <= b < |NamedKeys(keys[1..])| && NamedKeys(keys[1..])[b] == keys[j];
      assert NamedKeys(keys)[|head| + b] == keys[j];
    }
  }

  /** The entry order lists every key, each as often as before. */
  lemma EntryOrderPermutes(keys: seq<string>)
    ensures multiset(EntryOrder(keys)) == multiset(keys)
    ensures forall k | k in EntryOrder(keys) :: k in keys
  {
    KeysPartition(keys);
    assert forall k | k in EntryOrder(keys) :: k in multiset(keys);
  }

  /**
   * The entry order puts the index keys first, in ascending numeric order,
   * then the other keys in the order they were added.
   */
  lemma EntryOrderShape(keys: seq<string>)
    ensures var order := EntryOrder(keys); var n := |IndexKeys(keys)|;
      && n <= |order|
      && (forall k | k in order[..n] :: IsArrayIndex(k))
      && IndexAscending(order[..n])
      && order[n..] == NamedKeys(keys)
  {
    SortIndicesAscending(IndexKeys(keys));
    var sorted := SortIndices(IndexKeys(keys));
    var order := EntryOrder(keys);
    assert order[..|sorted|] == sorted && order[|sorted|..] == NamedKeys(keys);
    assert forall k | k in sorted :: k in multiset(IndexKeys(keys));
  }

  // ---------------------------------------------------------------------
  // The result

  /** `{ groupValue: key, count: items.length, items }` */
  function GroupObject(key: string, items: seq<JsValue>): JsValue {
    Obj(map["groupValue" := Str(key), "count" := Num(|items|), "items" := Arr(items)])
  }

  /** One group object per key, from the buckets in `m`. */
  function Entries(keys: seq<string>, m: map<string, seq<JsValue>>): (r: seq<JsValue>)
    requires forall k | k in keys :: k in m
    ensures |r| == |keys|
    ensures forall i | 0 <= i < |keys| :: r[i] == GroupObject(keys[i], m[keys[i]])
  {
    if keys == [] then [] else [GroupObject(keys[0], m[keys[0]])] + Entries(keys[1..], m)
  }

  /** The number of records in the buckets of `keys`. */
  function TotalCount(keys: seq<string>, m: map<string, seq<JsValue>>): nat
    requires forall k | k in keys :: k in m
  {
    if keys == [] then 0 else |m[keys[0]]| + TotalCount(keys[1..], m)
  }

  /** The grouping of non-empty data: the entries of the buckets, in entry order. */
  function Grouped(data: seq<JsValue>, path: seq<string>, env: Env): seq<JsValue> {
    var keys := KeysSeen(data, path, env);
    var m := BucketMap(data, path, env);
    BucketMapMatches(data, path, env);
    EntryOrderPermutes(keys);
    Entries(EntryOrder(keys), m)
  }

  /**
   * What `applyGrouping` returns: no records give no groups, without the field
   * ever being split; otherwise the error `field.split` throws, or the groups.
   */
  function GroupOutcome(data: seq<JsValue>, groupBy: JsValue, env: Env): (r: Result<seq<JsValue>>)
    ensures r.Err? <==> data != [] && !groupBy.Str?
  {
    if data == [] then Ok([])
    else
      match FieldPath(groupBy)
      case Err(e) => Err(e)
      case Ok(path) => Ok(Grouped(data, path, env))
  }

  /** `applyGrouping(data, groupByField)`: the records pushed into their buckets one by one. */
  method ApplyGrouping(data: seq<JsValue>, groupBy: JsValue, env: Env) returns (r: Result<seq<JsValue>>)
    ensures r == GroupOutcome(data, groupBy, env)
  {
    if data == [] {
      return Ok([]);
    }
    var fieldPath := FieldPath(groupBy);
    if fieldPath.Err? {
      return Err(fieldPath.error);
    }
    ghost var path := fieldPath.value;
    var grouped: map<string, seq<JsValue>> := map[];
    var order: seq<string> := [];
    var i := 0;
    while i < |data|
      invariant 0 <= i <= |data|
      invariant order == KeysSeen(data[..i], path, env)
      invariant grouped == BucketMap(data[..i], path, env)
    {
      var item := data[i];
      var value := GetFieldValue(item, groupBy.s);
      var groupKey := JsString(if Truthy(value) then value else Str("undefined"), env);
      assert groupKey == GroupKey(item, path, env);
      assert data[..i + 1][..i] == data[..i] && data[..i + 1][i] == item;
      BucketMapMatches(data[..i], path, env);
      if groupKey !in grouped {
        grouped := grouped[groupKey := []];
        order := order + [groupKey];
      }
      grouped := grouped[groupKey := grouped[groupKey] + [item]];
      i := i + 1;
    }
    assert data[..i] == data;
    EntryOrderPermutes(order);
    BucketMapMatches(data, path, env);
    r := Ok(Entries(EntryOrder(order), grouped));
  }

  // ---------------------------------------------------------------------
  // Counting

  /** Counting the buckets of a concatenation of keys counts each part. */
  lemma {:induction false} TotalCountAppend(a: seq<string>, b: seq<string>, m: map<string, seq<JsValue>>)
    requires forall k | k in a + b :: k in m
    ensures TotalCount(a + b, m) == TotalCount(a, m) + TotalCount(b, m)
    decreases |a|
  {
    if a != [] {
      assert (a + b)[1..] == a[1..] + b;
      TotalCountAppend(a[1..], b, m);
    } else {
      assert a + b == b;
    }
  }

  /** Taking one key out of the middle takes its bucket out of the count. */
  lemma TotalCountRemove(b: seq<string>, i: int, m: map<string, seq<JsValue>>)
    requires 0 <= i < |b| && forall k | k in b :: k in m
    ensures forall k | k in b[..i] + b[i + 1..] :: k in m
    ensures TotalCount(b, m) == |m[b[i]]| + TotalCount(b[..i] + b[i + 1..], m)
  {
    assert b == b[..i] + ([b[i]] + b[i + 1..]);
    assert forall k | k in b[..i] + b[i + 1..] :: k in b;
    TotalCountAppend(b[..i], [b[i]] + b[i + 1..], m);
    TotalCountAppend(b[..i], b[i + 1..], m);
    assert ([b[i]] + b[i + 1..])[1..] == b[i + 1..];
  }

  /** Taking one element out of the middle takes it out of the multiset. */
  lemma MultisetRemove(b: seq<string>, i: int)
    requires 0 <= i < |b|
    ensures multiset(b[..i] + b[i + 1..]) == multiset(b) - multiset{b[i]}
  {
    assert b == b[..i] + [b[i]] + b[i + 1..];
  }

  /** The count does not depend on the order of the keys. */
  lemma {:induction false} TotalCountPermutation(a: seq<string>, b: seq<string>, m: map<string, seq<JsValue>>)
    requires multiset(a) == multiset(b)
    requires forall k | k in a :: k in m
    ensures forall k | k in b :: k in m
    ensures TotalCount(a, m) == TotalCount(b, m)
    decreases |a|
  {
    forall k | k in b ensures k in m {
      assert k in multiset(a);
    }
    if a != [] {
      assert a[0] in multiset(b);
      var i :| 0 <= i < |b| && b[i] == a[0];
      var a', b' := a[1..], b[..i] + b[i + 1..];
      assert multiset(a') == multiset(b') by {
        MultisetRemove(b, i);
        MultisetRemove(a, 0);
        assert a[..0] + a[1..] == a';
      }
      forall k | k in a' ensures k in m {
        assert k in a;
      }
      TotalCountPermutation(a', b', m);
      TotalCountRemove(b, i, m);
      assert TotalCount(a, m) == |m[a[0]]| + TotalCount(a', m);
    }
  }

  /** Every record is counted in exactly one bucket. */
  lemma {:induction false} CountsSumToRecords(data: seq<JsValue>, path: seq<string>, env: Env)
    ensures forall k | k in KeysSeen(data, path, env) :: k in BucketMap(data, path, env)
    ensures TotalCount(KeysSeen(data, path, env), BucketMap(data, path, env)) == |data|
    decreases |data|
  {
    BucketMapMatches(data, path, env);
    if data != [] {
      var init := data[..|data| - 1];
      var keys := KeysSeen(init, path, env);
      var m := BucketMap(init, path, env);
      var k := GroupKey(data[|data| - 1], path, env);
      CountsSumToRecords(init, path, env);
      BucketMapMatches(init, path, env);
      KeysSeenExact(init, path, env);
      var m' := BucketMap(data, path, env);
      CountOneMore(keys, m, m', k);
      if k !in keys {
        TotalCountAppend(keys, [k], m');
      }
    }
  }

  /** Growing one bucket by one record grows the count by one if its key is counted. */
  lemma {:induction false} CountOneMore(keys: seq<string>, m: map<string, seq<JsValue>>, m': map<string, seq<JsValue>>, k: string)
    requires forall j | j in keys :: j in m && j in m'
    requires forall j | j in keys && j != k :: m'[j] == m[j]
    requires k in m' && |m'[k]| == (if k in m then |m[k]| else 0) + 1
    requires Distinct(keys)
    ensures TotalCount(keys, m') == TotalCount(keys, m) + (if k in keys then 1 else 0)
    decreases |keys|
  {
    if keys != [] {
      assert Distinct(keys[1..]) by {
        forall p, q | 0 <= p < q < |keys[1..]| ensures keys[1..][p] != keys[1..][q] {
          assert keys[1..][p] == keys[p + 1] && keys[1..][q] == keys[q + 1];
        }
      }
      CountOneMore(keys[1..], m, m', k);
      if keys[0] == k {
        assert k !in keys[1..] by {
          forall q | 0 <= q < |keys[1..]| ensures keys[1..][q] != k {
            assert keys[1..][q] == keys[q + 1];
          }
        }
      }
      assert k in keys <==> keys[0] == k || k in keys[1..];
    }
  }

  /** The group counts add up to the number of records grouped. */
  lemma GroupCountsTotal(data: seq<JsValue>, path: seq<string>, env: Env)
    ensures var keys := EntryOrder(KeysSeen(data, path, env));
      && (forall k | k in keys :: k in BucketMap(data, path, env))
      && TotalCount(keys, BucketMap(data, path, env)) == |data|
  {
    var keys := KeysSeen(data, path, env);
    CountsSumToRecords(data, path, env);
    EntryOrderPermutes(keys);
    TotalCountPermutation(keys, EntryOrder(keys), BucketMap(data, path, env));
  }
}
