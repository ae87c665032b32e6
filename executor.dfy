/**
 * `QueryExecutor.execute`: fetch the records of the query's type from the
 * data source, then filter, sort, group and cut them to the limit, each stage
 * only when the query asks for it, and wrap any exception with the prefix
 * "查詢執行失敗: ".
 *
 * The data source is abstract: each listing call is a function from its
 * argument to the records or the exception it throws. `listTasks` is
 * optional because the service the executor is built with need not have it.
 */
module QueryExecutor {
  import opened Results
  import opened JsValues
  import opened Parser
  import opened QueryCompare
  import opened QueryFiltering
  import opened RecordSort
  import opened RecordGroups

  /** The listing calls of the service the executor reads from. */
  datatype Source = Source(
    listIssues: JsValue -> Result<seq<JsValue>>,
    listUserStories: JsValue -> Result<seq<JsValue>>,
    listTasks: Option<JsValue -> Result<seq<JsValue>>>)

  /** The object `execute` returns; `executionTime` is the clock reading `Date.now()`. */
  datatype ExecResult = ExecResult(results: seq<JsValue>, total: int, query: Query, executionTime: int)

  // ---------------------------------------------------------------------
  // Fetching

  /**
   * One story's step of `fetchAllTasks`: its tasks, nothing when the call
   * throws (the loop goes on), or the error that escapes the catch block: for
   * a null or undefined story the warning reads `story.id` again and throws.
   */
  function StoryTasks(src: Source, story: JsValue): (r: Result<seq<JsValue>>)
    ensures r.Err? <==> Nullish(story)
    ensures r.Err? ==> r.error.TypeError?
    ensures !Nullish(story) && src.listTasks.None? ==> r == Ok([])
    ensures !Nullish(story) && src.listTasks.Some? && src.listTasks.value(Property(story, "id").value).Ok? ==>
      r == src.listTasks.value(Property(story, "id").value)
    ensures !Nullish(story) && src.listTasks.Some? && src.listTasks.value(Property(story, "id").value).Err? ==>
      r == Ok([])
  {
    match Property(story, "id")
    case Err(e) => Err(e)
    case Ok(id) =>
      match src.listTasks
      case None => Ok([])
      case Some(listTasks) =>
        match listTasks(id)
        case Err(_) => Ok([])
        case Ok(tasks) => Ok(tasks)
  }

  /**
   * The tasks of the stories in order, or the first error that escapes: the
   * fetch throws exactly when some story is null or undefined.
   */
  function AllTasks(src: Source, stories: seq<JsValue>): (r: Result<seq<JsValue>>)
    ensures r.Err? <==> exists k | 0 <= k < |stories| :: Nullish(stories[k])
    ensures r.Err? ==> r.error.TypeError?
    decreases |stories|
  {
    if stories == [] then Ok([])
    else
      var init := stories[..|stories| - 1];
      assert forall k | 0 <= k < |init| :: init[k] == stories[k];
      match AllTasks(src, init)
      case Err(e) => Err(e)
      case Ok(tasks) =>
        match StoryTasks(src, stories[|stories| - 1])
        case Err(e) => Err(e)
        case Ok(more) => Ok(tasks + more)
  }

  /** `fetchAllTasks(projectId)`: list the stories, then collect each story's tasks. */
  method FetchAllTasks(src: Source, projectId: JsValue) returns (r: Result<seq<JsValue>>)
    ensures r == FetchData(src, "TASK", projectId)
  {
    var userStories := src.listUserStories(projectId);
    if userStories.Err? {
      return Err(userStories.error);
    }
    var stories := userStories.value;
    var allTasks: seq<JsValue> := [];
    var i := 0;
    while i < |stories|
      invariant 0 <= i <= |stories|
      invariant AllTasks(src, stories[..i]) == Ok(allTasks)
    {
      assert stories[..i + 1][..i] == stories[..i];
      var story := stories[i];
      var tasks := StoryTasks(src, story);
      if tasks.Err? {
        AllTasksAppend(src, stories[..i + 1], stories[i + 1..]);
        assert stories[..i + 1] + stories[i + 1..] == stories;
        return Err(tasks.error);
      }
      allTasks := allTasks + tasks.value;
      i := i + 1;
    }
    assert stories[..i] == stories;
    return Ok(allTasks);
  }

  /** `fetchData(type, projectId)`: the listing call for the type; any other type throws. */
  function FetchData(src: Source, kind: string, projectId: JsValue): (r: Result<seq<JsValue>>)
    ensures kind !in {"ISSUE", "USER_STORY", "TASK"} ==> r == Err(Error("不支持的數據類型: " + kind))
  {
    if kind == "ISSUE" then src.listIssues(projectId)
    else if kind == "USER_STORY" then src.listUserStories(projectId)
    else if kind == "TASK" then
      match src.listUserStories(projectId)
      case Err(e) => Err(e)
      case Ok(stories) => AllTasks(src, stories)
    else Err(Error("不支持的數據類型: " + kind))
  }

  /** `fetchData`, with the task aggregation as its loop. */
  method Fetch(src: Source, kind: string, projectId: JsValue) returns (r: Result<seq<JsValue>>)
    ensures r == FetchData(src, kind, projectId)
  {
    if kind == "ISSUE" {
      r := src.listIssues(projectId);
    } else if kind == "USER_STORY" {
      r := src.listUserStories(projectId);
    } else if kind == "TASK" {
      r := FetchAllTasks(src, projectId);
    } else {
      r := Err(Error("不支持的數據類型: " + kind));
    }
  }

  // ---------------------------------------------------------------------
  // The stages

  /** `data.slice(0, n)`: a negative end counts from the back. */
  function Slice(data: seq<JsValue>, n: int): (r: seq<JsValue>)
    ensures n >= 0 ==> |r| == if n < |data| then n else |data|
    ensures n < 0 ==> |r| == if |data| + n > 0 then |data| + n else 0
    ensures r == data[..|r|]
  {
    var end := if n >= 0 then n else |data| + n;
    if end <= 0 then [] else if end < |data| then data[..end] else data
  }

  /** `if (query.limit)`: a limit is applied when it is set and not zero. */
  predicate HasLimit(q: Query) {
    q.limit.Some? && q.limit.value != 0
  }

  /** The records after filtering, sorting and grouping, before the limit. */
  function Staged(data: seq<JsValue>, q: Query, env: Env): Result<seq<JsValue>> {
    var filtered := if |q.filters| > 0 then ApplyFilters(data, q.filters, q.logic, env) else data;
    var sorted := if q.orderBy.Some? then SortOutcome(filtered, q.orderBy.value, env) else Ok(filtered);
    match sorted
    case Err(e) => Err(e)
    case Ok(s) => if Truthy(q.groupBy) then GroupOutcome(s, q.groupBy, env) else Ok(s)
  }

  /** What `execute(query, projectId)` returns or throws. */
  function ExecuteSpec(src: Source, q: Query, projectId: JsValue, env: Env): (r: Result<ExecResult>)
    ensures r.Ok? ==> r.value.total == |r.value.results| && r.value.query == q
    ensures r.Err? ==> r.error.Error? && StartsWith(r.error.message, "查詢執行失敗: ")
  {
    var staged :=
      match FetchData(src, q.kind, projectId)
      case Err(e) => Err(e)
      case Ok(data) => Staged(data, q, env);
    match staged
    case Err(e) => Err(Error("查詢執行失敗: " + e.Message()))
    case Ok(s) =>
      var results := if HasLimit(q) then Slice(s, q.limit.value) else s;
      Ok(ExecResult(results, |results|, q, env.now))
  }

  /** `execute(query, projectId)`: the stages reassign the data one after another. */
  method Execute(src: Source, q: Query, projectId: JsValue, env: Env) returns (r: Result<ExecResult>)
    ensures r == ExecuteSpec(src, q, projectId, env)
  {
    var fetched := Fetch(src, q.kind, projectId);
    if fetched.Err? {
      return Err(Error("查詢執行失敗: " + fetched.error.Message()));
    }
    var data := fetched.value;
    if |q.filters| > 0 {
      data := ApplyFilters(data, q.filters, q.logic, env);
    }
    if q.orderBy.Some? {
      var a := new JsValue[|data|](i requires 0 <= i < |data| => data[i]);
      assert a[..] == data;
      var sorted := ApplySorting(a, q.orderBy.value, env);
      if sorted.Err? {
        return Err(Error("查詢執行失敗: " + sorted.error.Message()));
      }
      data := sorted.value;
    }
    if Truthy(q.groupBy) {
      var grouped := ApplyGrouping(data, q.groupBy, env);
      if grouped.Err? {
        return Err(Error("查詢執行失敗: " + grouped.error.Message()));
      }
      data := grouped.value;
    }
    assert Staged(fetched.value, q, env) == Ok(data);
    if q.limit.Some? && q.limit.value != 0 {
      data := Slice(data, q.limit.value);
    }
    return Ok(ExecResult(data, |data|, q, env.now));
  }

  // ---------------------------------------------------------------------
  // Properties

  /** A query that asks for no stage returns the fetched records as they are. */
  lemma NoStagesNoChange(src: Source, q: Query, projectId: JsValue, env: Env)
    requires q.filters == [] && q.orderBy.None? && !Truthy(q.groupBy) && !HasLimit(q)
    requires FetchData(src, q.kind, projectId).Ok?
    ensures ExecuteSpec(src, q, projectId, env) == Ok(ExecResult(FetchData(src, q.kind, projectId).value, |FetchData(src, q.kind, projectId).value|, q, env.now))
  {
  }

  /** An unsupported type throws the wrapped message. */
  lemma UnsupportedType(src: Source, q: Query, projectId: JsValue, env: Env)
    requires q.kind !in {"ISSUE", "USER_STORY", "TASK"}
    ensures ExecuteSpec(src, q, projectId, env) == Err(Error("查詢執行失敗: " + ("不支持的數據類型: " + q.kind)))
  {
  }

  /** A positive limit keeps at most that many results, and they are the first ones. */
  lemma LimitIsPrefix(src: Source, q: Query, projectId: JsValue, env: Env)
    requires HasLimit(q) && q.limit.value > 0
    requires ExecuteSpec(src, q, projectId, env).Ok?
    ensures var staged := Staged(FetchData(src, q.kind, projectId).value, q, env);
      && staged.Ok?
      && |ExecuteSpec(src, q, projectId, env).value.results| <= q.limit.value
      && ExecuteSpec(src, q, projectId, env).value.results <= staged.value
  {
  }

  /** When grouping, the limit counts groups: the results are the first groups. */
  lemma LimitCountsGroups(src: Source, q: Query, projectId: JsValue, env: Env, data: seq<JsValue>, path: seq<string>)
    requires FetchData(src, q.kind, projectId) == Ok(data)
    requires q.filters == [] && q.orderBy.None? && q.groupBy.Str? && q.groupBy.s != "" && data != []
    requires path == SplitOn(q.groupBy.s, ".")
    requires HasLimit(q) && q.limit.value > 0
    ensures ExecuteSpec(src, q, projectId, env) == Ok(ExecResult(
      Slice(Grouped(data, path, env), q.limit.value),
      |Slice(Grouped(data, path, env), q.limit.value)|, q, env.now))
  {
  }

  /**
   * Without grouping, every result is a fetched record that passes the
   * filters, and sorting only reorders: with no limit the results are the
   * kept records, each as often as it was kept.
   */
  lemma ResultsAreKeptRecords(src: Source, q: Query, projectId: JsValue, env: Env, data: seq<JsValue>)
    requires FetchData(src, q.kind, projectId) == Ok(data)
    requires !Truthy(q.groupBy) && q.filters != []
    requires ExecuteSpec(src, q, projectId, env).Ok?
    ensures forall x | x in ExecuteSpec(src, q, projectId, env).value.results ::
      x in data && Keep(x, q.filters, q.logic, env)
    ensures !HasLimit(q) ==>
      multiset(ExecuteSpec(src, q, projectId, env).value.results) == multiset(ApplyFilters(data, q.filters, q.logic, env))
  {
    var kept := ApplyFilters(data, q.filters, q.logic, env);
    var s := Staged(data, q, env).value;
    assert multiset(s) == multiset(kept);
    var results := ExecuteSpec(src, q, projectId, env).value.results;
    forall x | x in results ensures x in data && Keep(x, q.filters, q.logic, env) {
      assert x in s;
      assert x in multiset(kept);
    }
  }

  /** Without `listTasks` every story contributes no task, so a TASK query sees no records. */
  lemma {:induction false} NoListTasksNoTasks(src: Source, stories: seq<JsValue>)
    requires src.listTasks.None?
    requires forall s | s in stories :: !Nullish(s)
    ensures AllTasks(src, stories) == Ok([])
    decreases |stories|
  {
    if stories != [] {
      var init := stories[..|stories| - 1];
      assert forall s | s in init :: s in stories;
      NoListTasksNoTasks(src, init);
      assert stories[|stories| - 1] in stories;
      assert StoryTasks(src, stories[|stories| - 1]) == Ok([]);
      assert AllTasks(src, init).value + [] == [];
    }
  }

  /** A null or undefined story makes the whole task fetch throw. */
  lemma {:induction false} NullStoryAborts(src: Source, stories: seq<JsValue>, i: int)
    requires 0 <= i < |stories| && Nullish(stories[i])
    ensures AllTasks(src, stories).Err?
    decreases |stories|
  {
    var init := stories[..|stories| - 1];
    if i < |stories| - 1 {
      assert init[i] == stories[i];
      NullStoryAborts(src, init, i);
    }
  }

  /** Collecting the tasks of two runs of stories concatenates them, the first error winning. */
  lemma {:induction false} AllTasksAppend(src: Source, a: seq<JsValue>, b: seq<JsValue>)
    ensures AllTasks(src, a + b) ==
      match AllTasks(src, a)
      case Err(e) => Err(e)
      case Ok(x) =>
        match AllTasks(src, b)
        case Err(e) => Err(e)
        case Ok(y) => Ok(x + y)
    decreases |b|
  {
    if b == [] {
      assert a + b == a;
      if AllTasks(src, a).Ok? {
        assert AllTasks(src, a).value + [] == AllTasks(src, a).value;
      }
    } else {
      var b' := b[..|b| - 1];
      assert (a + b)[..|a + b| - 1] == a + b' && (a + b)[|a + b| - 1] == b[|b| - 1];
      AllTasksAppend(src, a, b');
      match AllTasks(src, a)
      case Err(_) =>
      case Ok(x) =>
        match AllTasks(src, b')
        case Err(_) =>
        case Ok(y) =>
          match StoryTasks(src, b[|b| - 1])
          case Err(_) =>
          case Ok(z) =>
            assert x + y + z == x + (y + z);
    }
  }
}
