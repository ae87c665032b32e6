/**
 * The grammar tables of the advanced query language: the fields each kind of
 * record has and their types, the comparison operators, the enumerated
 * values, the clock-relative date keywords, and the three validation rules.
 */
module QueryGrammar {
  import opened Results
  import opened JsValues
  import Calendar

  /** The declared type of a field. */
  datatype FieldType = StringType | NumberType | DateType | EnumType | ArrayType

  const IssueFields: map<string, FieldType> := map[
    "subject" := StringType, "description" := StringType, "status" := EnumType,
    "priority" := EnumType, "type" := EnumType, "severity" := EnumType,
    "assignee" := StringType, "reporter" := StringType, "tags" := ArrayType,
    "created" := DateType, "updated" := DateType, "closed" := DateType,
    "due_date" := DateType, "ref" := NumberType, "milestone" := StringType]

  const UserStoryFields: map<string, FieldType> := map[
    "subject" := StringType, "description" := StringType, "status" := EnumType,
    "points" := NumberType, "assignee" := StringType, "owner" := StringType,
    "tags" := ArrayType, "created" := DateType, "updated" := DateType,
    "ref" := NumberType, "milestone" := StringType]

  const TaskFields: map<string, FieldType> := map[
    "subject" := StringType, "description" := StringType, "status" := EnumType,
    "assignee" := StringType, "user_story" := StringType, "tags" := ArrayType,
    "created" := DateType, "updated" := DateType, "ref" := NumberType]

  /** `FIELD_TYPES[kind]`: the field table of a kind of record, None for any other kind. */
  function FieldTypes(kind: string): Option<map<string, FieldType>> {
    if kind == "ISSUE" then Some(IssueFields)
    else if kind == "USER_STORY" then Some(UserStoryFields)
    else if kind == "TASK" then Some(TaskFields)
    else None
  }

  /** The values of `OPERATORS`, in declaration order. */
  const Operators: seq<string> := [
    "=", "!=", ">", ">=", "<", "<=", "..", "contains", "starts", "ends",
    "~", "*", "in", "not_in", "exists", "null", "empty"]

  /** `STATUS_VALUES[kind]` */
  function StatusValues(kind: string): Option<seq<string>> {
    if kind == "ISSUE" then Some(["new", "in-progress", "ready-for-test", "closed", "needs-info", "rejected"])
    else if kind == "USER_STORY" then Some(["new", "in-progress", "ready-for-test", "done"])
    else if kind == "TASK" then Some(["new", "in-progress", "ready-for-test", "closed"])
    else None
  }

  const PriorityValues: seq<string> := ["low", "normal", "high", "urgent"]
  const TypeValues: seq<string> := ["bug", "feature", "enhancement", "task", "story"]
  const SeverityValues: seq<string> := ["minor", "normal", "important", "critical"]

  /** The keys of `TIME_KEYWORDS`. */
  const TimeKeywords: seq<string> := [
    "today", "yesterday", "this_week", "last_week", "this_month", "last_month",
    "1d", "3d", "7d", "30d", "90d"]

  predicate IsTimeKeyword(name: string) {
    name in TimeKeywords
  }

  // ---------------------------------------------------------------------
  // Validation rules

  /** `VALIDATION_RULES.isValidField`: the field is a key of the kind's field table. */
  predicate IsValidField(field: string, kind: string) {
    FieldTypes(kind).Some? && field in FieldTypes(kind).value
  }

  /** `VALIDATION_RULES.isValidOperator`: the operator is one of the values of `OPERATORS`. */
  predicate IsValidOperator(op: string) {
    op in Operators
  }

  /** `includes` of a string list, which finds only a string equal to an element. */
  predicate ListIncludes(list: seq<string>, v: JsValue) {
    v.Str? && v.s in list
  }

  /**
   * `VALIDATION_RULES.isValidValue`. Reading the field table of a kind that
   * has none throws; a field the table does not list, an array field and an
   * enum field without a value list accept everything.
   */
  function IsValidValue(field: string, value: JsValue, kind: string, env: Env): (r: Result<bool>)
    ensures r.Err? <==> FieldTypes(kind).None?
    ensures r.Ok? && field !in FieldTypes(kind).value ==> r.value
    ensures r.Ok? && field in FieldTypes(kind).value ==>
      (match FieldTypes(kind).value[field]
       case StringType => r.value == value.Str?
       case NumberType => r.value == ToNumber(value, env).Some?
       case DateType =>
         r.value == (env.dateParse(JsString(value, env)).Some? || IsTimeKeyword(JsString(value, env)))
       case EnumType =>
         && (field == "status" ==> r.value == ListIncludes(StatusValues(kind).value, value))
         && (field == "priority" ==> r.value == ListIncludes(PriorityValues, value))
         && (field == "type" ==> r.value == ListIncludes(TypeValues, value))
         && (field == "severity" ==> r.value == ListIncludes(SeverityValues, value))
         && (field !in {"status", "priority", "type", "severity"} ==> r.value)
       case ArrayType => r.value)
  {
    match FieldTypes(kind)
    case None => Err(TypeError("Cannot read properties of undefined (reading '" + field + "')"))
    case Some(fields) =>
      if field !in fields then Ok(true)
      else match fields[field]
        case StringType => Ok(value.Str?)
        case NumberType => Ok(ToNumber(value, env).Some?)
        case DateType =>
          var text := JsString(value, env);
          Ok(env.dateParse(text).Some? || IsTimeKeyword(text))
        case EnumType =>
          if field == "status" then Ok(ListIncludes(StatusValues(kind).value, value))
          else if field == "priority" then Ok(ListIncludes(PriorityValues, value))
          else if field == "type" then Ok(ListIncludes(TypeValues, value))
          else if field == "severity" then Ok(ListIncludes(SeverityValues, value))
          else Ok(true)
        case ArrayType => Ok(true)
  }

  // ---------------------------------------------------------------------
  // Clock-relative dates

  /**
   * `getThisWeekStart`: `setDate` moves the clock's date to the Monday of its
   * week (Sunday counts as the last day of the week) and keeps the time of day.
   */
  function ThisWeekStart(now: int): (r: int)
    ensures Calendar.WeekDay(r) == 1
    ensures Calendar.TimeWithinDay(r) == Calendar.TimeWithinDay(now)
    ensures now - 6 * Calendar.MsPerDay <= r <= now
    ensures Calendar.WeekDay(now) == 1 ==> r == now
    ensures Calendar.WeekDay(now) == 0 ==> r == now - 6 * Calendar.MsPerDay
  {
    var c := Calendar.CivilFromDays(Calendar.Day(now));
    var day := Calendar.WeekDay(now);
    var diff := c.date - day + (if day == 0 then -6 else 1);
    var back := if day == 0 then 6 else day - 1;
    assert (day - back) % 7 == 1 by {
      if day == 0 { assert day - back == -6; } else { assert day - back == 1; }
    }
    Calendar.SetDateShift(Calendar.Day(now), diff);
    Calendar.AtTimeOf(now, Calendar.MakeDay(c.year, c.month, diff), back);
    Calendar.ShiftDays(now, back);
    Calendar.MakeDay(c.year, c.month, diff) * Calendar.MsPerDay + Calendar.TimeWithinDay(now)
  }

  /** `getLastWeekStart`: the Monday of the week before, at the same time of day. */
  function LastWeekStart(now: int): (r: int)
    ensures Calendar.WeekDay(r) == 1
    ensures ThisWeekStart(now) - r == 7 * Calendar.MsPerDay
    ensures now - 13 * Calendar.MsPerDay <= r <= now - 7 * Calendar.MsPerDay
  {
    var t := ThisWeekStart(now);
    Calendar.ShiftDays(t, 7);
    assert (1 - 7) % 7 == 1;
    t - 7 * Calendar.MsPerDay
  }

  /** `getThisMonthStart`: midnight at the start of the first day of the clock's month. */
  function ThisMonthStart(now: int): (r: int)
    ensures var c := Calendar.CivilFromDays(Calendar.Day(now));
            Calendar.CivilFromDays(Calendar.Day(r)) == Calendar.CivilDate(c.year, c.month, 1)
    ensures Calendar.TimeWithinDay(r) == 0
    ensures now - 31 * Calendar.MsPerDay < r <= now
  {
    var c := Calendar.CivilFromDays(Calendar.Day(now));
    var d := Calendar.MakeDay(c.year, c.month, 1);
    Calendar.FirstOfMonth(c.year, c.month);
    Calendar.SetDateShift(Calendar.Day(now), 1);
    Calendar.Midnight(d);
    d * Calendar.MsPerDay
  }

  /**
   * `getLastMonthStart`: midnight at the start of the first day of the month
   * before the clock's; before January that is December of the year before.
   */
  function LastMonthStart(now: int): (r: int)
    ensures var c := Calendar.CivilFromDays(Calendar.Day(now));
            Calendar.CivilFromDays(Calendar.Day(r))
              == if c.month == 0 then Calendar.CivilDate(c.year - 1, 11, 1)
                 else Calendar.CivilDate(c.year, c.month - 1, 1)
    ensures Calendar.TimeWithinDay(r) == 0
    ensures 28 * Calendar.MsPerDay <= ThisMonthStart(now) - r <= 31 * Calendar.MsPerDay
  {
    var c := Calendar.CivilFromDays(Calendar.Day(now));
    var d := Calendar.MakeDay(c.year, c.month - 1, 1);
    Calendar.Midnight(d);
    Calendar.PreviousMonthFirst(c.year, c.month);
    Calendar.PreviousMonthLength(c.year, c.month);
    Calendar.MidnightsApart(Calendar.MakeDay(c.year, c.month, 1), d, 28, 31);
    d * Calendar.MsPerDay
  }

  /**
   * `TIME_KEYWORDS[name]()`: the time value a date keyword stands for, None
   * for a name that is not a keyword.
   */
  function ResolveTimeKeyword(name: string, now: int): (r: Option<int>)
    ensures r.Some? <==> IsTimeKeyword(name)
    ensures r.Some? ==> r.value <= now
  {
    if name == "today" then Some(now)
    else if name == "yesterday" then Some(now - Calendar.MsPerDay)
    else if name == "this_week" then Some(ThisWeekStart(now))
    else if name == "last_week" then Some(LastWeekStart(now))
    else if name == "this_month" then Some(ThisMonthStart(now))
    else if name == "last_month" then Some(LastMonthStart(now))
    else if name == "1d" then Some(now - 1 * Calendar.MsPerDay)
    else if name == "3d" then Some(now - 3 * Calendar.MsPerDay)
    else if name == "7d" then Some(now - 7 * Calendar.MsPerDay)
    else if name == "30d" then Some(now - 30 * Calendar.MsPerDay)
    else if name == "90d" then Some(now - 90 * Calendar.MsPerDay)
    else None
  }

  // ---------------------------------------------------------------------
  // Properties of the tables

  /** A character the operator part of a field query may consist of. */
  predicate IsOperatorChar(c: char) {
    c == '>' || c == '<' || c == '=' || c == '!' || c == '~'
  }

  /** The operator table has 17 distinct entries, among them the range and wildcard operators. */
  lemma OperatorTable()
    ensures |Operators| == 17
    ensures forall i, j | 0 <= i < j < |Operators| :: Operators[i] != Operators[j]
    ensures IsValidOperator("..") && IsValidOperator("*")
  {
  }

  /**
   * Among operators spelled with `> < = ! ~` only, exactly the seven
   * comparison operators are valid: `=>`, `!`, `==` and the like are not.
   */
  lemma GlyphOperators(op: string)
    requires forall c | c in op :: IsOperatorChar(c)
    ensures IsValidOperator(op) <==> op in ["=", "!=", ">", ">=", "<", "<=", "~"]
  {
    if IsValidOperator(op) {
      assert op != [] && IsOperatorChar(op[0]);
    }
  }

  /** Only the three record kinds have fields; each lists subject, status, tags, created and ref. */
  lemma ValidFieldKinds(field: string, kind: string)
    ensures IsValidField(field, kind) ==> kind == "ISSUE" || kind == "USER_STORY" || kind == "TASK"
    ensures kind == "ISSUE" || kind == "USER_STORY" || kind == "TASK" ==>
      IsValidField("subject", kind) && IsValidField("status", kind) && IsValidField("tags", kind)
      && IsValidField("created", kind) && IsValidField("ref", kind)
  {
  }

  /** No kind has a field with an empty name, and the empty string is no operator. */
  lemma EmptyNeverValid(kind: string)
    ensures !IsValidField("", kind) && !IsValidOperator("")
  {
    assert "" !in IssueFields && "" !in UserStoryFields && "" !in TaskFields;
    assert "" !in Operators;
  }

  /** `status` is a field of issues and `invalid_field` is not. */
  lemma ValidFieldExamples()
    ensures IsValidField("status", "ISSUE")
    ensures !IsValidField("invalid_field", "ISSUE")
    ensures IsValidField("points", "USER_STORY") && !IsValidField("points", "ISSUE")
  {
  }

  /** Status values are checked per kind: `done` is a user-story status only, `open` is none. */
  lemma StatusValueExamples(env: Env)
    ensures IsValidValue("status", Str("done"), "USER_STORY", env) == Ok(true)
    ensures IsValidValue("status", Str("done"), "ISSUE", env) == Ok(false)
    ensures IsValidValue("status", Str("open"), "ISSUE", env) == Ok(false)
  {
    StatusField("USER_STORY", Str("done"), env);
    StatusField("ISSUE", Str("done"), env);
    StatusField("ISSUE", Str("open"), env);
  }

  /** `high` is a priority. */
  lemma PriorityValueExample(env: Env)
    ensures IsValidValue("priority", Str("high"), "ISSUE", env) == Ok(true)
  {
    assert IssueFields["priority"] == EnumType;
    assert "high" in PriorityValues;
  }

  /** The status of a record kind is checked against that kind's status list. */
  lemma StatusField(kind: string, value: JsValue, env: Env)
    requires kind == "ISSUE" || kind == "USER_STORY" || kind == "TASK"
    ensures IsValidValue("status", value, kind, env) == Ok(ListIncludes(StatusValues(kind).value, value))
  {
    assert FieldTypes(kind).value["status"] == EnumType;
  }
}
