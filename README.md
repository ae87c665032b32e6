# Taiga MCP server: advanced query engine, lookups and endpoint tables

This project models, in Dafny, the core of the Taiga MCP server's advanced
search, together with a few helpers around it:

- **Query language.** The tokenizer (`QueryParser.tokenize`), value coercion
  (`parseValue`, `parseNumericValue`) and the clause-by-clause parser
  (`parse`, `parseExpression` and its handlers, `validateQuery`,
  `getQueryStats`).
- **Grammar tables.** The tables the language draws on (field types per record
  kind, operators, status and other enum vocabularies, date keywords and the
  week and month starts they resolve to) and the three validation rules.
- **Query executor.** `execute` with its fetching, filtering, sorting, grouping
  and limit stages, and the comparison rules of every operator.
- **Utilities.** Name-to-id lookups (`findIdByName`, `findStatusIdByName`),
  `getSafeValue`, `getStatusLabel`, and how `resolveProjectId` and
  `resolveIssue` choose between id and reference.
- **Comments and endpoints.** The comment filter over an item's history
  (`filterCommentsFromHistory`), and the service's item-type tables
  (`getItemEndpoint`, `getHistoryObjectType`, `getAttachmentEndpoint`).

JavaScript values are the datatype `JsValues.JsValue`. The clock, `Date.parse`
and the date-to-text conversion are read from an `Env` value. The Taiga REST
calls are functions passed in (`QueryExecutor.Source`, `Utils.Service`).

Some behaviours of the code are easy to miss when reading its own examples
and comments. The model follows the code in each of them:

- **Quoted values.** The query examples include `milestone:"Sprint 3" AND
  updated:this_week` (src/query/queryGrammar.js:169), and `parseValue` strips
  a pair of quotes (src/query/QueryParser.js:98-102). Yet a quoted value with
  a space in it is not kept whole. The unquoted-value alternative of the
  tokenizer's pattern (src/query/QueryParser.js:58) accepts `"` and comes
  first. So `milestone:"Sprint 3"` gives the field query `milestone = "Sprint`
  (quote included) and a stray token `3"` (`LexerCases.QuotedWithSpace`).
- **Relative times.** The examples include `updated:<7d`
  (src/query/queryGrammar.js:147), and `parseValue` has a relative-time case
  for `<7d` and `>30d` (src/query/QueryParser.js:126-143). That case is never
  reached from a query string: the `<` is taken by the operator part of the
  field query, so the value is `7d`, the date keyword (`QueryLexer.Lex`,
  `QueryLexer.NoRelativeTime`).
- **Missing values under DESC.** Records missing the sort field compare below
  all others (src/query/QueryExecutor.js:358-362), and DESC negates the whole
  comparison (src/query/QueryExecutor.js:371). So they come first under ASC
  and last under DESC (`RecordSort.MissingFirstAscending`,
  `RecordSort.MissingLastDescending`). A record that is itself `undefined`
  is different: `Array.prototype.sort` never passes it to the comparator and
  puts it after all the others, under ASC and DESC alike, and it cannot make
  the comparator throw (`RecordSort.UndefinedSortsLast`,
  `RecordSort.UndefinedNeverCompared`).
- **Mixed kinds when sorting.** Values of mixed kinds are compared by their
  string forms without lower-casing (src/query/QueryExecutor.js:367-368).
- **The empty-query error.** This error is thrown at
  src/query/QueryParser.js:28, before the `try` block of `parse` at lines
  45-50, so it carries no "查詢解析錯誤: " prefix.

The modules are:

| module | file | models |
|---|---|---|
| `Results` | results.dfy | `Option`, `Result` and the thrown error |
| `JsValues` | jsvalues.dfy | JavaScript values and the built-ins the code calls |
| `Calendar` | calendar.dfy | the proleptic Gregorian calendar of `Date` (UTC) |
| `QueryGrammar` | grammar.dfy | src/query/queryGrammar.js |
| `QueryValues` | values.dfy | `parseValue`, `parseNumericValue` |
| `QueryLexer` | lexer.dfy | `tokenize` as a scanner over the alternatives of its pattern |
| `Parser` | parser.dfy | the `QueryParser` class and the query object it fills in |
| `ParserFacts` | parserfacts.dfy | properties of whole parses |
| `QueryCompare` | compare.dfy | `getFieldValue`, `evaluateFilter` and the comparison rules |
| `QueryFiltering` | filtering.dfy | `applyFilters` |
| `RecordSort` | sorting.dfy | `applySorting` as an in-place insertion sort |
| `RecordGroups` | grouping.dfy | `applyGrouping`, with `Object.entries` key order |
| `QueryExecutor` | executor.dfy | `execute`, `fetchData`, `fetchAllTasks` |
| `Utils` | utils.dfy | src/utils.js lookups and labels |
| `CommentHistory` | comments.dfy | `filterCommentsFromHistory` |
| `TaigaEndpoints` | service.dfy | the item-type tables of src/taigaService.js |
| `QueryCases`, `LexerCases`, `ParserCases`, `ExecutorCases` | cases.dfy, lexcases.dfy, parsercases.dfy, execcases.dfy | the worked examples of the query syntax and of its tests |

## Model

| member | source | states |
|---|---|---|
| QueryGrammar.IsValidField | src/query/queryGrammar.js:205-208 | Defines the field check: the field is a key of the field table of the record kind. `QueryGrammar.ValidFieldKinds`, `QueryGrammar.ValidFieldExamples` and `QueryGrammar.EmptyNeverValid` state which fields each kind accepts. |
| QueryGrammar.IssueFields | src/query/queryGrammar.js:9-25 | Defines the issue field table, the names with their types. `QueryGrammar.ValidFieldKinds` and `QueryGrammar.ValidFieldExamples` state which fields it has. |
| QueryGrammar.UserStoryFields | src/query/queryGrammar.js:28-40 | Defines the user-story field table. `QueryGrammar.ValidFieldKinds` states the fields it shares with the other kinds. |
| QueryGrammar.TaskFields | src/query/queryGrammar.js:43-53 | Defines the task field table. `QueryGrammar.ValidFieldKinds` states the fields it shares with the other kinds. |
| QueryGrammar.FieldTypes | src/query/queryGrammar.js:7-54 | Defines the lookup of a kind's field table, with none for any other kind. `QueryGrammar.ValidFieldKinds` and `QueryGrammar.IsValidValue` state what follows when it is missing. |
| QueryGrammar.Operators | src/query/queryGrammar.js:57-86 | Defines the operator texts. `QueryGrammar.OperatorTable` and `QueryGrammar.GlyphOperators` state how many there are and which glyphs they hold. |
| QueryGrammar.TimeKeywords | src/query/queryGrammar.js:102-117 | Defines the eleven time-keyword names. `QueryGrammar.ResolveTimeKeyword` states the date each name gives. |
| QueryGrammar.StatusValues | src/query/queryGrammar.js:120-124 | Defines each kind's status list. `QueryGrammar.StatusField` and `QueryGrammar.StatusValueExamples` state which statuses each kind accepts. |
| QueryGrammar.PriorityValues | src/query/queryGrammar.js:127 | Defines the priority list. `QueryGrammar.PriorityValueExample` and `QueryGrammar.IsValidValue` state its use. |
| QueryGrammar.TypeValues | src/query/queryGrammar.js:130 | Defines the type list. `QueryGrammar.IsValidValue` states that a `type` value is valid exactly when the list includes it. |
| QueryGrammar.SeverityValues | src/query/queryGrammar.js:133 | Defines the severity list. `QueryGrammar.IsValidValue` states that a `severity` value is valid exactly when the list includes it. |
| QueryGrammar.IsValidOperator | src/query/queryGrammar.js:210-212 | Defines the operator check: the operator is one of the values of `OPERATORS`. `QueryGrammar.OperatorTable` lists them and `ParserFacts.MalformedOperators` shows unknown operators refused. |
| QueryGrammar.IsValidValue | src/query/queryGrammar.js:215-237 | Throws exactly when the record kind has no field table. A field the table does not list accepts everything. Otherwise, by the field's type: a string field accepts only strings; a number field only values `Number` reads as a number; a date field values `Date.parse` reads or a date keyword; `status`, `priority`, `type` and `severity` only their vocabularies, and any other enum field everything; an array field everything. |
| QueryGrammar.StatusField | src/query/queryGrammar.js:120-124 | For each of the three record kinds, a status is valid exactly when that kind's own status list includes it. |
| QueryGrammar.StatusValueExamples | src/query/queryGrammar.js:120-124 | `done` is a valid user-story status but not an issue status, and `open` is a status of no kind. |
| QueryGrammar.PriorityValueExample | src/query/queryGrammar.js:127 | `high` is a valid priority. |
| QueryGrammar.ValidFieldKinds | src/query/queryGrammar.js:7-54 | Only ISSUE, USER_STORY and TASK have fields. Each of them has subject, status, tags, created and ref. |
| QueryGrammar.ValidFieldExamples | src/query/queryGrammar.js:205-207 | `status` is an issue field and `invalid_field` is not. `points` belongs to user stories, not issues. |
| QueryGrammar.EmptyNeverValid | src/query/queryGrammar.js:205-212 | No kind has a field with an empty name, and the empty string is not an operator. |
| QueryGrammar.OperatorTable | src/query/queryGrammar.js:57-86 | The operator table has 17 distinct entries and includes the range `..` and wildcard `*`. |
| QueryGrammar.GlyphOperators | src/query/queryGrammar.js:210-212 | Among texts made only of `> < = ! ~`, exactly the seven comparison glyphs are valid operators. |
| QueryGrammar.ThisWeekStart | src/query/queryGrammar.js:180-185 | The result is a Monday at the clock's time of day, at most six days back. The clock itself on a Monday, six days back on a Sunday. |
| QueryGrammar.LastWeekStart | src/query/queryGrammar.js:187-190 | The result is a Monday exactly seven days before this week's start, between 7 and 13 days back. |
| QueryGrammar.ThisMonthStart | src/query/queryGrammar.js:192-195 | The result is midnight of date 1 of the clock's own year and month, less than 31 days back. |
| QueryGrammar.LastMonthStart | src/query/queryGrammar.js:197-200 | The result is midnight of date 1 of the month before (December of the previous year before January), 28 to 31 days before this month's start. |
| QueryGrammar.ResolveTimeKeyword | src/query/queryGrammar.js:102-117 | Resolves exactly the eleven date keywords, each to a time no later than the clock. |
| Calendar.CivilRoundTrip | src/query/queryGrammar.js:192-195 | Converting a day number to its year, month and date and back gives the same day. |
| Calendar.FirstOfMonth | src/query/queryGrammar.js:194 | `new Date(year, month, 1)` for a month 0..11 lies in that month, on date 1. |
| Calendar.PreviousMonthFirst | src/query/queryGrammar.js:199 | `new Date(year, month - 1, 1)` lies in the previous month, which before January is December of the year before. |
| Calendar.SetDateShift | src/query/queryGrammar.js:183-184 | `setDate(n)` moves the day number by `n` minus the old date, also when `n` leaves the month. |
| Calendar.MonthLength | src/query/queryGrammar.js:192-200 | Every month has between 28 and 31 days. |
| Calendar.YearLength | src/query/queryGrammar.js:192-200 | Every year has 365 or 366 days. |
| Calendar.ShiftDays | src/query/queryGrammar.js:189 | Subtracting `k` whole days moves the day back by `k` and the weekday back by `k` mod 7, keeping the time of day. |
| Calendar.Epoch | src/query/queryGrammar.js:182 | Time 0 is 1 January 1970, a Thursday (weekday 4). |
| QueryValues.ParseNumericValue | src/query/QueryParser.js:151-154 | A number exactly when `Number` reads the text as one, with that value; otherwise the text itself. |
| QueryValues.ParseValue | src/query/QueryParser.js:97-146 | Each case gives its exact result once the earlier ones have failed, in the source's order: quoted text without its quotes; a parenthesised list of trimmed items; a range object of two numeric values; the number of a numeral; the date of a time keyword; the relative-time object; otherwise the raw text. Conversely, each kind of result comes only from its case: a list only from `( … )`, a number only from a numeral, a date only from a keyword and never after the clock, a range or a relative time only from its pattern. |
| QueryValues.TrimAllTrimmed | src/query/QueryParser.js:107 | Every item of a parenthesised list is a string that trimming leaves alone. |
| QueryValues.TrimAllAt | src/query/QueryParser.js:107 | The k-th list item is the k-th comma-separated part, trimmed. |
| QueryValues.TrimIdempotent | src/query/QueryParser.js:107 | Trimming twice is trimming once. |
| QueryValues.SplitOnIncludes | src/query/QueryParser.js:111-112 | Text that contains `..` splits into at least two parts, so the range's start and end are both read. |
| QueryValues.MatchRelativeTime | src/query/QueryParser.js:127-131 | A match starts with `<` or `>` and ends in one of the units d, w, m, y. |
| QueryCases.ParseValueQuoted | src/query/QueryParser.js:99-102 | `"API"` and `'bug'` lose their quotes, and a lone `"` gives the empty string. |
| QueryCases.ParseValueList | src/query/QueryParser.js:105-108 | `(a, b ,c)` becomes the list `a`, `b`, `c`. |
| QueryCases.ParseValueRange | src/query/QueryParser.js:111-114 | `3..8` becomes the range from 3 to 8. |
| QueryCases.ParseValueNumber | src/query/QueryParser.js:117-119 | `5` becomes the number 5. |
| QueryCases.ParseValueWord | src/query/QueryParser.js:145 | `open` stays text. |
| QueryCases.ParseValueKeyword | src/query/QueryParser.js:122-124 | `7d` is a date keyword and becomes the clock minus seven days. |
| QueryCases.ParseValueRelative | src/query/QueryParser.js:127-143 | `<7d` becomes the relative time `<` at the clock minus seven days. |
| QueryCases.ParseValueUnclosed | src/query/QueryParser.js:99-102 | A value with an opening quote and no closing one stays text, quote included. |
| QueryCases.NotNumeral | src/query/QueryParser.js:117 | Text that starts with neither a digit nor a sign is not a number. |
| QueryLexer.Lex | src/query/QueryParser.js:56-92 | Every field query has a non-empty lower-case identifier and a non-empty operator made only of `> < = ! ~`, and its value is never a relative time. Every logic token is AND, OR or NOT, every parenthesis token is `(` or `)`, and every bare token is non-blank text. |
| QueryLexer.Tokens | src/query/QueryParser.js:62-88 | The `exec` loop from a position: white space is skipped between matches, and there is at most one token per remaining character. |
| QueryLexer.MatchAt | src/query/QueryParser.js:58 | The match at a non-space position tries the field pair, then the keywords, then a parenthesis, then a run of non-space characters. It always consumes at least one character and never runs past the end. |
| QueryLexer.ToToken | src/query/QueryParser.js:62-88 | Defines the token built from each alternative: a field query with its identifier lower-cased, `=` for an empty operator and its value coerced; the keywords upper-cased with spaces turned into `_`; parentheses; any other word. `QueryLexer.TokensShape` and `QueryLexer.SingleFieldQuery` state its results. |
| QueryLexer.FieldAt | src/query/QueryParser.js:58 | A field-query match spells out its identifier, a colon, its operator and its value, and ends after its start. |
| QueryLexer.FieldAtShape | src/query/QueryParser.js:58 | A field-query match is an identifier, an operator run and a non-empty value that is a parenthesised text or free of `:`, white space and parentheses. |
| QueryLexer.Backtrack | src/query/QueryParser.js:58 | When no value follows the whole operator run, the run is shortened from the right to the longest prefix a value follows, or the field alternative fails. |
| QueryLexer.ValueEnd | src/query/QueryParser.js:58 | A value is a run of value characters when one starts there, otherwise a parenthesised text. |
| QueryLexer.RunEnd | src/query/QueryParser.js:58 | Each repeated character class of the pattern matches greedily: the run stops at the first character outside the class. |
| QueryLexer.KeywordText | src/query/QueryParser.js:70-81 | A keyword match, upper-cased with its white space replaced by `_`, is one of AND, OR, NOT, ORDER_BY, LIMIT and GROUP_BY. |
| QueryLexer.PairText | src/query/QueryParser.js:72 | `order   by` in any case and spacing becomes `ORDER_BY`, and likewise `GROUP_BY`. |
| QueryLexer.MatchToken | src/query/QueryParser.js:62-88 | Every single match becomes a token of the shape `Lex` promises. |
| QueryLexer.QuotedValueCut | src/query/QueryParser.js:58 | `ident:"word rest`, with a space after the word, matches as the field query `ident` with value `"word`, quote included, ending at the space. |
| QueryLexer.SingleFieldQuery | src/query/QueryParser.js:58-69 | A text made of one `ident:op value` lexes to exactly that one field-query token. |
| QueryLexer.NoRelativeTime | src/query/QueryParser.js:127 | A value that starts with `<` or `>` only when it is that single character is never read as a relative time. |
| LexerCases.QuotedWithSpace | src/query/queryGrammar.js:169 | The documented example `milestone:"Sprint 3"` lexes to the filter `milestone = "Sprint` and the bare token `3"`. |
| Parser.EmptyQuery | src/query/QueryParser.js:36-43 | The fresh query object has no filters, logic AND, no sort, no limit, null grouping and the given kind. |
| Parser.NormalizeOperator | src/query/QueryParser.js:226-246 | The empty operator becomes `=`; every other operator is kept unchanged. |
| Parser.AddFilter | src/query/QueryParser.js:192-221 | Succeeds exactly when the field is valid for the kind and the normalized operator is in the table, and then appends one filter and nothing else. Otherwise it fails with the field error or the operator error, the field checked first. |
| Parser.SetLogic | src/query/QueryParser.js:251-256 | AND and OR become the logic, anything else (NOT) leaves it, and the rest of the query is unchanged. |
| Parser.DirectionWord | src/query/QueryParser.js:269-276 | A direction word is only ever ASC or DESC. |
| Parser.OrderByClause | src/query/QueryParser.js:261-282 | Sets only the sort, to the next token's field. It consumes the token after that only when it reads ASC or DESC in any case; otherwise the direction is ASC. It throws exactly when that token's value is truthy and not a string. |
| Parser.LimitClause | src/query/QueryParser.js:287-300 | Always consumes the next token and changes only the limit, and only to a positive `parseInt` of that token. |
| Parser.GroupByClause | src/query/QueryParser.js:305-313 | Consumes the next token and sets only the grouping to its value or field. |
| Parser.FieldOf | src/query/QueryParser.js:266 | Defines the field a sort or grouping clause names: the token's value when truthy, else its field. `Parser.OrderByClause` and `Parser.GroupByClause` state what the clauses store. |
| Parser.Step | src/query/QueryParser.js:159-187 | Each turn of the walk moves the cursor forward within the tokens and keeps the record kind. |
| Parser.ParseFrom | src/query/QueryParser.js:159-187 | The walk only appends filters, each taken from a field-query token and valid for the kind. The logic ends as AND, OR or the starting logic, and a limit it sets is positive. |
| Parser.ParseQuery | src/query/QueryParser.js:27-51 | An empty or non-string query is refused before tokenizing, without prefix. Every other error carries the "查詢解析錯誤: " prefix. A result has the requested kind, logic AND or OR, and only valid filters. |
| Parser.QueryParser.constructor | src/query/QueryParser.js:16-19 | A parser starts with no tokens and the cursor at 0. |
| Parser.QueryParser.Parse | src/query/QueryParser.js:27-51 | Fills a fresh query object exactly as `ParseQuery` describes, or returns its error. |
| Parser.QueryParser.Tokenize | src/query/QueryParser.js:56-92 | The loop over the matches yields the tokens of `Lex`. |
| Parser.QueryParser.ParseExpression | src/query/QueryParser.js:159-187 | The cursor loop leaves the query as `ParseFrom` computes it, or stops with its error. |
| Parser.QueryParser.ParseFieldQuery | src/query/QueryParser.js:192-221 | Appends the filter `AddFilter` gives and advances the cursor by one, or returns the error. |
| Parser.QueryParser.ParseLogicOperator | src/query/QueryParser.js:251-256 | Updates the logic as `SetLogic` does and advances the cursor by one. |
| Parser.QueryParser.ParseOrderBy | src/query/QueryParser.js:261-282 | Moves the cursor and the sort as `OrderByClause` does. |
| Parser.QueryParser.ParseLimit | src/query/QueryParser.js:287-300 | Moves the cursor and the limit as `LimitClause` does. |
| Parser.QueryParser.ParseGroupBy | src/query/QueryParser.js:305-313 | Moves the cursor and the grouping as `GroupByClause` does. |
| Parser.QueryParser.ParseParentheses | src/query/QueryParser.js:318-322 | A parenthesis only advances the cursor. |
| Parser.ValidateQuery | src/query/QueryParser.js:327-340 | Refuses a query without filters. Otherwise it accepts exactly when every filter has a non-empty field and operator, and gives the filter error when one lacks them. |
| Parser.MathRound | src/query/QueryParser.js:365 | The result is the integer nearest to its argument, halves rounding up. |
| Parser.Complexity | src/query/QueryParser.js:358-366 | One per filter, plus 1 for a sort, 0.5 for a limit and 2 for a grouping. So it lies between the filter count and the filter count plus 3.5. |
| Parser.QueryStatistics | src/query/QueryParser.js:345-353 | Counts the filters. Each flag holds exactly when its clause is truthy: a sort, a non-zero limit, a truthy grouping field. The complexity is `calculateComplexity` of the query, and equals the filter count plus 1, 0.5 and 2 for the flags set. |
| ParserFacts.NormalizeIdempotent | src/query/QueryParser.js:226-246 | Normalizing an operator twice is normalizing it once. |
| ParserFacts.MalformedOperators | src/query/QueryParser.js:201-206 | `=>` and `!` survive normalization and are refused as operators. The empty operator is accepted as `=`. |
| ParserFacts.ValueCheckTotal | src/query/QueryParser.js:208-211 | Once the field check passes, the value check never throws. A doubtful value only triggers a warning. |
| ParserFacts.ClauseFreeParse | src/query/QueryParser.js:159-256 | Without ORDER BY, LIMIT or GROUP BY, parsing succeeds exactly when every field query passes its checks. It then appends one filter per field query in token order, and the logic is that of the last AND or OR. |
| ParserFacts.ParsedOperators | src/query/QueryParser.js:58-69 | A query parsed from text holds only the seven glyph operators, never `contains`, `in` or the other word operators, on valid lower-case fields. |
| ParserFacts.ParsedQueriesValidate | src/query/QueryParser.js:327-340 | Every filter of a successful parse has a non-empty field and operator, so a parse with filters passes `validateQuery`. |
| ParserCases.StatusOpen | src/query/QueryParser.js:27-51 | `status:open` on issues parses to one equality filter on the status with the text `open`, logic AND and nothing else set. |
| ParserCases.PointsAtLeastFive | src/query/QueryParser.js:192-221 | `points:>=5` on user stories parses to one `>=` filter with the number 5. |
| ParserCases.InvalidField | src/query/QueryParser.js:196-198 | `invalid_field:value` on issues is refused with the prefixed field error naming `invalid_field`. |
| ParserCases.RefusedField | src/query/QueryParser.js:196-198 | Any text that lexes to one field query on a field the kind lacks is refused, naming the field. |
| ParserCases.EmptyRefused | src/query/QueryParser.js:28-30 | The empty string and null are refused with the same unprefixed error. |
| ParserCases.OneFieldParse | src/query/QueryParser.js:192-221 | A single accepted field query yields exactly its filter. A field the kind lacks yields the field error. |
| ParserCases.SortedAndLimited | src/query/QueryParser.js:261-300 | The tokens of `status:open ORDER BY created DESC LIMIT 10` give one filter, sort by created DESC and limit 10. |
| ParserCases.StatsQuery | src/query/QueryParser.js:159-300 | The tokens of `status:open AND priority:high ORDER BY created DESC LIMIT 5` give two filters in order, logic AND, sort by created DESC and limit 5. |
| ParserCases.StatsExample | src/query/QueryParser.js:345-366 | That query's statistics are 2 filters, a sort, a limit, no grouping and complexity 3.5. |
| ParserCases.ParseIntDecimal | src/query/QueryParser.js:292 | `parseInt` of a decimal numeral without a leading zero is its value. |
| QueryCompare.GetFieldValue | src/query/QueryExecutor.js:167-181 | The loop over the dotted path gives the value of walking the path, and the walk never throws. |
| QueryCompare.FieldPath | src/query/QueryExecutor.js:169 | A sort or grouping field splits at dots exactly when it is a string, and otherwise throws a TypeError. |
| QueryCompare.FieldValueConcat | src/query/QueryExecutor.js:172-178 | Walking one path and then another is walking the two joined. |
| QueryCompare.FieldValueStops | src/query/QueryExecutor.js:173-177 | A walk through a value that is not a truthy object ends in undefined. |
| QueryCompare.FieldValue | src/query/QueryExecutor.js:171-180 | Defines the walk along the dotted path: each step reads the named property of a truthy object, and any other value on the way gives undefined. `QueryCompare.GetFieldValue`, `QueryCompare.FieldValueConcat` and `QueryCompare.FieldValueStops` state its properties. |
| QueryCompare.ToNumeric | src/query/QueryExecutor.js:322-329 | A number is itself and a string is its `Number` reading. Everything else is null. |
| QueryCompare.ToDate | src/query/QueryExecutor.js:334-344 | Gives a date exactly for a date, a number, or a string `Date.parse` accepts. |
| QueryCompare.Evaluate | src/query/QueryExecutor.js:108-162 | Defines the dispatch of `evaluateFilter` on the operator, over the record's value at the filter's field. `QueryCompare.Negations` and `QueryCompare.FailsOpen` state how the operators relate and that unknown ones keep the record. |
| QueryCompare.CompareEqual | src/query/QueryExecutor.js:186-197 | Defines equality: a missing value equals only null or `'null'`, two strings are compared ignoring case, and anything else by `===`. `QueryCompare.EqualMissing` and `QueryCompare.EqualStrings` state the first two cases. |
| QueryCompare.CompareGreater | src/query/QueryExecutor.js:202-220 | Defines `>` and `>=`: numerically when both sides read as numbers, else by time when both read as dates, else by JavaScript's loose comparison, which orders two strings by UTF-16 code units. `QueryCompare.NumericTotal` states the numeric case, and `QueryCompare.UnitsLessStrict`, `QueryCompare.BasicPlaneOrder` and `QueryCompare.SurrogatePairBeforeReplacement` state the string order. |
| QueryCompare.CompareLess | src/query/QueryExecutor.js:225-243 | Defines `<` and `<=` the same way as `compareGreater` with the order reversed, strings again by UTF-16 code units. `QueryCompare.GreaterIsMirroredLess` states that it is `compareGreater` with the arguments swapped. |
| QueryCompare.CompareContains | src/query/QueryExecutor.js:248-255 | Defines `contains`: both values truthy, and the item's text contains the query's, ignoring case. `QueryCompare.TextRulesNeedValues` states the truthiness guard. |
| QueryCompare.CompareStartsWith | src/query/QueryExecutor.js:260-267 | Defines `starts`: both values truthy, and the item's text starts with the query's, ignoring case. `QueryCompare.PrefixSuffixContain` states that it implies `contains`. |
| QueryCompare.CompareEndsWith | src/query/QueryExecutor.js:272-279 | Defines `ends`: both values truthy, and the item's text ends with the query's, ignoring case. `QueryCompare.PrefixSuffixContain` states that it implies `contains`. |
| QueryCompare.CompareFuzzy | src/query/QueryExecutor.js:284-293 | Defines `~`: both values truthy, and every word of the query occurs in the item's text, ignoring case. `QueryCompare.FuzzyOneWord` states it for a one-word query. |
| QueryCompare.CompareIn | src/query/QueryExecutor.js:298-306 | Defines `in`: the query must be an array; an array item needs one element in it, and any other item must be in it. `QueryCompare.InNeedsList` and `QueryCompare.InScalar` state both cases. |
| QueryCompare.IsEmpty | src/query/QueryExecutor.js:311-317 | Defines `isEmpty`: null, undefined, blank strings, empty arrays and objects without keys. `QueryCompare.EmptyCases` states the cases. |
| QueryCompare.Negations | src/query/QueryExecutor.js:113-153 | `!=` is the negation of `=`, `not_in` of `in`, and `exists` of `null`. |
| QueryCompare.FailsOpen | src/query/QueryExecutor.js:158-160 | An operator without a rule lets every record through. |
| QueryCompare.RangeAndWildcardPass | src/query/QueryExecutor.js:158-160 | The table's range `..` and wildcard `*` have no rule, so they never exclude a record. |
| QueryCompare.EqualMissing | src/query/QueryExecutor.js:187-189 | A record lacking the field equals only null and the text "null". |
| QueryCompare.EqualStrings | src/query/QueryExecutor.js:192-194 | Two strings are equal exactly when their lower-case forms agree, and the test is symmetric. |
| QueryCompare.GreaterIsMirroredLess | src/query/QueryExecutor.js:202-243 | `a > b` is `b < a` and `a >= b` is `b <= a`, whatever the values. |
| QueryCompare.NumericTotal | src/query/QueryExecutor.js:206-208 | On two numeric values `>=` is the negation of `<`, and `<=` the negation of `>`. |
| QueryCompare.UnitsLessStrict | src/query/QueryExecutor.js:219 | JavaScript's `<` on two strings, taken on their UTF-16 code units, never holds both ways and holds one way for different strings. |
| QueryCompare.BasicPlaneOrder | src/query/QueryExecutor.js:219 | For strings whose characters all lie below U+10000, `<` is exactly the order of code points. |
| QueryCompare.SurrogatePairBeforeReplacement | src/query/QueryExecutor.js:242 | A character written as a surrogate pair (U+1F600) is less than U+FFFD for `compareLess` on strings that are not dates, though its code point is greater. |
| QueryCompare.TextRulesNeedValues | src/query/QueryExecutor.js:248-293 | contains, starts-with, ends-with and `~` fail whenever either side is falsy. |
| QueryCompare.PrefixSuffixContain | src/query/QueryExecutor.js:248-279 | A record that starts with or ends with the query text also contains it. |
| QueryCompare.FuzzyOneWord | src/query/QueryExecutor.js:284-293 | For a one-word query, `~` is the same as contains. |
| QueryCompare.InNeedsList | src/query/QueryExecutor.js:298-306 | When the query value is not a list, `in` always fails and `not_in` always holds. |
| QueryCompare.InScalar | src/query/QueryExecutor.js:305 | A scalar is `in` a list exactly when the list holds an element strictly equal to it. |
| QueryCompare.EmptyCases | src/query/QueryExecutor.js:311-317 | null and undefined are empty. Blank strings, empty lists and objects without keys are empty. Numbers and booleans never are. |
| QueryFiltering.Keep | src/query/QueryExecutor.js:97-101 | Defines the test of one record: under OR some filter holds, under any other logic all of them. `QueryFiltering.LogicCornerCases` and `QueryFiltering.AndWithinOr` state how the two logics relate. |
| QueryFiltering.ApplyFilters | src/query/QueryExecutor.js:95-103 | Keeps only records of the input that pass the filters under the logic, and never more records than it was given. |
| QueryFiltering.FilterSubsequence | src/query/QueryExecutor.js:96 | The kept records are in their original order. |
| QueryFiltering.FilterCounts | src/query/QueryExecutor.js:96-102 | A passing record is kept as often as it occurs, and a failing one not at all. |
| QueryFiltering.FilterAppend | src/query/QueryExecutor.js:96 | Filtering two lists joined is filtering each and joining the results. |
| QueryFiltering.FilterIdempotent | src/query/QueryExecutor.js:95-103 | Filtering the result again changes nothing. |
| QueryFiltering.LogicCornerCases | src/query/QueryExecutor.js:97-101 | With one filter AND and OR agree. With no filters, AND keeps every record and OR none. |
| QueryFiltering.AndWithinOr | src/query/QueryExecutor.js:97-101 | With at least one filter, every record AND keeps is also kept by OR. |
| ExecutorCases.AndKeepsOne | src/query/QueryExecutor.js:95-103 | The three sample issues filtered by status and assignee under AND keep only the first. |
| ExecutorCases.OrKeepsThree | src/query/QueryExecutor.js:95-103 | The same issues filtered by priority or assignee under OR keep all three. |
| ExecutorCases.PlainEqual | src/query/QueryExecutor.js:186-197 | An `=` filter on a plain lower-case string field holds exactly when the texts are equal. |
| RecordSort.SortCompare | src/query/QueryExecutor.js:352-372 | Defines the comparator: missing values first, strings ignoring case, numbers by difference, anything else by string form, all negated under DESC. `RecordSort.CompareFlip` states that it is antisymmetric. |
| RecordSort.SortSpec | src/query/QueryExecutor.js:352 | The order the sort leaves keeps the length. `RecordSort.SortPermutes` and `RecordSort.SortSpecSorted` state that it is a permutation in comparator order. |
| RecordSort.CompareFlip | src/query/QueryExecutor.js:352-372 | The comparator is antisymmetric: exchanging the records negates its result, in either direction. |
| RecordSort.LexCompareFlip | src/query/QueryExecutor.js:364 | `localeCompare`, as modelled, is antisymmetric. |
| RecordSort.SortPermutes | src/query/QueryExecutor.js:352 | Sorting neither loses nor duplicates a record. |
| RecordSort.SortSpecSorted | src/query/QueryExecutor.js:352 | For any antisymmetric comparator, no two neighbours of the sorted records are out of order. |
| RecordSort.InsertAt | src/query/QueryExecutor.js:352 | One step of the insertion sort moves a record left past every greater one before it and leaves the rest of the array alone. |
| RecordSort.SortRecords | src/query/QueryExecutor.js:352-372 | The in-place sort leaves the first `n` records as the insertion-sort specification orders them, and the rest untouched. |
| RecordSort.DefinedRecords | src/query/QueryExecutor.js:352 | The records that are not `undefined`, the only ones `Array.prototype.sort` passes to the comparator. None of them is `undefined`. |
| RecordSort.UndefinedRecords | src/query/QueryExecutor.js:352 | The `undefined` records. Each is `undefined`, and with the others they make up the whole length. |
| RecordSort.PartitionPermutes | src/query/QueryExecutor.js:352 | Together the two parts hold every record exactly as often as the input does. |
| RecordSort.MoveUndefinedLast | src/query/QueryExecutor.js:352 | In place, the records that are not `undefined` move to the front in their order, and the `undefined` ones fill the end. |
| RecordSort.SortOutcome | src/query/QueryExecutor.js:349-373 | The outcome is a permutation of the records. The records that are not `undefined` come first and the `undefined` ones last. It fails exactly when at least two records are not `undefined` and the sort field is not a string. |
| RecordSort.ApplySorting | src/query/QueryExecutor.js:349-373 | Sorts the array in place as `SortOutcome` says, leaving it untouched when the comparator throws. |
| RecordSort.SortedParts | src/query/QueryExecutor.js:352-372 | With a string field, the front of the outcome is the comparator's order of the records that are not `undefined`, with no neighbours out of order. |
| RecordSort.FewDefined | src/query/QueryExecutor.js:352 | With fewer than two records that are not `undefined`, the comparator never runs, and the outcome is those records followed by the `undefined` ones. |
| RecordSort.MissingFirstAscending | src/query/QueryExecutor.js:359-362 | Under ASC every record missing the field comes before every record that has it, and the `undefined` records come after all of them. |
| RecordSort.MissingLastDescending | src/query/QueryExecutor.js:359-371 | Under DESC every record missing the field comes after every record that has it, and the `undefined` records come after all of them. |
| RecordSort.UndefinedSortsLast | src/query/QueryExecutor.js:352 | `[undefined, {x: 1}]` sorted by `x` ASC gives `[{x: 1}, undefined]`. |
| RecordSort.UndefinedNeverCompared | src/query/QueryExecutor.js:352 | Two `undefined` records sorted by a field that is not a string give the records unchanged, not an error. |
| RecordSort.NumbersAscending | src/query/QueryExecutor.js:365-366 | When every value is a number, ASC orders the records by value. |
| RecordGroups.GroupKey | src/query/QueryExecutor.js:382-383 | Defines the group key: the string form of the field value, or `'undefined'` for a falsy value. `RecordGroups.FalsyShareGroup` states that falsy values share a group. |
| RecordGroups.KeysSeen | src/query/QueryExecutor.js:381-390 | Defines the order in which the keys of `grouped` are first created. `RecordGroups.KeysSeenExact` states that it lists each key of the records once. |
| RecordGroups.BucketMap | src/query/QueryExecutor.js:379-391 | Defines the object `grouped` after every push. `RecordGroups.BucketMapMatches` and `RecordGroups.BucketContents` state what each bucket holds. |
| RecordGroups.GroupObject | src/query/QueryExecutor.js:393-397 | Defines one `{groupValue, count, items}` object. `RecordGroups.Entries` and `RecordGroups.GroupCountsTotal` state the objects built from the buckets. |
| RecordGroups.KeysSeenExact | src/query/QueryExecutor.js:381-390 | The group keys are exactly the keys some record has, each listed once. |
| RecordGroups.BucketMapMatches | src/query/QueryExecutor.js:381-390 | The map built record by record holds, for each key, exactly the records with that key, in order. |
| RecordGroups.BucketContents | src/query/QueryExecutor.js:381-390 | A group holds every record with its key as often as it occurs, and nothing else. |
| RecordGroups.FalsyShareGroup | src/query/QueryExecutor.js:382-383 | Records whose value is missing or falsy share the group "undefined" with records whose value is that text. |
| RecordGroups.EntryOrderShape | src/query/QueryExecutor.js:393 | `Object.entries` lists array-index keys first in ascending numeric order, then the other keys in the order they were added. |
| RecordGroups.EntryOrderPermutes | src/query/QueryExecutor.js:393 | The entry order lists every key exactly as often as before. |
| RecordGroups.Entries | src/query/QueryExecutor.js:393-397 | There is one group object per key, holding the key, the count and the records of its group. |
| RecordGroups.Grouped | src/query/QueryExecutor.js:378-398 | Defines the grouping of non-empty data: the buckets of the keys, in `Object.entries` order. `RecordGroups.BucketContents` and `RecordGroups.GroupCountsTotal` state what each group holds and that no record is lost. |
| RecordGroups.GroupOutcome | src/query/QueryExecutor.js:378-398 | Fails exactly when there are records and the grouping field is not a string. No records give no groups. |
| RecordGroups.ApplyGrouping | src/query/QueryExecutor.js:378-398 | The `forEach` loop into the buckets gives the outcome of `GroupOutcome`. |
| RecordGroups.GroupCountsTotal | src/query/QueryExecutor.js:393-397 | The group counts add up to the number of records grouped. |
| QueryExecutor.AllTasks | src/query/QueryExecutor.js:80-87 | The task fetch over the stories throws exactly when some story is null or undefined, and then throws a TypeError. |
| QueryExecutor.StoryTasks | src/query/QueryExecutor.js:80-86 | One story's step throws exactly when the story is null or undefined, because the warning reads `story.id` again, and then throws a TypeError. Otherwise it gives the tasks `listTasks` returns for the story's id, or no tasks when that call fails or the service has no `listTasks`. |
| QueryExecutor.FetchAllTasks | src/query/QueryExecutor.js:76-90 | The loop over the stories gives what `FetchData` specifies for a TASK query: the story-listing error, or the stories' tasks in order (see `AllTasks`). |
| QueryExecutor.FetchData | src/query/QueryExecutor.js:59-71 | Any type other than ISSUE, USER_STORY and TASK throws the unsupported-type error. |
| QueryExecutor.Fetch | src/query/QueryExecutor.js:59-71 | Fetches exactly what `FetchData` specifies. |
| QueryExecutor.Slice | src/query/QueryExecutor.js:41 | `slice(0, n)` is a prefix of length `n`, or of length plus `n` for a negative `n`, cut off at the data's length. |
| QueryExecutor.HasLimit | src/query/QueryExecutor.js:40 | Defines the test `if (query.limit)`: a limit is set and not zero. `QueryExecutor.LimitIsPrefix` and `QueryExecutor.LimitCountsGroups` state what the limit then keeps. |
| QueryExecutor.Staged | src/query/QueryExecutor.js:24-37 | Defines the filter, sort and group stages, each applied only when the query asks for it. `QueryExecutor.NoStagesNoChange` and `QueryExecutor.ResultsAreKeptRecords` state what the stages keep. |
| QueryExecutor.ExecuteSpec | src/query/QueryExecutor.js:19-54 | On success, `total` is the number of results and the query is returned unchanged. Every failure carries the "查詢執行失敗: " prefix. |
| QueryExecutor.Execute | src/query/QueryExecutor.js:19-54 | The stages, applied one after another, give the outcome of `ExecuteSpec`. |
| QueryExecutor.NoStagesNoChange | src/query/QueryExecutor.js:25-42 | A query with no filters, sort, grouping or limit returns the fetched records unchanged. |
| QueryExecutor.UnsupportedType | src/query/QueryExecutor.js:68-69 | An unsupported type throws the unsupported-type error wrapped in the execution prefix. |
| QueryExecutor.LimitIsPrefix | src/query/QueryExecutor.js:40-42 | A positive limit keeps at most that many results, and they are the first results of the earlier stages. |
| QueryExecutor.LimitCountsGroups | src/query/QueryExecutor.js:35-42 | When grouping, the limit counts groups, not records. |
| QueryExecutor.ResultsAreKeptRecords | src/query/QueryExecutor.js:22-42 | Without grouping, every result is a fetched record that passes the filters. Without a limit, the results are the kept records, reordered only. |
| QueryExecutor.NoListTasksNoTasks | src/query/QueryExecutor.js:80-87 | When the service lacks `listTasks`, every story's call fails inside the `try`, so a TASK query sees no records. The service of src/taigaService.js defines no `listTasks`, so as written every TASK query returns no records. |
| QueryExecutor.NullStoryAborts | src/query/QueryExecutor.js:80-87 | A null or undefined story makes the whole task fetch throw. |
| QueryExecutor.AllTasksAppend | src/query/QueryExecutor.js:80-87 | The tasks of two runs of stories are those of the first followed by those of the second, the first error winning. |
| Utils.CallLower | src/utils.js:62 | `toLowerCase` succeeds exactly on strings and gives their lower-case form. |
| Utils.FindByName | src/utils.js:76-78 | A found element is an element of the collection, and an empty collection finds nothing. |
| Utils.FindByNameFirst | src/utils.js:76-78 | Over named records, the search finds the first record whose name equals the one sought ignoring case, or nothing. |
| Utils.FindIdByName | src/utils.js:73-80 | An empty or falsy name gives undefined without looking at the collection, and only a truthy name can throw. |
| Utils.FindIdFirst | src/utils.js:73-80 | Over named records, a non-empty name gives the id of the first record with that name ignoring case, or undefined. |
| Utils.FindId | src/utils.js:73-80 | A truthy name with a collection that is not an array throws. An empty array gives undefined. |
| Utils.FindStatusIdByName | src/utils.js:58-65 | An empty or falsy status name gives undefined, and only a truthy name can throw. |
| Utils.StatusLookupSameAsIdLookup | src/utils.js:58-80 | The two lookups succeed together and then agree. |
| Utils.FindIdIgnoresCase | src/utils.js:76-78 | The upper-case and the original spelling of a name give the same id or the same error. |
| Utils.FindByNameIgnoresCase | src/utils.js:61-63 | Two names that agree in lower case find the same record. |
| Utils.GetStatusLabel | src/utils.js:151-153 | 'Closed' exactly for a truthy flag, 'Active' otherwise. |
| Utils.GetSafeValue | src/utils.js:161-163 | A truthy value is kept, and every falsy value gives the default. A default passed as undefined is replaced by 'Unknown', so the result is never undefined. |
| Utils.GetSafeValueOrUnknown | src/utils.js:161-163 | Without a default, the result is the value or 'Unknown', and always truthy. |
| Utils.FalsyValuesFallBack | src/utils.js:161-163 | 0, the empty string, false, null and undefined all give the default, or 'Unknown' when the default is undefined. |
| Utils.SafeValueIdempotent | src/utils.js:161-163 | Applying the fallback twice with the same default is applying it once. |
| Utils.ResolveProjectId | src/utils.js:15-22 | An identifier that reads as a number is returned unchanged. A slug is replaced by the `id` of the project the service finds for it. |
| Utils.IsNaN | src/utils.js:16 | Defines `isNaN`: the value does not convert to a number. `Utils.ResolveProjectId` states how it chooses between id and slug. |
| Utils.StartsWithHash | src/utils.js:33 | `startsWith('#')` succeeds exactly on strings and holds exactly when the first character is `#`. |
| Utils.ResolveIssue | src/utils.js:30-50 | A `#` reference without a project fails with the project-required error. Any other string goes to `getIssue` unchanged. A value that is not a string throws a TypeError. |
| Utils.ReferenceLookup | src/utils.js:39-45 | A `#ref` with a project goes to `getIssueByRef` with the text after `#` and the id the project identifier resolves to, be it numeric or a slug. When resolving fails, that error is thrown. |
| Utils.NumericProjectLookup | src/utils.js:39-45 | A numeric project identifier is passed to `getIssueByRef` unchanged, since `resolveProjectId` returns it as it is. |
| Utils.NoProjectNoCall | src/utils.js:35-37 | A reference without a project fails the same way whatever the service would answer. |
| Utils.IdIgnoresProject | src/utils.js:48-49 | Without the `#` prefix the project identifier makes no difference. |
| CommentHistory.CommentTest | src/tools/commentTools.js:145-147 | Throws exactly on a null or undefined entry, or on a type-1 entry whose truthy comment is not a string. Otherwise it holds exactly for a type-1 entry with non-blank comment text. |
| CommentHistory.IsComment | src/tools/commentTools.js:144-147 | Defines a comment entry: type 1 and a comment string that is not blank. `CommentHistory.CommentTest` states that the test is true exactly for such entries, and `CommentHistory.FilterEntriesSound` states that the filter keeps exactly them. |
| CommentHistory.FilterEntriesThrows | src/tools/commentTools.js:143-148 | The filter throws exactly when some entry makes the test throw. |
| CommentHistory.FilterCommentsFromHistory | src/tools/commentTools.js:140-149 | Anything but an array gives no comments, and a throw comes only from an entry that makes the test throw. |
| CommentHistory.FilterEntries | src/tools/commentTools.js:143-148 | The filter over the history entries keeps at most as many entries as there are. `CommentHistory.FilterEntriesSound` states which entries it keeps. |
| CommentHistory.FilterEntriesSound | src/tools/commentTools.js:143-148 | The comments are a subsequence of the history and each of them is a comment entry. Every comment entry occurs in the result exactly as often as in the history, and every other entry does not occur at all. |
| CommentHistory.AllCommentsKept | src/tools/commentTools.js:143-148 | A history of comment entries only is kept whole. |
| CommentHistory.Idempotent | src/tools/commentTools.js:140-149 | Filtering the comments again changes nothing. |
| CommentHistory.NoThrowOnPlainEntries | src/tools/commentTools.js:143-148 | A history of objects whose comments are strings, or absent, never throws. |
| TaigaEndpoints.Constant | src/constants.js:44-57 | A constant is a string exactly when the endpoint table defines its name, and then it is that entry. |
| TaigaEndpoints.ApiEndpoints | src/constants.js:44-57 | Defines the endpoint constants. `TaigaEndpoints.Constant`, `TaigaEndpoints.ItemEndpoints` and `TaigaEndpoints.AttachmentEndpointUndefined` state what is read from it. |
| TaigaEndpoints.LookupOr | src/taigaService.js:528 | A truthy entry is returned, and anything else gives the fallback. |
| TaigaEndpoints.ItemEndpoint | src/taigaService.js:522-529 | The item endpoint is always one of `/issues`, `/userstories` and `/tasks`. |
| TaigaEndpoints.HistoryObjectType | src/taigaService.js:535-542 | The history object type is always one of `issue`, `userstory` and `task`. |
| TaigaEndpoints.ItemEndpoints | src/taigaService.js:522-529 | The endpoints are `/issues`, `/userstories` and `/tasks`, and `/issues` for every other type. |
| TaigaEndpoints.HistoryObjectTypes | src/taigaService.js:535-542 | The history type is `userstory` for user stories and the type itself for issues and tasks. Every other type gives `issue`. |
| TaigaEndpoints.TablesAgree | src/taigaService.js:522-542 | Two item types share an endpoint exactly when they share a history object type. |
| TaigaEndpoints.AttachmentEndpointAsWritten | src/taigaService.js:693-700 | Defines `getAttachmentEndpoint` as written, reading constants that src/constants.js:44-57 does not define. `TaigaEndpoints.AttachmentEndpointUndefined` states that it is undefined for every type. |
| TaigaEndpoints.AttachmentEndpointUndefined | src/taigaService.js:693-700 | As written, every item type gets undefined, and `issue` never gets `/issues/attachments`. |
| TaigaEndpoints.AttachmentEndpoint | src/taigaService.js:693-700 | Defines `getAttachmentEndpoint` over constants that include the three attachment endpoints. `TaigaEndpoints.AttachmentEndpointsDefined` and `TaigaEndpoints.AttachmentUnderItem` state its results. |
| TaigaEndpoints.AttachmentEndpoints | test/attachmentTest.js:237-240 | Defines the endpoint constants with the three attachment endpoints added. `TaigaEndpoints.AttachmentEndpointsDefined` and `TaigaEndpoints.AttachmentUnderItem` state the endpoints read from it. |
| TaigaEndpoints.AttachmentEndpointsDefined | test/attachmentTest.js:237-240 | With the attachment constants defined, issue, user story and task get their own attachment endpoints, and an unknown type gets the issue one. |
| TaigaEndpoints.AttachmentUnderItem | src/taigaService.js:693-700 | Every type's attachment endpoint is its item endpoint followed by `/attachments`, unknown types included. |

## Left out

- Property lookup by prototype names (`constructor`, `toString`, `__proto__`):
  objects are their own properties only. A record or group key with such a
  name behaves differently in JavaScript.
- Numbers are integers. A text `Number` would read as a fraction, an exponent
  or `Infinity` is not a number in the model. Floating-point rounding is not
  modelled.
- Case mapping covers ASCII letters only. `localeCompare` is the order of
  code points, not a locale collation.
- `Date.parse`, the text of `Date.prototype.toString` and the clock are
  parameters (`Env`). The calendar is the UTC one: no local time zone.
- RecordSort.SortRecords: the engine's sort algorithm is not modelled. The
  model sorts by stable insertion, which is the only stable result for a
  consistent comparator. On mixed kinds of values the comparator is not
  transitive, and the engine may order differently.
- The Taiga REST calls (`listIssues`, `listUserStories`, `listTasks`,
  `getProjectBySlug`, `getIssue`, `getIssueByRef`) are function parameters.
  They are synchronous, and awaiting is not modelled.
- Logging (`console.log`, `console.warn`) is left out. This includes the
  warning `parseFieldQuery` prints for a doubtful value, which has no effect
  on the result.
- `executionTime` is the clock reading of `Env`.
- `getExecutionStats` and the display helpers of src/utils.js (`formatDate`,
  `formatDateTime`, `calculateCompletionPercentage`, the response and list
  formatters) are not part of this model.
- The rest of src/taigaService.js (HTTP, authentication, uploads) and the
  MCP tool handlers are not part of this model.
- The texts of TypeErrors thrown by the engine are modelled as fixed
  descriptive texts, not the engine's exact wording.
- QueryExecutor.FetchData: the result is stated only for unsupported types;
  the three listing calls are passed through as given.
- Utils.FindByName: the element found is not tied to the first match when
  some element lacks a string name; `Utils.FindByNameFirst` covers
  collections of named records.
- Parser.ParseQuery: the record kind is always passed. `parse(queryString)`
  with the type left out, or passed as undefined, is `ParseQuery(input,
  "ISSUE", env)`; a type that is not a string is not modelled.
- Utils.ResolveProjectId: the result is stated only for numeric identifiers
  and for slugs the service resolves to an object. Errors of
  `getProjectBySlug` pass through.

## Findings

| source | as written | input that shows it | evidently intended | confidence | as-written member | corrected member |
|---|---|---|---|---|---|---|
| src/taigaService.js:693-700 | Reads `ISSUE_ATTACHMENTS`, `USERSTORY_ATTACHMENTS` and `TASK_ATTACHMENTS` from the endpoint constants of src/constants.js:44-57, which define none of them, so the result is undefined for every item type | `getAttachmentEndpoint('issue')` | `/issues/attachments`, `/userstories/attachments`, `/tasks/attachments`, and the issue endpoint for other types, as test/attachmentTest.js:237-240 expects | not executed | TaigaEndpoints.AttachmentEndpointUndefined | TaigaEndpoints.AttachmentUnderItem |
