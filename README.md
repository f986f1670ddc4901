# Fluent MySQL SELECT builder

This project models the `Mysql` driver class of the framework's database
layer. The class is a fluent builder: each call appends a fragment of SQL to
one of eight string properties, and binds the values the fragment mentions
to fresh placeholders. The properties are the table, the columns, where,
group by, having, order by, join and the built statement. A terminal call
(`get`, `row`, `debugDumpParams`, `list`, `count`, `sum`, `max`, `min`, `avg`)
assembles `SELECT … FROM …`, hands the statement and its bindings to the
database, and resets the builder.

Nested statements (`whereBrackets`, `whereExists`, `whereInSub`, `fromSub`)
run a callback on the same object. Around the callback, `subBuilder` saves the
structural properties, clears them, builds the inner statement, captures it,
and restores the saved values. The bindings are not saved, so they are shared
by the whole statement.

The model has three layers.

- `Text`, `Quoting` and `Commands` hold the value-level pieces. `Text` has the
  decimal id text, `rtrim`/`ltrim` with a character mask, `implode`, and
  first-occurrence search and removal. `Quoting` is `_backquote`.
  `Commands` has the argument values, the three exceptions, and `Cmd`: one
  fluent call, with a callback modelled as the sequence of calls it makes.
- `Semantics` is the reference semantics. A `State` is the eight properties,
  the bindings and the id counter. There is one function per fluent call, and
  an interpreter (`Exec`, `ExecAll`, `SubBuilder`) runs callbacks through any
  depth of nesting. `Properties`, `Scoping` and `Scenarios` prove what the
  builder promises about these functions.
- `Driver.Mysql` is the object itself. It is a class with the source's
  properties as mutable fields, and one method per operation, with the
  source's loops. Every method is proved to leave the object in the state
  that the `Semantics` function gives for the old state and the arguments.
  An exception is returned as an error value, and the state it leaves matches
  what the source has changed before it throws.

`uniqid()` is modelled as a counter `nextId`. Each placeholder is `:` followed
by the decimal text of an id, and `fromSub` names its derived table `tb_`
followed by one id. Bindings are a map from the id to the value. Distinct
ids give distinct placeholders (`Semantics.PlhInjective`), so this map is the
source's placeholder-keyed array with its keys renamed.

The source's default arguments (`mode = 'ASC'`, `type = 'INNER'`,
`condition = 'IN'`/`'NULL'`/`'EXISTS'`, `operator = 'AND'`, `field = '*'`)
are the default parameter values of the corresponding `Semantics` functions,
`Commands.Cmd` constructors and `Driver.Mysql` methods.

## Model

| member | source | states |
|---|---|---|
| Text.NatStrInjective | Framework/DB/Drivers/Mysql.php:113-115 | distinct ids have distinct decimal texts, so the stand-in for `uniqid` never repeats a placeholder |
| Semantics.PlhInjective | Framework/DB/Drivers/Mysql.php:113-115 | two placeholders `:<id>` are equal only when their ids are equal |
| Semantics.PlhInjectiveAll | Framework/DB/Drivers/Mysql.php:113-115 | the placeholder function is injective over all ids |
| Text.TrimRight | Framework/DB/Drivers/Mysql.php:259 | `rtrim` with a mask: the result is a prefix of the input, it does not end in a mask character, and every character removed is in the mask |
| Text.TrimLeft | Framework/DB/Drivers/Mysql.php:203 | `ltrim` with a mask: the result is a suffix of the input and does not start with a mask character, and every character removed is in the mask |
| Text.CharsOf | Framework/DB/Drivers/Mysql.php:259 | the mask `rtrim` reads from the operator string holds exactly the operator's characters |
| Text.TrimRightKeeps | Framework/DB/Drivers/Mysql.php:259 | trimming a mask never cuts into a prefix whose last character is outside the mask |
| Text.FindFrom | Framework/DB/Drivers/Mysql.php:436 | the search used to remove the first `WHERE` returns the first occurrence at or after the start, or reports that there is none |
| Quoting.SplitQualified | Framework/DB/Drivers/Mysql.php:121 | a string recognised as qualified is exactly `<word>.<word>` |
| Quoting.SplitAlias | Framework/DB/Drivers/Mysql.php:119 | a string recognised as an alias is exactly `<dotted word> <AS/as/As> <word>` |
| Quoting.SplitQualifiedOf | Framework/DB/Drivers/Mysql.php:121 | every `<word>.<word>` is recognised as qualified, with its two words |
| Quoting.SplitAliasOf | Framework/DB/Drivers/Mysql.php:119 | every `<dotted word> <keyword> <word>` is recognised as an alias, with its three parts |
| Quoting.Backquote | Framework/DB/Drivers/Mysql.php:117-143 | the result is either the input, for a function call, or a string that ends in a backquote |
| Quoting.BackquoteWord | Framework/DB/Drivers/Mysql.php:141-142 | a bare identifier is wrapped in backquotes |
| Quoting.BackquoteQualified | Framework/DB/Drivers/Mysql.php:134-136 | `t.f` becomes `` `t`.`f` `` |
| Quoting.BackquoteAlias | Framework/DB/Drivers/Mysql.php:127-133 | `e AS a` becomes `` `e` AS `a` `` |
| Quoting.BackquoteQualifiedAlias | Framework/DB/Drivers/Mysql.php:127-133 | `t.f AS a` becomes `` `t`.`f` AS `a` ``: the expression is quoted part by part |
| Quoting.BackquoteCall | Framework/DB/Drivers/Mysql.php:137-140 | a call `name(args)` whose arguments use the allowed characters passes through unchanged |
| Quoting.BackquoteUnchangedIff | Framework/DB/Drivers/Mysql.php:117-143 | the input comes back unchanged if and only if it is neither an alias nor a qualified name and it contains a call |
| Semantics.Plhs | Framework/DB/Drivers/Mysql.php:354-358 | the `whereIn` placeholders are made from consecutive ids, one per value, in order |
| Properties.BindAllFresh | Framework/DB/Drivers/Mysql.php:253-259 | binding values from a fresh id keeps every earlier binding, binds value j under id next+j, binds nothing else, and grows the map by the number of values |
| Properties.BindAllKeeps | Framework/DB/Drivers/Mysql.php:253-257 | binding more values keeps every earlier binding |
| Properties.BindAllValues | Framework/DB/Drivers/Mysql.php:253-257 | value j is bound under id next+j |
| Properties.BindAllBounded | Framework/DB/Drivers/Mysql.php:253-257 | no id at or past the counter is bound, and the map grows by exactly the number of values |
| Properties.ConditionErrors | Framework/DB/Drivers/Mysql.php:241-275 | the condition fails if and only if there are 0 or more than 3 arguments, a single argument is not an array, or a three-argument operator is not one of `< > <= >= = != <>`; each case raises its own message |
| Properties.ConditionBindings | Framework/DB/Drivers/Mysql.php:241-275 | a successful condition adds one binding per value it mentions, under fresh ids, and keeps every earlier binding |
| Properties.ConditionMapText | Framework/DB/Drivers/Mysql.php:253-259 | the array form appends its `field = :plh` terms joined by the operator, with the trailing operator trimmed away |
| Properties.TrimSuffixed | Framework/DB/Drivers/Mysql.php:259 | trimming the operator's characters removes exactly the last operator, and nothing of the term before it |
| Properties.TrimOperator | Framework/DB/Drivers/Mysql.php:259 | `rtrim` of a body ending in a space followed by `AND` or `OR` gives back the body |
| Properties.ConditionPrefix | Framework/DB/Drivers/Mysql.php:241-275 | a successful condition only appends to the fragment passed by reference |
| Properties.ConditionOnRule | Framework/DB/Drivers/Mysql.php:320-334 | `where`/`having` first write the keyword or the connector, then only append to that clause; no other clause changes; on an exception, the keyword stays and the bindings are unchanged |
| Properties.WhereCompare | Framework/DB/Drivers/Mysql.php:267-274 | a three-argument `where` with an allowed operator appends `` `field` op :plh `` and binds the value under the fresh id |
| Properties.WhereInRule | Framework/DB/Drivers/Mysql.php:352-367 | `whereIn` only appends to the where clause, binds value j under id next+j, keeps earlier bindings and moves the counter by the number of values |
| Properties.WhereBetweenRule | Framework/DB/Drivers/Mysql.php:381-396 | `whereBetween` only appends to the where clause and binds the low and the high value under two fresh ids, in that order |
| Properties.WhereNullRule | Framework/DB/Drivers/Mysql.php:402-413 | `whereNull` only appends to the where clause and binds nothing |
| Properties.GroupByRule | Framework/DB/Drivers/Mysql.php:502-511 | the first `groupBy` starts ` GROUP BY `, later ones append ` , `; each adds the quoted field and nothing else changes |
| Properties.OrderByRule | Framework/DB/Drivers/Mysql.php:543-552 | the first `orderBy` starts ` ORDER BY `, later ones append ` , `; each adds the quoted field and the mode, and nothing else changes |
| Properties.JoinAppends | Framework/DB/Drivers/Mysql.php:554-559 | `join` only appends to the join clause and binds nothing |
| Properties.ColumnListImplode | Framework/DB/Drivers/Mysql.php:151-154 | the `select` loop builds the quoted columns joined by `, `, with a leading space and a trailing comma |
| Properties.TrimListed | Framework/DB/Drivers/Mysql.php:155 | `rtrim(…, ',')` removes exactly the trailing comma when the last column does not end in one |
| Properties.SelectColsSpec | Framework/DB/Drivers/Mysql.php:145-159 | no columns, or `*` among them, select ` * `; otherwise the columns are the quoted names joined by `, ` |
| Scoping.ExecExtends | Framework/DB/Drivers/Mysql.php:241-275 | any one fluent call keeps every earlier binding, never moves the counter back, and binds only ids it has handed out |
| Scoping.NestedExtends | Framework/DB/Drivers/Mysql.php:427-500 | the same, for the calls that take a callback |
| Scoping.WhereFormExtends | Framework/DB/Drivers/Mysql.php:427-494 | the same, for `whereBrackets`, `whereExists` and `whereInSub` |
| Scoping.FromSubExtends | Framework/DB/Drivers/Mysql.php:496-500 | the same, for `fromSub`, whose callback and alias id both only add bindings |
| Scoping.ConditionExtends | Framework/DB/Drivers/Mysql.php:320-350 | the same, for `where`, `orWhere`, `having` and `orHaving` |
| Scoping.PlainExtends | Framework/DB/Drivers/Mysql.php:352-425 | the same, for the other calls |
| Scoping.ExecAllExtends | Framework/DB/Drivers/Mysql.php:277-318 | a whole callback keeps the bindings made before it |
| Scoping.SubBuilderExtends | Framework/DB/Drivers/Mysql.php:277-318 | `subBuilder` keeps the bindings made before it |
| Scoping.WhereSubExtends | Framework/DB/Drivers/Mysql.php:427-482 | the where forms with a callback keep the bindings made before them |
| Scoping.ConditionOnExtends | Framework/DB/Drivers/Mysql.php:320-334 | a condition keeps the bindings made before it |
| Scoping.SubBuilderIsolation | Framework/DB/Drivers/Mysql.php:277-318 | with a callback that succeeds, the outer properties come back unchanged, the bindings and counter are the callback's, and the captured fields are the inner ones with the inner statement built; with a callback that throws, the state is left as the callback left it |
| Scoping.WhereSubIsolation | Framework/DB/Drivers/Mysql.php:427-482 | after a callback that returns, a nested where form changes only the where clause; that clause is the text written before the callback, then the callback's where fragment without its first `WHERE` (or the callback's whole statement), then ` ) `; the bindings and the counter are the callback's |
| Scoping.WhereBracketsIsolation | Framework/DB/Drivers/Mysql.php:427-439 | `whereBrackets` changes only the where clause: the keyword or connector, `( `, the callback's where fragment without its first `WHERE`, and ` ) `; the bindings and the counter are the callback's |
| Scoping.FromSubIsolation | Framework/DB/Drivers/Mysql.php:496-500 | `fromSub` changes only the table, by appending, and uses one more id after the callback's |
| Scoping.RemoveLeadingWhere | Framework/DB/Drivers/Mysql.php:436 | removing the first `WHERE` from a nested where clause leaves its conditions |
| Scenarios.QuoteStatus | Framework/DB/Drivers/Mysql.php:141-142 | `status` is quoted as `` `status` `` |
| Scenarios.QuoteUsersId | Framework/DB/Drivers/Mysql.php:134-136 | `users.id` is quoted as `` `users`.`id` `` |
| Scenarios.QuoteCount | Framework/DB/Drivers/Mysql.php:137-140 | `COUNT(*)` is left as it is |
| Scenarios.WhereErrorExamples | Framework/DB/Drivers/Mysql.php:241-275 | `where('status')`, `where('name', 'LIKE', …)` and a four-argument `where` raise their three exceptions after ` WHERE ` has been written |
| Scenarios.FirstMapWhere | Framework/DB/Drivers/Mysql.php:320-334 | the first `where([f => v])` writes `` WHERE  `f` = :n `` and binds v under n |
| Scenarios.NextCompareWhere | Framework/DB/Drivers/Mysql.php:320-334 | a later `where(f, op, v)` appends `` AND  `f` op :n `` and binds v under n |
| Scenarios.MapThenCompareScenario | Framework/DB/Drivers/Mysql.php:174-183 | `table(t)->where([f1 => v1])->where(f2, op, v2)->get()` runs the statement with both conditions, binds both values, and leaves a new builder with the counter advanced by two |
| Scenarios.HavingOnEmpty | Framework/DB/Drivers/Mysql.php:513-526 | the first `having(f, v)` writes `` HAVING  `f` = :n `` into the having clause and nothing else, and binds v under the fresh id n |
| Scenarios.BracketsDropHaving | Framework/DB/Drivers/Mysql.php:427-439 | on a builder without a where clause, `whereBrackets` around a callback that only calls `having(f, v)` writes ` WHERE (  ) `, drops the having fragment, leaves every other clause as it was, and still binds v under the fresh id; neither the where nor the having clause mentions that placeholder |
| Scenarios.BracketsDropHavingUnused | Framework/DB/Drivers/Mysql.php:427-439 | on a new builder the same call binds one value, and the statement it builds contains that value's placeholder nowhere |
| Scenarios.InListState | Framework/DB/Drivers/Mysql.php:352-367 | `table(t)->whereIn(f, [a, b])` writes `` WHERE `f` IN (:n,:n+1) `` and binds a and b in order |
| Scenarios.InListCountScenario | Framework/DB/Drivers/Mysql.php:201-210 | followed by `count()`, the statement counts the rows of that `IN` list, with the two bindings |
| Scenarios.CountOf | Framework/DB/Drivers/Mysql.php:201-210 | `count()` with `*` leaves `*` unquoted and selects `COUNT(*) AS count_num` |
| Scenarios.SqlOf | Framework/DB/Drivers/Mysql.php:96-102 | the statement built from a table and a where clause alone |
| Scenarios.ResetScenario | Framework/DB/Drivers/Mysql.php:73-83 | after a terminal call, the next statement contains nothing of the previous one and has no bindings |
| Driver.FieldIndex | Framework/DB/Drivers/Mysql.php:280-289 | every structural property is on the list `subBuilder` saves and restores |
| Driver.Mysql.constructor | Framework/DB/Drivers/Mysql.php:22-43 | a new builder has empty clauses, ` * ` columns and no bindings, and satisfies `Valid` |
| Driver.Mysql.SetProperty | Framework/DB/Drivers/Mysql.php:314 | assigning a property by name changes that property alone |
| Driver.Mysql.Uniqid | Framework/DB/Drivers/Mysql.php:498 | each id is handed out once and is not yet bound, and the counter moves on |
| Driver.Mysql.GetPlh | Framework/DB/Drivers/Mysql.php:113-115 | a placeholder made from a fresh id that no binding uses yet |
| Driver.Mysql.Reset | Framework/DB/Drivers/Mysql.php:73-83 | clears the properties and the bindings, and keeps the counter |
| Driver.Mysql.ResetBuildStr | Framework/DB/Drivers/Mysql.php:85-94 | clears the properties, and keeps the bindings and the counter |
| Driver.Mysql.BuildQuery | Framework/DB/Drivers/Mysql.php:96-102 | assembles the statement from the clauses in their SQL order |
| Driver.Mysql.Table | Framework/DB/Drivers/Mysql.php:67-70 | sets the quoted table name |
| Driver.Mysql.Select | Framework/DB/Drivers/Mysql.php:145-159 | the column loop and the trim give the columns of `Semantics.Select` (see `Properties.SelectColsSpec`) |
| Driver.Mysql.MapCondition | Framework/DB/Drivers/Mysql.php:253-259 | the loop over the array form appends one term and binds one value per entry under consecutive ids, then trims the operator |
| Driver.Mysql.ConditionConstructor | Framework/DB/Drivers/Mysql.php:241-275 | returns the extended fragment with the new bindings, or the exception with nothing changed |
| Driver.Mysql.WhereCondition | Framework/DB/Drivers/Mysql.php:320-350 | the shared body of `where` and `orWhere` |
| Driver.Mysql.Where | Framework/DB/Drivers/Mysql.php:320-334 | `where` with `AND` (see `Properties.ConditionOnRule`) |
| Driver.Mysql.OrWhere | Framework/DB/Drivers/Mysql.php:336-350 | `where` with `OR` |
| Driver.Mysql.HavingCondition | Framework/DB/Drivers/Mysql.php:513-541 | the shared body of `having` and `orHaving` |
| Driver.Mysql.Having | Framework/DB/Drivers/Mysql.php:513-526 | `having` with `AND` |
| Driver.Mysql.OrHaving | Framework/DB/Drivers/Mysql.php:528-541 | `having` with `OR` |
| Driver.Mysql.AppendWhere | Framework/DB/Drivers/Mysql.php:360-364 | starts the where clause with ` WHERE ` or continues it with the connector, then appends the condition |
| Driver.Mysql.BindEach | Framework/DB/Drivers/Mysql.php:354-358 | one fresh placeholder per value, each value bound under its id, in order |
| Driver.Mysql.WhereIn | Framework/DB/Drivers/Mysql.php:352-367 | `whereIn` (see `Properties.WhereInRule`) |
| Driver.Mysql.OrWhereIn | Framework/DB/Drivers/Mysql.php:369-371 | `whereIn` with `IN` and `OR` |
| Driver.Mysql.WhereNotIn | Framework/DB/Drivers/Mysql.php:373-375 | `whereIn` with `NOT IN` and `AND` |
| Driver.Mysql.OrWhereNotIn | Framework/DB/Drivers/Mysql.php:377-379 | `whereIn` with `NOT IN` and `OR` |
| Driver.Mysql.BindRange | Framework/DB/Drivers/Mysql.php:383-386 | two fresh placeholders, bound to the low and the high value |
| Driver.Mysql.WhereBetween | Framework/DB/Drivers/Mysql.php:381-396 | `whereBetween` (see `Properties.WhereBetweenRule`) |
| Driver.Mysql.OrWhereBetween | Framework/DB/Drivers/Mysql.php:398-400 | `whereBetween` with `OR` |
| Driver.Mysql.WhereNull | Framework/DB/Drivers/Mysql.php:402-413 | `whereNull` (see `Properties.WhereNullRule`) |
| Driver.Mysql.WhereNotNull | Framework/DB/Drivers/Mysql.php:415-417 | `whereNull` with `NOT NULL` and `AND` |
| Driver.Mysql.OrWhereNull | Framework/DB/Drivers/Mysql.php:419-421 | `whereNull` with `NULL` and `OR` |
| Driver.Mysql.OrWhereNotNull | Framework/DB/Drivers/Mysql.php:423-425 | `whereNull` with `NOT NULL` and `OR` |
| Driver.Mysql.GroupBy | Framework/DB/Drivers/Mysql.php:502-511 | `groupBy` (see `Properties.GroupByRule`) |
| Driver.Mysql.OrderBy | Framework/DB/Drivers/Mysql.php:543-552 | `orderBy` (see `Properties.OrderByRule`) |
| Driver.Mysql.Join | Framework/DB/Drivers/Mysql.php:554-559 | `join` (see `Properties.JoinAppends`) |
| Driver.Mysql.LeftJoin | Framework/DB/Drivers/Mysql.php:561-563 | `join` of kind `LEFT` |
| Driver.Mysql.RightJoin | Framework/DB/Drivers/Mysql.php:565-567 | `join` of kind `RIGHT` |
| Driver.Mysql.CopyFields | Framework/DB/Drivers/Mysql.php:293-295 | the store loop, and the capture loop after it, maps every property name to that property's current value |
| Driver.Mysql.RestoreFields | Framework/DB/Drivers/Mysql.php:313-315 | the restore loop sets every property from the stage |
| Driver.Mysql.SubBuilder | Framework/DB/Drivers/Mysql.php:277-318 | runs the callback on this object and returns the captured fields (see `Scoping.SubBuilderIsolation`) |
| Driver.Mysql.WhereBrackets | Framework/DB/Drivers/Mysql.php:427-439 | `whereBrackets` (see `Scoping.WhereBracketsIsolation`) |
| Driver.Mysql.OrWhereBrackets | Framework/DB/Drivers/Mysql.php:441-443 | `whereBrackets` with `OR` |
| Driver.Mysql.WhereExists | Framework/DB/Drivers/Mysql.php:445-457 | `whereExists` (see `Scoping.WhereSubIsolation`) |
| Driver.Mysql.WhereNotExists | Framework/DB/Drivers/Mysql.php:459-461 | `whereExists` with `NOT EXISTS` and `AND` |
| Driver.Mysql.OrWhereExists | Framework/DB/Drivers/Mysql.php:463-465 | `whereExists` with `EXISTS` and `OR` |
| Driver.Mysql.OrWhereNotExists | Framework/DB/Drivers/Mysql.php:466-468 | `whereExists` with `NOT EXISTS` and `OR` |
| Driver.Mysql.WhereInSub | Framework/DB/Drivers/Mysql.php:470-482 | `whereInSub` (see `Scoping.WhereSubIsolation`) |
| Driver.Mysql.WhereNotInSub | Framework/DB/Drivers/Mysql.php:484-486 | `whereInSub` with `NOT IN` and `AND` |
| Driver.Mysql.OrWhereInSub | Framework/DB/Drivers/Mysql.php:488-490 | `whereInSub` with `IN` and `OR` |
| Driver.Mysql.OrWhereNotInSub | Framework/DB/Drivers/Mysql.php:492-494 | `whereInSub` with `NOT IN` and `OR` |
| Driver.Mysql.FromSub | Framework/DB/Drivers/Mysql.php:496-500 | `fromSub` (see `Scoping.FromSubIsolation`) |
| Driver.Mysql.Exec | Framework/DB/Drivers/Mysql.php:301 | one call a callback makes on the builder, as `Semantics.Exec` interprets it |
| Driver.Mysql.ExecNested | Framework/DB/Drivers/Mysql.php:427-500 | the calls that take a callback |
| Driver.Mysql.ExecWhere | Framework/DB/Drivers/Mysql.php:320-425 | the where calls without a callback |
| Driver.Mysql.ExecHaving | Framework/DB/Drivers/Mysql.php:513-541 | `having` and `orHaving` as a callback's call, with their exception |
| Driver.Mysql.ExecSource | Framework/DB/Drivers/Mysql.php:67-70 | `table`, and `select` (lines 145-159), as a callback's call; they never throw |
| Driver.Mysql.ExecOrdering | Framework/DB/Drivers/Mysql.php:502-552 | `groupBy` and `orderBy` as a callback's call; they never throw |
| Driver.Mysql.ExecJoin | Framework/DB/Drivers/Mysql.php:554-559 | `join` as a callback's call; it never throws |
| Driver.Mysql.ExecAll | Framework/DB/Drivers/Mysql.php:301 | a callback's calls in order, stopping at the first exception |
| Driver.Mysql.Get | Framework/DB/Drivers/Mysql.php:174-183 | hands over the built statement with its bindings, then resets the builder (see `Scenarios.ResetScenario`) |
| Driver.Mysql.List | Framework/DB/Drivers/Mysql.php:196-199 | selects `` `field` AS col_list `` (the field is not passed through the quoting) and runs `get` |
| Driver.Mysql.Count | Framework/DB/Drivers/Mysql.php:201-210 | quotes the field unless it trims to `*`, selects `COUNT(…) AS count_num` and runs the statement (see `Scenarios.InListCountScenario`) |
| Driver.Mysql.Aggregate | Framework/DB/Drivers/Mysql.php:212-238 | the shape `sum`, `max`, `min` and `avg` share: `FN(`field`) AS alias` |
| Driver.Mysql.Sum | Framework/DB/Drivers/Mysql.php:212-217 | `SUM(`field`) AS sum_num` |
| Driver.Mysql.Max | Framework/DB/Drivers/Mysql.php:219-224 | `MAX(`field`) AS max_num` |
| Driver.Mysql.Min | Framework/DB/Drivers/Mysql.php:226-231 | `MIN(`field`) AS min_num` |
| Driver.Mysql.Avg | Framework/DB/Drivers/Mysql.php:233-238 | `AVG(`field`) AS avg_num` |

The reference functions in `Semantics` that the rows above are stated
about model these parts of Framework/DB/Drivers/Mysql.php:

- `Initial`, `EmptyFrame`, `AllCols`: the property defaults, lines 22-31.
- `Filters`, `FrameGet`, `FrameSet`: the list of properties and `$this->$filter`, lines 280-315.
- `Uid`, `Plh`: `_getPlh`, lines 113-115.
- `Reset`: `_reset`, lines 73-83. `ResetBuildStr`: `_resetBuildStr`, lines 85-94.
- `Sql`, `BuildQuery`: `_buildQuery`, lines 96-102.
- `Table`: `table`, lines 67-70.
- `Column`, `ColumnList`, `SelectCols`, `Select`: `select`, lines 145-159.
- `Term`, `Terms`, `Suffixed`, `MapTerms`, `Values`, `BindAll`: the array form of `_condition_constructor`, lines 253-259.
- `Comparisons`, `IsComparison`: the operator whitelist, line 267.
- `ConditionConstructor`: `_condition_constructor`, lines 241-275.
- `Start`, `ConditionOn`: the keyword-or-connector step of `where`/`having`, lines 325-331 and 518-524.
- `Where`: `where`/`orWhere`, lines 320-350. `Having`: `having`/`orHaving`, lines 513-541.
- `WhereStart`: the same step for the other where forms, lines 360-364.
- `Plhs`, `InList`, `WhereIn`: `whereIn`, lines 352-367.
- `Between`, `WhereBetween`: `whereBetween`, lines 381-396.
- `IsNull`, `WhereNull`: `whereNull`, lines 402-413.
- `GroupBy`: lines 502-511. `OrderBy`: lines 543-552. `JoinClause`, `Join`: lines 554-559.
- `SubBuilder`: `subBuilder`, lines 277-318.
- `WhereSub`: the shape `whereBrackets`, `whereExists` and `whereInSub` share, lines 427-482.
- `WhereBrackets`: lines 427-439. `WhereExists`: lines 445-457. `WhereInSub`: lines 470-482.
- `FromSub`: `fromSub`, lines 496-500.
- `Exec`, `ExecAll`: the callback, called on the builder at line 301.
- `Terminal`: `get`, lines 174-183.
- `WithCols`, `List`: `list`, lines 196-199.
- `Count`: `count`, lines 201-210.
- `Aggregate`: `sum`, `max`, `min`, `avg`, lines 212-238.

## Left out

- The database connection: `_connect`, the PDO object, preparing and executing statements, `_bindParams`, and `query`, `exec` and `prepare`. They are calls into PDO and the database server, so there is nothing in the builder's own logic to model.
- `insert`, `update` and `delete`: their bodies are empty in the source.
- What the terminal calls return, that is the fetched rows and the aggregate values. A terminal call is modelled by the statement and bindings it hands over, and by the builder state after it.
- `row` and `debugDumpParams`: they change the builder exactly as `get` does: build, bind, reset. They differ only in how they read the result, so `Driver.Mysql.Get` stands for all three. `debugDumpParams` resets the builder too, as `get` does.
- `Quoting.Backquote`: the alias and qualified forms are recognised only as the whole string, with exactly one space around the alias keyword and no space around the dot. The source's regular expressions also accept runs of whitespace and a match inside a longer string. The function-call test is a search anywhere in the string, as in the source.
- `uniqid()`: modelled as a decimal counter. Its real value depends on the clock and is only practically unique.
- `Properties.ConditionErrors`: the operator whitelist is checked only for string arguments. PHP's loose `in_array` comparison, under which a non-string such as `0` can match an operator string in older PHP versions, is not modelled.
- Non-string field names are rendered with PHP's string conversion: integers in decimal, null as the empty string, an array as `Array`. Floats, booleans and objects are not among the modelled values.
- Callbacks: a closure is modelled as the list of the builder's fluent calls it makes. Arbitrary PHP code in a closure is outside the model.
- `whereIn`: the keys of the data array are ignored. Its values are bound in insertion order, and the placeholders are kept in their own list instead of being written back into the array.
- `Properties.SelectColsSpec`: the implode form is stated only when the last quoted column does not end in a comma. Otherwise, `rtrim` also removes the column's own trailing commas, and the model does this too: it follows the source's `Text.TrimRight`.
- The placeholder-binding correspondence: the model does not state that every placeholder in the built statement has exactly one binding, and that no binding goes unused. Placeholders are plain text inside the clauses, and raw condition strings may contain placeholder-like text of their own. The source does not keep the second half either. `whereBrackets` embeds only the callback's where fragment (`Mysql.php` line 436), while the callback's bindings all stay bound, because `subBuilder` restores only the eight properties (lines 313-315). `Scenarios.BracketsDropHavingUnused` derives such an unused binding; the model keeps this behaviour as written. What is proved instead is the counter invariant `Driver.Mysql.Valid`: every bound id is below the counter, so a new placeholder never overwrites a binding. Every state-changing method keeps this invariant, and `Scoping.ExecExtends` shows that every call keeps earlier bindings.
- The type check the source's `Array` and `Closure` parameter hints perform is not modelled: the datatypes only admit such values.
