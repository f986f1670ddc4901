/** Value-level semantics of the SELECT builder: the builder's state as a
    value and one function per fluent operation, giving the state after the
    call. The class in the driver module is proved to follow these
    functions step by step; the lemmas in the properties module are about
    them. */
module Semantics {
  import opened Text
  import opened Quoting
  import Commands

  type Arg = Commands.Arg
  type Cmd = Commands.Cmd
  type BuildError = Commands.BuildError

  /** The eight structural fields: `_table`, `_query_sql`, `_cols_str`,
      `_where_str`, `_orderby_str`, `_groupby_str`, `_having_str`, `_join_str`. */
  datatype Frame = Frame(
    table: string, querySql: string, cols: string, where: string,
    orderBy: string, groupBy: string, having: string, join: string)

  /** The whole builder: the structural fields, `_bind_params`, and the id
      counter that stands in for `uniqid()`. Every key of `_bind_params` is
      a placeholder `Plh(id)`; the model keys the bindings by that id. */
  datatype State = State(frame: Frame, binds: map<nat, Arg>, next: nat)

  /** The state after a call that may throw; on a throw, `err` names the
      exception and `st` is the state at the moment it was raised. */
  datatype Res = Res(st: State, err: Option<BuildError>)

  /** The column fragment meaning "all columns". */
  const AllCols: string := " * "

  /** The structural fields of a fresh builder. */
  const EmptyFrame: Frame := Frame("", "", AllCols, "", "", "", "", "")

  function Initial(next: nat): State
  {
    State(EmptyFrame, map[], next)
  }

  // ----- the field-name list `subBuilder` iterates over -----

  datatype Field = TableField | QuerySqlField | ColsField | WhereField
                 | OrderByField | GroupByField | HavingField | JoinField

  /** The order of the source's `$filters` list. */
  const Filters: seq<Field> :=
    [TableField, QuerySqlField, ColsField, WhereField, OrderByField, GroupByField, HavingField, JoinField]

  function FrameGet(fr: Frame, f: Field): string
  {
    match f
    case TableField => fr.table
    case QuerySqlField => fr.querySql
    case ColsField => fr.cols
    case WhereField => fr.where
    case OrderByField => fr.orderBy
    case GroupByField => fr.groupBy
    case HavingField => fr.having
    case JoinField => fr.join
  }

  function FrameSet(fr: Frame, f: Field, v: string): Frame
  {
    match f
    case TableField => fr.(table := v)
    case QuerySqlField => fr.(querySql := v)
    case ColsField => fr.(cols := v)
    case WhereField => fr.(where := v)
    case OrderByField => fr.(orderBy := v)
    case GroupByField => fr.(groupBy := v)
    case HavingField => fr.(having := v)
    case JoinField => fr.(join := v)
  }

  // ----- ids and placeholders -----

  /** `uniqid()`: the value of the counter, in decimal. */
  function Uid(n: nat): string
  {
    NatStr(n)
  }

  /** `_getPlh`: a named placeholder for id `n`. */
  function Plh(n: nat): string
  {
    ":" + Uid(n)
  }

  /** Every bound placeholder was made from an id the counter has handed out. */
  ghost predicate Fresh(st: State)
  {
    forall i :: i in st.binds ==> i < st.next
  }

  /** Different ids give different placeholders. */
  lemma PlhInjective(a: nat, b: nat)
    requires Plh(a) == Plh(b)
    ensures a == b
  {
    assert Plh(a)[1..] == NatStr(a);
    assert Plh(b)[1..] == NatStr(b);
    NatStrInjective(a, b);
  }

  lemma PlhInjectiveAll()
    ensures forall a: nat, b: nat :: Plh(a) == Plh(b) ==> a == b
  {
    forall a: nat, b: nat | Plh(a) == Plh(b) ensures a == b {
      PlhInjective(a, b);
    }
  }

  // ----- reset and assembly -----

  /** `_reset`: every structural field back to its initial value and no
      bindings. The counter goes on, as `uniqid()` does. */
  function Reset(st: State): State
  {
    Initial(st.next)
  }

  /** `_resetBuildStr`: the structural fields only; bindings are kept. */
  function ResetBuildStr(st: State): State
  {
    st.(frame := EmptyFrame)
  }

  /** The statement `_buildQuery` assembles. */
  function Sql(fr: Frame): string
  {
    "SELECT " + fr.cols + " " + " FROM " + fr.table + fr.join + fr.where + fr.groupBy + fr.having + fr.orderBy
  }

  /** `_buildQuery`: stores the assembled statement in `_query_sql`. */
  function BuildQuery(st: State): State
  {
    st.(frame := st.frame.(querySql := Sql(st.frame)))
  }

  // ----- table and select -----

  function Table(st: State, name: string): State
  {
    st.(frame := st.frame.(table := Backquote(name)))
  }

  /** One column of a `select`, as the loop appends it. */
  function Column(col: string): string
  {
    " " + Backquote(col) + ","
  }

  /** The columns appended one after the other, before the trailing commas go. */
  function ColumnList(cols: seq<string>): string
    decreases |cols|
  {
    if |cols| == 0 then "" else ColumnList(cols[..|cols| - 1]) + Column(cols[|cols| - 1])
  }

  /** The column fragment of `select(cols...)`. */
  function SelectCols(cols: seq<string>): string
  {
    if |cols| == 0 || "*" in cols then AllCols else TrimRight(ColumnList(cols), {','})
  }

  function Select(st: State, cols: seq<string>): State
  {
    st.(frame := st.frame.(cols := SelectCols(cols)))
  }

  // ----- clause start/append rule -----

  /** The first use of a clause writes its keyword; later uses append the connector. */
  function Start(clause: string, keyword: string, connector: string): string
  {
    if clause == "" then keyword else clause + connector
  }

  // ----- condition constructor -----

  /** The operators the three-argument form accepts. */
  const Comparisons: seq<string> := ["<", ">", "<=", ">=", "=", "!=", "<>"]

  predicate IsComparison(a: Arg)
  {
    a.Str? && a.s in Comparisons
  }

  /** One `field = placeholder` term of the map form. */
  function Term(field: string, plh: string): string
  {
    " " + Backquote(field) + " = " + plh + " "
  }

  /** The map form's terms in order, the i-th with placeholder `Plh(next + i)`. */
  function Terms(es: seq<(string, Arg)>, next: nat): (ts: seq<string>)
    ensures |ts| == |es|
    decreases |es|
  {
    if |es| == 0 then [] else Terms(es[..|es| - 1], next) + [Term(es[|es| - 1].0, Plh(next + |es| - 1))]
  }

  /** Every part followed by `sep`, concatenated. */
  function Suffixed(parts: seq<string>, sep: string): string
    decreases |parts|
  {
    if |parts| == 0 then "" else Suffixed(parts[..|parts| - 1], sep) + parts[|parts| - 1] + sep
  }

  /** The map form's loop output: every entry's term followed by the operator. */
  function MapTerms(es: seq<(string, Arg)>, op: string, next: nat): string
  {
    Suffixed(Terms(es, next), op)
  }

  function Values(es: seq<(string, Arg)>): (vs: seq<Arg>)
    ensures |vs| == |es| && forall i :: 0 <= i < |es| ==> vs[i] == es[i].1
    decreases |es|
  {
    if |es| == 0 then [] else Values(es[..|es| - 1]) + [es[|es| - 1].1]
  }

  /** The bindings after binding `vals[i]` under `Plh(next + i)`, in order. */
  function BindAll(binds: map<nat, Arg>, vals: seq<Arg>, next: nat): map<nat, Arg>
    decreases |vals|
  {
    if |vals| == 0 then binds
    else BindAll(binds, vals[..|vals| - 1], next)[next + |vals| - 1 := vals[|vals| - 1]]
  }

  /** The outcome of `_condition_constructor`: the new fragment, bindings
      and counter, or the exception (raised before anything changed). */
  datatype Cond = CondOk(s: string, binds: map<nat, Arg>, next: nat) | CondErr(e: BuildError)

  /** `_condition_constructor(count, args, op, s)` with `_bind_params = binds`
      and the counter at `next`. */
  function ConditionConstructor(args: seq<Arg>, op: string, s: string, binds: map<nat, Arg>, next: nat): Cond
  {
    if |args| == 0 || |args| > 3 then CondErr(Commands.ParamCount)
    else if |args| == 1 then
      if !args[0].Assoc? then CondErr(Commands.NotArray(Commands.ArgText(args[0])))
      else
        var es := args[0].entries;
        CondOk(TrimRight(s + MapTerms(es, op, next), CharsOf(op)), BindAll(binds, Values(es), next), next + |es|)
    else if |args| == 2 then
      CondOk(s + Term(Commands.ArgText(args[0]), Plh(next)), binds[next := args[1]], next + 1)
    else if !IsComparison(args[1]) then CondErr(Commands.ConfusingSymbol(Commands.ArgText(args[1])))
    else
      CondOk(s + " " + Backquote(Commands.ArgText(args[0])) + " " + args[1].s + " " + Plh(next) + " ",
             binds[next := args[2]], next + 1)
  }

  /** `where`/`orWhere` (`f` the where field) and `having`/`orHaving` (`f`
      the having field): the keyword or connector is written first, then the
      condition appended; an exception leaves the keyword or connector. */
  function ConditionOn(st: State, f: Field, keyword: string, args: seq<Arg>, op: string): Res
  {
    var s := Start(FrameGet(st.frame, f), keyword, " " + op + " ");
    match ConditionConstructor(args, op, s, st.binds, st.next)
    case CondErr(e) => Res(st.(frame := FrameSet(st.frame, f, s)), Some(e))
    case CondOk(s', b, n) => Res(State(FrameSet(st.frame, f, s'), b, n), None)
  }

  function Where(st: State, args: seq<Arg>, op: string): Res
  {
    ConditionOn(st, WhereField, " WHERE ", args, op)
  }

  function Having(st: State, args: seq<Arg>, op: string): Res
  {
    ConditionOn(st, HavingField, " HAVING ", args, op)
  }

  // ----- the where family without callbacks -----

  function WhereStart(st: State, op: string): string
  {
    Start(st.frame.where, " WHERE ", " " + op + " ")
  }

  /** The placeholders `Plh(next)`, ..., `Plh(next + n - 1)`. */
  function Plhs(next: nat, n: nat): (ps: seq<string>)
    ensures |ps| == n && forall i :: 0 <= i < n ==> ps[i] == Plh(next + i)
    decreases n
  {
    if n == 0 then [] else Plhs(next, n - 1) + [Plh(next + n - 1)]
  }

  /** The condition `whereIn` writes: `field IN (:p1,:p2,...)`, or `NOT IN`. */
  function InList(field: string, condition: string, plhs: seq<string>): string
  {
    Backquote(field) + " " + condition + " (" + Implode(plhs, ",") + ")"
  }

  /** The placeholders are made and bound first, in order, then the clause
      is started or continued. */
  function WhereIn(st: State, field: string, data: seq<Arg>, condition: string := "IN", op: string := "AND"): State
  {
    var w := WhereStart(st, op) + InList(field, condition, Plhs(st.next, |data|));
    State(st.frame.(where := w), BindAll(st.binds, data, st.next), st.next + |data|)
  }

  /** The condition `whereBetween` writes. */
  function Between(field: string, lo: string, hi: string): string
  {
    Backquote(field) + " BETWEEN " + lo + " AND " + hi
  }

  function WhereBetween(st: State, field: string, low: Arg, high: Arg, op: string := "AND"): State
  {
    var w := WhereStart(st, op) + Between(field, Plh(st.next), Plh(st.next + 1));
    State(st.frame.(where := w), st.binds[st.next := low][st.next + 1 := high], st.next + 2)
  }

  /** The condition `whereNull` writes: `field IS NULL `, or `IS NOT NULL `. */
  function IsNull(field: string, condition: string): string
  {
    Backquote(field) + " IS " + condition + " "
  }

  function WhereNull(st: State, field: string, condition: string := "NULL", op: string := "AND"): State
  {
    st.(frame := st.frame.(where := WhereStart(st, op) + IsNull(field, condition)))
  }

  // ----- group by, order by, join -----

  function GroupBy(st: State, field: string): State
  {
    st.(frame := st.frame.(groupBy := Start(st.frame.groupBy, " GROUP BY ", " , ") + Backquote(field)))
  }

  function OrderBy(st: State, field: string, mode: string := "ASC"): State
  {
    st.(frame := st.frame.(orderBy := Start(st.frame.orderBy, " ORDER BY ", " , ") + Backquote(field) + " " + mode))
  }

  function JoinClause(table: string, one: string, two: string, kind: string): string
  {
    " " + kind + " JOIN " + Backquote(table) + " ON " + Backquote(one) + " = " + Backquote(two)
  }

  function Join(st: State, table: string, one: string, two: string, kind: string := "INNER"): State
  {
    st.(frame := st.frame.(join := st.frame.join + JoinClause(table, one, two, kind)))
  }

  // ----- nested statements -----

  /** `subBuilder`'s outcome: the state afterwards, the exception if the
      callback threw (then nothing was restored), and the captured fields. */
  datatype SubRes = SubRes(st: State, err: Option<BuildError>, sub: Frame)

  /** `subBuilder(callback)`: stash the structural fields, clear them, run the
      callback on the same builder, build, capture the fields, restore them. */
  function SubBuilder(st: State, body: seq<Cmd>): SubRes
    decreases body, 1
  {
    var r := ExecAll(ResetBuildStr(st), body);
    if r.err.Some? then SubRes(r.st, r.err, r.st.frame)
    else
      var built := BuildQuery(r.st);
      SubRes(built.(frame := st.frame), None, built.frame)
  }

  /** Runs `body` as a sub-statement after `lead` has been written to the
      where fragment, then appends `embed(captured fields)` and `" ) "`. */
  function WhereSub(st: State, lead: string, body: seq<Cmd>, whereWord: bool): Res
    decreases body, 2
  {
    var r := SubBuilder(st.(frame := st.frame.(where := lead)), body);
    if r.err.Some? then Res(r.st, r.err)
    else
      var inner := if whereWord then RemoveFirst(r.sub.where, "WHERE") else r.sub.querySql;
      Res(r.st.(frame := r.st.frame.(where := r.st.frame.where + inner + " ) ")), None)
  }

  /** `whereBrackets`: the callback's where fragment without its first
      `WHERE`, in parentheses. */
  function WhereBrackets(st: State, body: seq<Cmd>, op: string := "AND"): Res
    decreases body, 3
  {
    WhereSub(st, WhereStart(st, op) + "( ", body, true)
  }

  /** `whereExists`: the callback's whole statement after `EXISTS` or `NOT EXISTS`. */
  function WhereExists(st: State, body: seq<Cmd>, condition: string := "EXISTS", op: string := "AND"): Res
    decreases body, 3
  {
    WhereSub(st, WhereStart(st, op) + condition + " ( ", body, false)
  }

  /** `whereInSub`: the callback's whole statement after `field IN` or `field NOT IN`. */
  function WhereInSub(st: State, field: string, body: seq<Cmd>, condition: string := "IN", op: string := "AND"): Res
    decreases body, 3
  {
    WhereSub(st, WhereStart(st, op) + Backquote(field) + " " + condition + " ( ", body, false)
  }

  /** `fromSub`: the callback's statement appended to the table fragment as a
      derived table, under an alias made from a fresh id. */
  function FromSub(st: State, body: seq<Cmd>): Res
    decreases body, 3
  {
    var r := SubBuilder(st, body);
    if r.err.Some? then Res(r.st, r.err)
    else
      var t := r.st.frame.table + " ( " + r.sub.querySql + " ) AS tb_" + Uid(r.st.next) + " ";
      Res(State(r.st.frame.(table := t), r.st.binds, r.st.next + 1), None)
  }

  /** One fluent call. */
  function Exec(st: State, c: Cmd): Res
    decreases c
  {
    match c
    case Table(name) => Res(Table(st, name), None)
    case Select(cols) => Res(Select(st, cols), None)
    case Where(args) => Where(st, args, "AND")
    case OrWhere(args) => Where(st, args, "OR")
    case WhereIn(field, data, condition, op) => Res(WhereIn(st, field, data, condition, op), None)
    case WhereBetween(field, low, high, op) => Res(WhereBetween(st, field, low, high, op), None)
    case WhereNull(field, condition, op) => Res(WhereNull(st, field, condition, op), None)
    case WhereBrackets(body, op) => WhereBrackets(st, body, op)
    case WhereExists(body, condition, op) => WhereExists(st, body, condition, op)
    case WhereInSub(field, body, condition, op) => WhereInSub(st, field, body, condition, op)
    case FromSub(body) => FromSub(st, body)
    case GroupBy(field) => Res(GroupBy(st, field), None)
    case Having(args) => Having(st, args, "AND")
    case OrHaving(args) => Having(st, args, "OR")
    case OrderBy(field, mode) => Res(OrderBy(st, field, mode), None)
    case Join(table, one, two, kind) => Res(Join(st, table, one, two, kind), None)
  }

  /** A callback: the calls in order, stopping at the first exception. */
  function ExecAll(st: State, cs: seq<Cmd>): Res
    decreases cs, 0
  {
    if |cs| == 0 then Res(st, None)
    else
      var r := Exec(st, cs[0]);
      if r.err.Some? then r else ExecAll(r.st, cs[1..])
  }

  // ----- terminal calls -----

  /** What a terminal call hands to the execution engine: the text and the
      values to bind, each under the id its placeholder `Plh(id)` was made
      from (distinct ids give distinct placeholders, `PlhInjective`). */
  datatype Statement = Statement(sql: string, params: map<nat, Arg>)

  /** `get`, `row` and `debugDumpParams`: build, hand over the statement and
      its bindings, reset. */
  function Terminal(st: State): (Statement, State)
  {
    (Statement(Sql(st.frame), st.binds), Reset(st))
  }

  function WithCols(st: State, cols: string): State
  {
    st.(frame := st.frame.(cols := cols))
  }

  /** `list(field)`. */
  function List(st: State, field: string): (Statement, State)
  {
    Terminal(WithCols(st, " `" + field + "` AS col_list "))
  }

  /** `count(field)`; the default field is `*`. */
  function Count(st: State, field: string := "*"): (Statement, State)
  {
    var f := if Trim(field) != "*" then "`" + field + "`" else field;
    Terminal(WithCols(st, " COUNT(" + f + ") AS count_num "))
  }

  /** `sum`, `max`, `min` and `avg`: `fn` is the SQL function, `alias` the
      result column. */
  function Aggregate(st: State, fn: string, field: string, alias: string): (Statement, State)
  {
    Terminal(WithCols(st, " " + fn + "(`" + field + "`) AS " + alias + " "))
  }
}
