/** The builder object itself: one mutable field per property of the source's
    class, and one method per public or private operation. Every method is
    proved to leave the object in the state the value-level semantics gives
    for the old state and the call's arguments, so each property proved about
    those functions holds of the object. */
module Driver {
  import opened Text
  import opened Quoting
  import Commands
  import Semantics
  import Properties

  type Arg = Commands.Arg
  type Cmd = Commands.Cmd
  type BuildError = Commands.BuildError
  type Field = Semantics.Field
  type Statement = Semantics.Statement

  /** The position of each field name in the list `subBuilder` walks. */
  function FieldIndex(f: Field): (j: nat)
    ensures j < |Semantics.Filters| && Semantics.Filters[j] == f
  {
    match f
    case TableField => 0
    case QuerySqlField => 1
    case ColsField => 2
    case WhereField => 3
    case OrderByField => 4
    case GroupByField => 5
    case HavingField => 6
    case JoinField => 7
  }

  /** Two frames that agree on every field are equal. */
  lemma FrameExt(a: Semantics.Frame, b: Semantics.Frame)
    requires forall f :: Semantics.FrameGet(a, f) == Semantics.FrameGet(b, f)
    ensures a == b
  {
    assert Semantics.FrameGet(a, Semantics.TableField) == Semantics.FrameGet(b, Semantics.TableField);
    assert Semantics.FrameGet(a, Semantics.QuerySqlField) == Semantics.FrameGet(b, Semantics.QuerySqlField);
    assert Semantics.FrameGet(a, Semantics.ColsField) == Semantics.FrameGet(b, Semantics.ColsField);
    assert Semantics.FrameGet(a, Semantics.WhereField) == Semantics.FrameGet(b, Semantics.WhereField);
    assert Semantics.FrameGet(a, Semantics.OrderByField) == Semantics.FrameGet(b, Semantics.OrderByField);
    assert Semantics.FrameGet(a, Semantics.GroupByField) == Semantics.FrameGet(b, Semantics.GroupByField);
    assert Semantics.FrameGet(a, Semantics.HavingField) == Semantics.FrameGet(b, Semantics.HavingField);
    assert Semantics.FrameGet(a, Semantics.JoinField) == Semantics.FrameGet(b, Semantics.JoinField);
  }

  lemma TermsStep(es: seq<(string, Arg)>, i: nat, n0: nat)
    requires i < |es|
    ensures Semantics.Terms(es[..i + 1], n0) == Semantics.Terms(es[..i], n0) + [Semantics.Term(es[i].0, Semantics.Plh(n0 + i))]
  {
    var p := es[..i + 1];
    assert p[..|p| - 1] == es[..i];
    assert p[|p| - 1] == es[i];
    assert n0 + |p| - 1 == n0 + i;
  }

  lemma SuffixedStep(ts: seq<string>, t: string, op: string)
    ensures Semantics.Suffixed(ts + [t], op) == Semantics.Suffixed(ts, op) + t + op
  {
    assert (ts + [t])[..|ts|] == ts;
  }

  /** One more entry of the map form: one more term followed by the
      operator, one more value bound under the next id. */
  lemma MapStep(s: string, acc: string, binds: map<nat, Arg>, b0: map<nat, Arg>,
                es: seq<(string, Arg)>, vs: seq<Arg>, i: nat, op: string, n0: nat, id: nat)
    requires i < |es| && vs == Semantics.Values(es) && id == n0 + i
    requires acc == s + Semantics.Suffixed(Semantics.Terms(es[..i], n0), op)
    requires binds == Semantics.BindAll(b0, vs[..i], n0)
    ensures acc + (" " + Backquote(es[i].0) + " = " + Semantics.Plh(id) + " ") + op
         == s + Semantics.Suffixed(Semantics.Terms(es[..i + 1], n0), op)
    ensures binds[id := es[i].1] == Semantics.BindAll(b0, vs[..i + 1], n0)
  {
    var ts := Semantics.Terms(es[..i], n0);
    var t := Semantics.Term(es[i].0, Semantics.Plh(n0 + i));
    TermsStep(es, i, n0);
    SuffixedStep(ts, t, op);
    Reassoc(s, Semantics.Suffixed(ts, op), t, op);
    assert vs[i] == es[i].1;
    InStep(vs, i, n0, b0, id);
  }

  /** One more column of `select`. */
  lemma ColumnStep(acc: string, cols: seq<string>, i: nat)
    requires i < |cols| && acc == Semantics.ColumnList(cols[..i])
    ensures acc + " " + Backquote(cols[i]) + "," == Semantics.ColumnList(cols[..i + 1])
  {
    assert cols[..i + 1][..i] == cols[..i];
    Reassoc(acc, " ", Backquote(cols[i]), ",");
  }

  lemma Reassoc(a: string, b: string, c: string, d: string)
    ensures a + (b + c + d) == a + b + c + d
  {
  }

  /** One more value of `whereIn`: one more placeholder, one more binding. */
  lemma InStep(data: seq<Arg>, i: nat, next: nat, binds: map<nat, Arg>, id: nat)
    requires i < |data| && id == next + i
    ensures Semantics.BindAll(binds, data[..i + 1], next) == Semantics.BindAll(binds, data[..i], next)[id := data[i]]
  {
    assert data[..i + 1][..i] == data[..i];
  }

  class Mysql {
    var table: string
    var querySql: string
    var colsStr: string
    var whereStr: string
    var orderByStr: string
    var groupByStr: string
    var havingStr: string
    var joinStr: string
    /** `_bind_params`, keyed by the id each placeholder was made from. */
    var bindParams: map<nat, Arg>
    /** The next value `uniqid()` hands out. */
    var nextId: nat

    /** The eight structural fields as a value. */
    function Fields(): Semantics.Frame
      reads this`table, this`querySql, this`colsStr, this`whereStr
      reads this`orderByStr, this`groupByStr, this`havingStr, this`joinStr
    {
      Semantics.Frame(table, querySql, colsStr, whereStr, orderByStr, groupByStr, havingStr, joinStr)
    }

    /** The whole object as a value of the semantics. */
    function Abstract(): Semantics.State
      reads this
    {
      Semantics.State(Fields(), bindParams, nextId)
    }

    /** Every bound id has been handed out by the counter, so the next
        placeholder cannot overwrite a binding: `Semantics.Fresh` of the
        object's state. */
    ghost predicate Valid()
      reads this`bindParams, this`nextId
    {
      forall i :: i in bindParams ==> i < nextId
    }

    /** A new builder. The connection the source opens here is not modelled;
        `start` is the first value the id counter hands out. */
    constructor(start: nat)
      ensures Abstract() == Semantics.Initial(start)
      ensures Valid()
    {
      table, querySql, colsStr, whereStr := "", "", Semantics.AllCols, "";
      orderByStr, groupByStr, havingStr, joinStr := "", "", "", "";
      bindParams, nextId := map[], start;
    }

    // ----- field access by name, as `$this->$filter` -----

    function Property(f: Field): string
      reads this
    {
      Semantics.FrameGet(Fields(), f)
    }

    method SetProperty(f: Field, v: string)
      modifies this`table, this`querySql, this`colsStr, this`whereStr, this`orderByStr, this`groupByStr, this`havingStr, this`joinStr
      ensures Fields() == Semantics.FrameSet(old(Fields()), f, v)
    {
      match f
      case TableField => table := v;
      case QuerySqlField => querySql := v;
      case ColsField => colsStr := v;
      case WhereField => whereStr := v;
      case OrderByField => orderByStr := v;
      case GroupByField => groupByStr := v;
      case HavingField => havingStr := v;
      case JoinField => joinStr := v;
    }

    // ----- ids -----

    /** `uniqid()`: a value never handed out before. */
    method Uniqid() returns (id: nat)
      requires Valid()
      modifies this`nextId
      ensures id == old(nextId) && nextId == id + 1
      ensures id !in bindParams
      ensures Valid()
    {
      id := nextId;
      nextId := nextId + 1;
    }

    /** `_getPlh`: a fresh placeholder and the id it was made from. */
    method GetPlh() returns (id: nat, plh: string)
      requires Valid()
      modifies this`nextId
      ensures id == old(nextId) && plh == Semantics.Plh(id) && nextId == id + 1
      ensures id !in bindParams
      ensures Valid()
    {
      id := Uniqid();
      plh := ":" + Semantics.Uid(id);
    }

    // ----- reset and assembly -----

    method Reset()
      requires Valid()
      modifies this
      ensures Abstract() == Semantics.Reset(old(Abstract()))
      ensures Valid()
    {
      table, querySql, colsStr, whereStr := "", "", Semantics.AllCols, "";
      orderByStr, groupByStr, havingStr, joinStr := "", "", "", "";
      bindParams := map[];
    }

    method ResetBuildStr()
      requires Valid()
      modifies this
      ensures Abstract() == Semantics.ResetBuildStr(old(Abstract()))
      ensures Valid()
    {
      table, querySql, colsStr, whereStr := "", "", Semantics.AllCols, "";
      orderByStr, groupByStr, havingStr, joinStr := "", "", "", "";
    }

    method BuildQuery()
      requires Valid()
      modifies this`querySql
      ensures Abstract() == Semantics.BuildQuery(old(Abstract()))
      ensures Valid()
    {
      querySql := "SELECT " + colsStr + " " + " FROM " + table + joinStr + whereStr + groupByStr + havingStr + orderByStr;
    }

    // ----- table and select -----

    method Table(name: string)
      requires Valid()
      modifies this`table
      ensures Abstract() == Semantics.Table(old(Abstract()), name)
      ensures Valid()
    {
      table := Backquote(name);
    }

    method Select(cols: seq<string>)
      requires Valid()
      modifies this`colsStr
      ensures Abstract() == Semantics.Select(old(Abstract()), cols)
      ensures Valid()
    {
      if |cols| == 0 || "*" in cols {
        colsStr := Semantics.AllCols;
      } else {
        colsStr := "";
        var i := 0;
        while i < |cols|
          modifies this`colsStr
          invariant 0 <= i <= |cols|
          invariant colsStr == Semantics.ColumnList(cols[..i])
        {
          ColumnStep(colsStr, cols, i);
          colsStr := colsStr + " " + Backquote(cols[i]) + ",";
          i := i + 1;
        }
        assert cols[..|cols|] == cols;
        colsStr := TrimRight(colsStr, {','});
      }
    }

    // ----- conditions -----

    /** The one-argument form of `_condition_constructor`: one `field = :plh`
        term and one binding per entry, each followed by `op`, then the
        characters of `op` trimmed from the right. */
    method MapCondition(es: seq<(string, Arg)>, op: string, s: string) returns (s': string)
      requires Valid()
      modifies this`bindParams, this`nextId
      ensures s' == TrimRight(s + Semantics.MapTerms(es, op, old(nextId)), CharsOf(op))
      ensures bindParams == Semantics.BindAll(old(bindParams), Semantics.Values(es), old(nextId))
      ensures nextId == old(nextId) + |es|
      ensures Valid()
    {
      ghost var b0, n0 := bindParams, nextId;
      ghost var vs := Semantics.Values(es);
      s' := s;
      var i := 0;
      while i < |es|
        invariant 0 <= i <= |es|
        invariant s' == s + Semantics.Suffixed(Semantics.Terms(es[..i], n0), op)
        invariant bindParams == Semantics.BindAll(b0, vs[..i], n0)
        invariant nextId == n0 + i
        invariant Valid()
      {
        var id, plh := GetPlh();
        MapStep(s, s', bindParams, b0, es, vs, i, op, n0, id);
        s' := s' + (" " + Backquote(es[i].0) + " = " + plh + " ") + op;
        bindParams := bindParams[id := es[i].1];
        i := i + 1;
      }
      assert vs[..|es|] == vs;
      assert es[..|es|] == es;
      assert s' == s + Semantics.MapTerms(es, op, n0);
      s' := TrimRight(s', CharsOf(op));
    }

    /** `_condition_constructor(count, args, op, s)`: returns the new value of
        the fragment passed by reference, or the exception; on an exception
        nothing has changed. */
    method ConditionConstructor(args: seq<Arg>, op: string, s: string) returns (s': string, err: Option<BuildError>)
      requires Valid()
      modifies this`bindParams, this`nextId
      ensures match Semantics.ConditionConstructor(args, op, s, old(bindParams), old(nextId))
        case CondOk(t, b, n) => err.None? && s' == t && bindParams == b && nextId == n
        case CondErr(e) => err == Some(e) && s' == s && bindParams == old(bindParams) && nextId == old(nextId)
      ensures Valid()
    {
      s', err := s, None;
      if |args| == 0 || |args| > 3 {
        err := Some(Commands.ParamCount);
      } else if |args| == 1 {
        if !args[0].Assoc? {
          err := Some(Commands.NotArray(Commands.ArgText(args[0])));
          return;
        }
        s' := MapCondition(args[0].entries, op, s);
      } else if |args| == 2 {
        var id, plh := GetPlh();
        s' := s + (" " + Backquote(Commands.ArgText(args[0])) + " = " + plh + " ");
        bindParams := bindParams[id := args[1]];
      } else {
        if !Semantics.IsComparison(args[1]) {
          err := Some(Commands.ConfusingSymbol(Commands.ArgText(args[1])));
          return;
        }
        var id, plh := GetPlh();
        s' := s + " " + Backquote(Commands.ArgText(args[0])) + " " + args[1].s + " " + plh + " ";
        bindParams := bindParams[id := args[2]];
      }
    }

    /** The body `where` and `orWhere` share: keyword or connector, then the condition. */
    method WhereCondition(args: seq<Arg>, op: string) returns (err: Option<BuildError>)
      requires Valid()
      modifies this`whereStr, this`bindParams, this`nextId
      ensures var r := Semantics.Where(old(Abstract()), args, op); Abstract() == r.st && err == r.err
      ensures Valid()
    {
      ghost var st := Abstract();
      if whereStr == "" {
        whereStr := " WHERE ";
      } else {
        whereStr := whereStr + (" " + op + " ");
      }
      assert Fields() == st.frame.(where := whereStr);
      var s;
      s, err := ConditionConstructor(args, op, whereStr);
      whereStr := s;
      assert Fields() == st.frame.(where := s);
    }

    method Where(args: seq<Arg>) returns (err: Option<BuildError>)
      requires Valid()
      modifies this`whereStr, this`bindParams, this`nextId
      ensures var r := Semantics.Where(old(Abstract()), args, "AND"); Abstract() == r.st && err == r.err
      ensures Valid()
    {
      err := WhereCondition(args, "AND");
    }

    method OrWhere(args: seq<Arg>) returns (err: Option<BuildError>)
      requires Valid()
      modifies this`whereStr, this`bindParams, this`nextId
      ensures var r := Semantics.Where(old(Abstract()), args, "OR"); Abstract() == r.st && err == r.err
      ensures Valid()
    {
      err := WhereCondition(args, "OR");
    }

    /** The body `having` and `orHaving` share. */
    method HavingCondition(args: seq<Arg>, op: string) returns (err: Option<BuildError>)
      requires Valid()
      modifies this`havingStr, this`bindParams, this`nextId
      ensures var r := Semantics.Having(old(Abstract()), args, op); Abstract() == r.st && err == r.err
      ensures Valid()
    {
      ghost var st := Abstract();
      if havingStr == "" {
        havingStr := " HAVING ";
      } else {
        havingStr := havingStr + (" " + op + " ");
      }
      assert Fields() == st.frame.(having := havingStr);
      var s;
      s, err := ConditionConstructor(args, op, havingStr);
      havingStr := s;
      assert Fields() == st.frame.(having := s);
    }

    method Having(args: seq<Arg>) returns (err: Option<BuildError>)
      requires Valid()
      modifies this`havingStr, this`bindParams, this`nextId
      ensures var r := Semantics.Having(old(Abstract()), args, "AND"); Abstract() == r.st && err == r.err
      ensures Valid()
    {
      err := HavingCondition(args, "AND");
    }

    method OrHaving(args: seq<Arg>) returns (err: Option<BuildError>)
      requires Valid()
      modifies this`havingStr, this`bindParams, this`nextId
      ensures var r := Semantics.Having(old(Abstract()), args, "OR"); Abstract() == r.st && err == r.err
      ensures Valid()
    {
      err := HavingCondition(args, "OR");
    }

    // ----- the where family without callbacks -----

    /** Starts the where clause with ` WHERE `, or continues it with the
        connector `op`, then appends the condition `cond`. */
    method AppendWhere(op: string, cond: string)
      modifies this`whereStr
      ensures whereStr == Semantics.Start(old(whereStr), " WHERE ", " " + op + " ") + cond
    {
      if whereStr == "" {
        whereStr := " WHERE " + cond;
      } else {
        whereStr := whereStr + (" " + op + " ") + cond;
      }
    }

    /** The placeholder loop of `whereIn`: one fresh placeholder per value,
        bound to it, in order. */
    method BindEach(data: seq<Arg>) returns (plhs: seq<string>)
      requires Valid()
      modifies this`bindParams, this`nextId
      ensures plhs == Semantics.Plhs(old(nextId), |data|)
      ensures bindParams == Semantics.BindAll(old(bindParams), data, old(nextId))
      ensures nextId == old(nextId) + |data|
      ensures Valid()
    {
      ghost var b0, n0 := bindParams, nextId;
      plhs := [];
      var i := 0;
      while i < |data|
        invariant 0 <= i <= |data|
        invariant plhs == Semantics.Plhs(n0, i)
        invariant bindParams == Semantics.BindAll(b0, data[..i], n0)
        invariant nextId == n0 + i
        invariant Valid()
      {
        var id, plh := GetPlh();
        InStep(data, i, n0, b0, id);
        plhs := plhs + [plh];
        bindParams := bindParams[id := data[i]];
        i := i + 1;
      }
      assert data[..|data|] == data;
    }

    method WhereIn(field: string, data: seq<Arg>, condition: string := "IN", op: string := "AND")
      requires Valid()
      modifies this`whereStr, this`bindParams, this`nextId
      ensures Abstract() == Semantics.WhereIn(old(Abstract()), field, data, condition, op)
      ensures Valid()
    {
      ghost var st := Abstract();
      var plhs := BindEach(data);
      AppendWhere(op, Semantics.InList(field, condition, plhs));
      assert Fields() == st.frame.(where := whereStr);
    }

    method OrWhereIn(field: string, data: seq<Arg>)
      requires Valid()
      modifies this`whereStr, this`bindParams, this`nextId
      ensures Abstract() == Semantics.WhereIn(old(Abstract()), field, data, "IN", "OR")
      ensures Valid()
    {
      WhereIn(field, data, "IN", "OR");
    }

    method WhereNotIn(field: string, data: seq<Arg>)
      requires Valid()
      modifies this`whereStr, this`bindParams, this`nextId
      ensures Abstract() == Semantics.WhereIn(old(Abstract()), field, data, "NOT IN", "AND")
      ensures Valid()
    {
      WhereIn(field, data, "NOT IN", "AND");
    }

    method OrWhereNotIn(field: string, data: seq<Arg>)
      requires Valid()
      modifies this`whereStr, this`bindParams, this`nextId
      ensures Abstract() == Semantics.WhereIn(old(Abstract()), field, data, "NOT IN", "OR")
      ensures Valid()
    {
      WhereIn(field, data, "NOT IN", "OR");
    }

    /** The two placeholders of `whereBetween`, bound to the low and the high value. */
    method BindRange(low: Arg, high: Arg) returns (lowPlh: string, highPlh: string)
      requires Valid()
      modifies this`bindParams, this`nextId
      ensures lowPlh == Semantics.Plh(old(nextId)) && highPlh == Semantics.Plh(old(nextId) + 1)
      ensures bindParams == old(bindParams)[old(nextId) := low][old(nextId) + 1 := high]
      ensures nextId == old(nextId) + 2
      ensures Valid()
    {
      var lowId, highId;
      lowId, lowPlh := GetPlh();
      highId, highPlh := GetPlh();
      bindParams := bindParams[lowId := low];
      bindParams := bindParams[highId := high];
    }

    method WhereBetween(field: string, low: Arg, high: Arg, op: string := "AND")
      requires Valid()
      modifies this`whereStr, this`bindParams, this`nextId
      ensures Abstract() == Semantics.WhereBetween(old(Abstract()), field, low, high, op)
      ensures Valid()
    {
      ghost var st := Abstract();
      var lowPlh, highPlh := BindRange(low, high);
      AppendWhere(op, Semantics.Between(field, lowPlh, highPlh));
      assert Fields() == st.frame.(where := whereStr);
    }

    method OrWhereBetween(field: string, low: Arg, high: Arg)
      requires Valid()
      modifies this`whereStr, this`bindParams, this`nextId
      ensures Abstract() == Semantics.WhereBetween(old(Abstract()), field, low, high, "OR")
      ensures Valid()
    {
      WhereBetween(field, low, high, "OR");
    }

    method WhereNull(field: string, condition: string := "NULL", op: string := "AND")
      requires Valid()
      modifies this`whereStr
      ensures Abstract() == Semantics.WhereNull(old(Abstract()), field, condition, op)
      ensures Valid()
    {
      if whereStr == "" {
        whereStr := " WHERE ";
      } else {
        whereStr := whereStr + (" " + op + " ");
      }
      whereStr := whereStr + Semantics.IsNull(field, condition);
    }

    method WhereNotNull(field: string)
      requires Valid()
      modifies this`whereStr
      ensures Abstract() == Semantics.WhereNull(old(Abstract()), field, "NOT NULL", "AND")
      ensures Valid()
    {
      WhereNull(field, "NOT NULL", "AND");
    }

    method OrWhereNull(field: string)
      requires Valid()
      modifies this`whereStr
      ensures Abstract() == Semantics.WhereNull(old(Abstract()), field, "NULL", "OR")
      ensures Valid()
    {
      WhereNull(field, "NULL", "OR");
    }

    method OrWhereNotNull(field: string)
      requires Valid()
      modifies this`whereStr
      ensures Abstract() == Semantics.WhereNull(old(Abstract()), field, "NOT NULL", "OR")
      ensures Valid()
    {
      WhereNull(field, "NOT NULL", "OR");
    }

    // ----- group by, having, order by, join -----

    method GroupBy(field: string)
      requires Valid()
      modifies this`groupByStr
      ensures Abstract() == Semantics.GroupBy(old(Abstract()), field)
      ensures Valid()
    {
      if groupByStr == "" {
        groupByStr := " GROUP BY " + Backquote(field);
      } else {
        groupByStr := groupByStr + " , " + Backquote(field);
      }
    }

    method OrderBy(field: string, mode: string := "ASC")
      requires Valid()
      modifies this`orderByStr
      ensures Abstract() == Semantics.OrderBy(old(Abstract()), field, mode)
      ensures Valid()
    {
      if orderByStr == "" {
        orderByStr := " ORDER BY " + Backquote(field) + " " + mode;
      } else {
        orderByStr := orderByStr + " , " + Backquote(field) + " " + mode;
      }
    }

    method Join(table: string, one: string, two: string, kind: string := "INNER")
      requires Valid()
      modifies this`joinStr
      ensures Abstract() == Semantics.Join(old(Abstract()), table, one, two, kind)
      ensures Valid()
    {
      joinStr := joinStr + Semantics.JoinClause(table, one, two, kind);
    }

    method LeftJoin(table: string, one: string, two: string)
      requires Valid()
      modifies this`joinStr
      ensures Abstract() == Semantics.Join(old(Abstract()), table, one, two, "LEFT")
      ensures Valid()
    {
      Join(table, one, two, "LEFT");
    }

    method RightJoin(table: string, one: string, two: string)
      requires Valid()
      modifies this`joinStr
      ensures Abstract() == Semantics.Join(old(Abstract()), table, one, two, "RIGHT")
      ensures Valid()
    {
      Join(table, one, two, "RIGHT");
    }

    // ----- nested statements -----

    /** The loop `subBuilder` uses to store and to capture the fields: each
        name of the list mapped to the field's current value. */
    method CopyFields() returns (m: map<Field, string>)
      ensures forall f :: f in m && m[f] == Semantics.FrameGet(Fields(), f)
    {
      m := map[];
      var i := 0;
      while i < |Semantics.Filters|
        invariant 0 <= i <= |Semantics.Filters|
        invariant forall j :: 0 <= j < i ==> Semantics.Filters[j] in m && m[Semantics.Filters[j]] == Property(Semantics.Filters[j])
      {
        m := m[Semantics.Filters[i] := Property(Semantics.Filters[i])];
        i := i + 1;
      }
      forall f: Field ensures f in m && m[f] == Semantics.FrameGet(Fields(), f) {
        var j := FieldIndex(f);
      }
    }

    /** The loop `subBuilder` restores the fields with: each field of the
        list set to its staged value. */
    method RestoreFields(stage: map<Field, string>)
      requires forall f :: f in stage
      modifies this`table, this`querySql, this`colsStr, this`whereStr, this`orderByStr, this`groupByStr, this`havingStr, this`joinStr
      ensures forall f :: Semantics.FrameGet(Fields(), f) == stage[f]
    {
      var i := 0;
      while i < |Semantics.Filters|
        invariant 0 <= i <= |Semantics.Filters|
        invariant forall j :: 0 <= j < i ==> Property(Semantics.Filters[j]) == stage[Semantics.Filters[j]]
      {
        ghost var before := Fields();
        var f := Semantics.Filters[i];
        SetProperty(f, stage[f]);
        forall j | 0 <= j < i + 1 ensures Property(Semantics.Filters[j]) == stage[Semantics.Filters[j]] {
          if Semantics.Filters[j] == f {
            Properties.FrameSetSame(before, f, stage[f]);
          } else {
            Properties.FrameSetOther(before, f, Semantics.Filters[j], stage[f]);
          }
        }
        i := i + 1;
      }
      forall f: Field ensures Semantics.FrameGet(Fields(), f) == stage[f] {
        var j := FieldIndex(f);
      }
    }

    /** `subBuilder(callback)`: the structural fields are stored in a stage
        keyed by field and cleared, the callback runs on this object, the
        statement is built and the fields are captured, then the staged
        values are written back. An exception from the callback leaves before
        the write-back. */
    method SubBuilder(body: seq<Cmd>) returns (err: Option<BuildError>, sub: map<Field, string>)
      requires Valid()
      modifies this
      decreases body, 1
      ensures var r := Semantics.SubBuilder(old(Abstract()), body);
        && Abstract() == r.st && err == r.err
        && (err.None? ==> forall f :: f in sub && sub[f] == Semantics.FrameGet(r.sub, f))
      ensures Valid()
    {
      ghost var st0 := Abstract();
      var stage := CopyFields();

      sub := map[];
      ResetBuildStr();
      ghost var inner := Semantics.ExecAll(Semantics.ResetBuildStr(st0), body);
      err := ExecAll(body);
      assert Abstract() == inner.st && err == inner.err;
      if err.Some? {
        return;
      }
      BuildQuery();
      ghost var built := Abstract();
      sub := CopyFields();

      RestoreFields(stage);
      FrameExt(Fields(), st0.frame);
      assert Abstract() == built.(frame := st0.frame);
    }

    method WhereBrackets(body: seq<Cmd>, op: string := "AND") returns (err: Option<BuildError>)
      requires Valid()
      modifies this
      decreases body, 3
      ensures var r := Semantics.WhereBrackets(old(Abstract()), body, op); Abstract() == r.st && err == r.err
      ensures Valid()
    {
      if whereStr == "" {
        whereStr := " WHERE " + "( ";
      } else {
        whereStr := whereStr + (" " + op + " ") + "( ";
      }
      var sub;
      err, sub := SubBuilder(body);
      if err.Some? {
        return;
      }
      whereStr := whereStr + RemoveFirst(sub[Semantics.WhereField], "WHERE") + " ) ";
    }

    method OrWhereBrackets(body: seq<Cmd>) returns (err: Option<BuildError>)
      requires Valid()
      modifies this
      ensures var r := Semantics.WhereBrackets(old(Abstract()), body, "OR"); Abstract() == r.st && err == r.err
      ensures Valid()
    {
      err := WhereBrackets(body, "OR");
    }

    method WhereExists(body: seq<Cmd>, condition: string := "EXISTS", op: string := "AND") returns (err: Option<BuildError>)
      requires Valid()
      modifies this
      decreases body, 3
      ensures var r := Semantics.WhereExists(old(Abstract()), body, condition, op); Abstract() == r.st && err == r.err
      ensures Valid()
    {
      if whereStr == "" {
        whereStr := " WHERE " + condition + " ( ";
      } else {
        whereStr := whereStr + (" " + op + " ") + condition + " ( ";
      }
      var sub;
      err, sub := SubBuilder(body);
      if err.Some? {
        return;
      }
      whereStr := whereStr + sub[Semantics.QuerySqlField] + " ) ";
    }

    method WhereNotExists(body: seq<Cmd>) returns (err: Option<BuildError>)
      requires Valid()
      modifies this
      ensures var r := Semantics.WhereExists(old(Abstract()), body, "NOT EXISTS", "AND"); Abstract() == r.st && err == r.err
      ensures Valid()
    {
      err := WhereExists(body, "NOT EXISTS", "AND");
    }

    method OrWhereExists(body: seq<Cmd>) returns (err: Option<BuildError>)
      requires Valid()
      modifies this
      ensures var r := Semantics.WhereExists(old(Abstract()), body, "EXISTS", "OR"); Abstract() == r.st && err == r.err
      ensures Valid()
    {
      err := WhereExists(body, "EXISTS", "OR");
    }

    method OrWhereNotExists(body: seq<Cmd>) returns (err: Option<BuildError>)
      requires Valid()
      modifies this
      ensures var r := Semantics.WhereExists(old(Abstract()), body, "NOT EXISTS", "OR"); Abstract() == r.st && err == r.err
      ensures Valid()
    {
      err := WhereExists(body, "NOT EXISTS", "OR");
    }

    method WhereInSub(field: string, body: seq<Cmd>, condition: string := "IN", op: string := "AND") returns (err: Option<BuildError>)
      requires Valid()
      modifies this
      decreases body, 3
      ensures var r := Semantics.WhereInSub(old(Abstract()), field, body, condition, op); Abstract() == r.st && err == r.err
      ensures Valid()
    {
      if whereStr == "" {
        whereStr := " WHERE " + Backquote(field) + " " + condition + " ( ";
      } else {
        whereStr := whereStr + (" " + op + " ") + Backquote(field) + " " + condition + " ( ";
      }
      var sub;
      err, sub := SubBuilder(body);
      if err.Some? {
        return;
      }
      whereStr := whereStr + sub[Semantics.QuerySqlField] + " ) ";
    }

    method WhereNotInSub(field: string, body: seq<Cmd>) returns (err: Option<BuildError>)
      requires Valid()
      modifies this
      ensures var r := Semantics.WhereInSub(old(Abstract()), field, body, "NOT IN", "AND"); Abstract() == r.st && err == r.err
      ensures Valid()
    {
      err := WhereInSub(field, body, "NOT IN", "AND");
    }

    method OrWhereInSub(field: string, body: seq<Cmd>) returns (err: Option<BuildError>)
      requires Valid()
      modifies this
      ensures var r := Semantics.WhereInSub(old(Abstract()), field, body, "IN", "OR"); Abstract() == r.st && err == r.err
      ensures Valid()
    {
      err := WhereInSub(field, body, "IN", "OR");
    }

    method OrWhereNotInSub(field: string, body: seq<Cmd>) returns (err: Option<BuildError>)
      requires Valid()
      modifies this
      ensures var r := Semantics.WhereInSub(old(Abstract()), field, body, "NOT IN", "OR"); Abstract() == r.st && err == r.err
      ensures Valid()
    {
      err := WhereInSub(field, body, "NOT IN", "OR");
    }

    method FromSub(body: seq<Cmd>) returns (err: Option<BuildError>)
      requires Valid()
      modifies this
      decreases body, 3
      ensures var r := Semantics.FromSub(old(Abstract()), body); Abstract() == r.st && err == r.err
      ensures Valid()
    {
      var sub;
      err, sub := SubBuilder(body);
      if err.Some? {
        return;
      }
      var id := Uniqid();
      table := table + " ( " + sub[Semantics.QuerySqlField] + " ) AS tb_" + Semantics.Uid(id) + " ";
    }

    // ----- callbacks -----

    /** One call a callback makes on the builder it receives. */
    method Exec(c: Cmd) returns (err: Option<BuildError>)
      requires Valid()
      modifies this
      decreases c, 2
      ensures var r := Semantics.Exec(old(Abstract()), c); Abstract() == r.st && err == r.err
      ensures Valid()
    {
      if c.WhereBrackets? || c.WhereExists? || c.WhereInSub? || c.FromSub? {
        err := ExecNested(c);
      } else if c.Where? || c.OrWhere? || c.WhereIn? || c.WhereBetween? || c.WhereNull? {
        err := ExecWhere(c);
      } else if c.Having? || c.OrHaving? {
        err := ExecHaving(c);
      } else if c.Table? || c.Select? {
        ExecSource(c);
        err := None;
      } else if c.GroupBy? || c.OrderBy? {
        ExecOrdering(c);
        err := None;
      } else {
        ExecJoin(c);
        err := None;
      }
    }

    /** The calls that take a callback of their own. */
    method ExecNested(c: Cmd) returns (err: Option<BuildError>)
      requires c.WhereBrackets? || c.WhereExists? || c.WhereInSub? || c.FromSub?
      requires Valid()
      modifies this
      decreases c, 1
      ensures var r := Semantics.Exec(old(Abstract()), c); Abstract() == r.st && err == r.err
      ensures Valid()
    {
      match c
      case WhereBrackets(body, op) => err := WhereBrackets(body, op);
      case WhereExists(body, condition, op) => err := WhereExists(body, condition, op);
      case WhereInSub(field, body, condition, op) => err := WhereInSub(field, body, condition, op);
      case FromSub(body) => err := FromSub(body);
    }

    /** The where family without a callback. */
    method ExecWhere(c: Cmd) returns (err: Option<BuildError>)
      requires c.Where? || c.OrWhere? || c.WhereIn? || c.WhereBetween? || c.WhereNull?
      requires Valid()
      modifies this
      ensures var r := Semantics.Exec(old(Abstract()), c); Abstract() == r.st && err == r.err
      ensures Valid()
    {
      err := None;
      match c
      case Where(args) => err := Where(args);
      case OrWhere(args) => err := OrWhere(args);
      case WhereIn(field, data, condition, op) => WhereIn(field, data, condition, op);
      case WhereBetween(field, low, high, op) => WhereBetween(field, low, high, op);
      case WhereNull(field, condition, op) => WhereNull(field, condition, op);
    }

    /** The having clause. */
    method ExecHaving(c: Cmd) returns (err: Option<BuildError>)
      requires c.Having? || c.OrHaving?
      requires Valid()
      modifies this
      ensures var r := Semantics.Exec(old(Abstract()), c); Abstract() == r.st && err == r.err
      ensures Valid()
    {
      match c
      case Having(args) => err := Having(args);
      case OrHaving(args) => err := OrHaving(args);
    }

    /** The table and the columns. */
    method ExecSource(c: Cmd)
      requires c.Table? || c.Select?
      requires Valid()
      modifies this
      ensures Abstract() == Semantics.Exec(old(Abstract()), c).st && Semantics.Exec(old(Abstract()), c).err.None?
      ensures Valid()
    {
      match c
      case Table(name) => Table(name);
      case Select(cols) => Select(cols);
    }

    /** Grouping and ordering. */
    method ExecOrdering(c: Cmd)
      requires c.GroupBy? || c.OrderBy?
      requires Valid()
      modifies this
      ensures Abstract() == Semantics.Exec(old(Abstract()), c).st && Semantics.Exec(old(Abstract()), c).err.None?
      ensures Valid()
    {
      match c
      case GroupBy(field) => GroupBy(field);
      case OrderBy(field, mode) => OrderBy(field, mode);
    }

    /** A join. */
    method ExecJoin(c: Cmd)
      requires c.Join?
      requires Valid()
      modifies this
      ensures Abstract() == Semantics.Exec(old(Abstract()), c).st && Semantics.Exec(old(Abstract()), c).err.None?
      ensures Valid()
    {
      Join(c.table, c.one, c.two, c.kind);
    }

    /** A whole callback: its calls in order, up to the first exception. */
    method ExecAll(cs: seq<Cmd>) returns (err: Option<BuildError>)
      requires Valid()
      modifies this
      decreases cs, 0
      ensures var r := Semantics.ExecAll(old(Abstract()), cs); Abstract() == r.st && err == r.err
      ensures Valid()
    {
      err := None;
      if |cs| > 0 {
        err := Exec(cs[0]);
        if err.None? {
          err := ExecAll(cs[1..]);
        }
      }
    }

    // ----- terminal calls -----

    /** `get` (and `row`, `debugDumpParams`, which differ only in how they
        read the result): the statement and its bindings handed over, then
        the builder reset. */
    method Get() returns (stmt: Statement)
      requires Valid()
      modifies this
      ensures (stmt, Abstract()) == Semantics.Terminal(old(Abstract()))
      ensures Valid()
    {
      BuildQuery();
      stmt := Semantics.Statement(querySql, bindParams);
      Reset();
    }

    method List(field: string) returns (stmt: Statement)
      requires Valid()
      modifies this
      ensures (stmt, Abstract()) == Semantics.List(old(Abstract()), field)
      ensures Valid()
    {
      colsStr := " `" + field + "` AS col_list ";
      stmt := Get();
    }

    method Count(field: string := "*") returns (stmt: Statement)
      requires Valid()
      modifies this
      ensures (stmt, Abstract()) == Semantics.Count(old(Abstract()), field)
      ensures Valid()
    {
      var f := field;
      if Trim(field) != "*" {
        f := "`" + field + "`";
      }
      colsStr := " COUNT(" + f + ") AS count_num ";
      stmt := Get();
    }

    /** The shape `sum`, `max`, `min` and `avg` share. */
    method Aggregate(fn: string, field: string, alias: string) returns (stmt: Statement)
      requires Valid()
      modifies this
      ensures (stmt, Abstract()) == Semantics.Aggregate(old(Abstract()), fn, field, alias)
      ensures Valid()
    {
      colsStr := " " + fn + "(`" + field + "`) AS " + alias + " ";
      stmt := Get();
    }

    method Sum(field: string) returns (stmt: Statement)
      requires Valid()
      modifies this
      ensures (stmt, Abstract()) == Semantics.Aggregate(old(Abstract()), "SUM", field, "sum_num")
      ensures Valid()
    {
      stmt := Aggregate("SUM", field, "sum_num");
    }

    method Max(field: string) returns (stmt: Statement)
      requires Valid()
      modifies this
      ensures (stmt, Abstract()) == Semantics.Aggregate(old(Abstract()), "MAX", field, "max_num")
      ensures Valid()
    {
      stmt := Aggregate("MAX", field, "max_num");
    }

    method Min(field: string) returns (stmt: Statement)
      requires Valid()
      modifies this
      ensures (stmt, Abstract()) == Semantics.Aggregate(old(Abstract()), "MIN", field, "min_num")
      ensures Valid()
    {
      stmt := Aggregate("MIN", field, "min_num");
    }

    method Avg(field: string) returns (stmt: Statement)
      requires Valid()
      modifies this
      ensures (stmt, Abstract()) == Semantics.Aggregate(old(Abstract()), "AVG", field, "avg_num")
      ensures Valid()
    {
      stmt := Aggregate("AVG", field, "avg_num");
    }
  }
}
