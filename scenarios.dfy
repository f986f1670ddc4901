/** Whole statements built call by call: the documented examples of
    quoting, the two end-to-end queries, the condition errors, and a second
    statement on a builder that has just run one. The counter value `n` the
    builder starts from is arbitrary. */
module Scenarios {
  import opened Text
  import opened Quoting
  import Commands
  import opened Semantics
  import opened Properties

  // ===================== quoting =====================

  /** A bare identifier is wrapped in backquotes: `status`. */
  lemma QuoteStatus()
    ensures Backquote("status") == "`status`"
  {
    BackquoteWord("status");
  }

  /** A qualified name has each part quoted: `users.id`. */
  lemma QuoteUsersId(t: string, f: string)
    requires t == "users" && f == "id"
    ensures Backquote(t + "." + f) == "`users`.`id`"
  {
    BackquoteQualified(t, f);
  }

  /** A function call passes through: `COUNT(*)`. */
  lemma QuoteCount()
    ensures Backquote("COUNT(*)") == "COUNT(*)"
  {
    assert "COUNT(*)" == "COUNT" + "(" + "*" + ")";
    BackquoteCall("COUNT", "*");
  }

  // ===================== condition errors =====================

  /** A one-argument `where` without an array, a three-argument `where` with
      `LIKE`, and a four-argument `where` are refused with their exceptions;
      the clause keyword has been written all the same, and nothing has been
      bound. */
  lemma WhereErrorExamples(st: State)
    requires st.frame.where == ""
    ensures var r := Where(st, [Commands.Str("status")], "AND");
      r.err == Some(Commands.NotArray("status")) && r.st.frame.where == " WHERE "
      && r.st.binds == st.binds && r.st.next == st.next
    ensures var r := Where(st, [Commands.Str("name"), Commands.Str("LIKE"), Commands.Str("a%")], "AND");
      r.err == Some(Commands.ConfusingSymbol("LIKE")) && r.st.frame.where == " WHERE "
      && r.st.binds == st.binds && r.st.next == st.next
    ensures var r := Where(st, [Commands.Int(1), Commands.Int(2), Commands.Int(3), Commands.Int(4)], "AND");
      r.err == Some(Commands.ParamCount) && r.st.frame.where == " WHERE "
      && r.st.binds == st.binds && r.st.next == st.next
  {
    assert !IsComparison(Commands.Str("LIKE"));
  }

  // ===================== a map condition, then a comparison =====================

  /** The first `where` with a one-entry map on a builder without a where
      clause: ` WHERE `, the quoted field, `=`, and a fresh placeholder bound
      to the value. */
  lemma FirstMapWhere(st: State, f: string, v: Arg)
    requires st.frame.where == "" && IsWord(f)
    ensures var r := Where(st, [Commands.Assoc([(f, v)])], "AND");
      && r.err.None?
      && r.st == State(st.frame.(where := " WHERE  `" + f + "` = " + Plh(st.next) + " "), st.binds[st.next := v], st.next + 1)
  {
    BackquoteWord(f);
    FirstMapQuoted(st, f, v, Plh(st.next));
  }

  lemma FirstMapQuoted(st: State, f: string, v: Arg, p: string)
    requires st.frame.where == "" && Backquote(f) == "`" + f + "`" && p == Plh(st.next)
    ensures var r := Where(st, [Commands.Assoc([(f, v)])], "AND");
      && r.err.None?
      && r.st == State(st.frame.(where := " WHERE  `" + f + "` = " + p + " "), st.binds[st.next := v], st.next + 1)
  {
    var es := [(f, v)];
    var c := ConditionConstructor([Commands.Assoc(es)], "AND", " WHERE ", st.binds, st.next);
    assert WhereStart(st, "AND") == " WHERE ";
    OneEntry(f, v, " WHERE ", st.binds, st.next, p);
    ReshapeFirst(f, p);
    assert c == CondOk(" WHERE  `" + f + "` = " + p + " ", st.binds[st.next := v], st.next + 1);
  }

  /** The one-entry map form: one term, one binding. */
  lemma OneEntry(f: string, v: Arg, s: string, binds: map<nat, Arg>, next: nat, p: string)
    requires |s| > 0 && s[|s| - 1] == ' ' && Backquote(f) == "`" + f + "`" && p == Plh(next)
    ensures ConditionConstructor([Commands.Assoc([(f, v)])], "AND", s, binds, next)
         == CondOk(s + (" " + ("`" + f + "`") + " = " + p + " "), binds[next := v], next + 1)
  {
    var es := [(f, v)];
    ConditionMapText(es, "AND", s, binds, next);
    assert es[..0] == [];
    assert Terms(es, next) == [Term(f, p)];
    assert Values(es) == [v];
    assert BindAll(binds, [v], next) == binds[next := v] by {
      assert [v][..0] == [];
    }
  }

  /** A further `where(field, op, value)`: ` AND `, the quoted field, the
      operator and a fresh placeholder bound to the value. */
  lemma NextCompareWhere(st: State, f: string, args: seq<Arg>)
    requires st.frame.where != "" && IsWord(f)
    requires |args| == 3 && args[0] == Commands.Str(f) && IsComparison(args[1])
    ensures var r := Where(st, args, "AND");
      && r.err.None?
      && r.st.frame == st.frame.(where := st.frame.where + " AND  `" + f + "` " + args[1].s + " " + Plh(st.next) + " ")
      && r.st.binds == st.binds[st.next := args[2]]
      && r.st.next == st.next + 1
  {
    BackquoteWord(f);
    NextCompareQuoted(st, f, args, Plh(st.next));
  }

  lemma NextCompareQuoted(st: State, f: string, args: seq<Arg>, p: string)
    requires st.frame.where != "" && Backquote(f) == "`" + f + "`" && p == Plh(st.next)
    requires |args| == 3 && args[0] == Commands.Str(f) && IsComparison(args[1])
    ensures var r := Where(st, args, "AND");
      && r.err.None?
      && r.st.frame == st.frame.(where := st.frame.where + " AND  `" + f + "` " + args[1].s + " " + p + " ")
      && r.st.binds == st.binds[st.next := args[2]]
      && r.st.next == st.next + 1
  {
    WhereCompare(st, args, "AND");
    assert WhereStart(st, "AND") == st.frame.where + " AND ";
    ReshapeNext(st.frame.where, f, args[1].s, p);
  }

  /** The state `table(t)->where([f1 => v1])->where(f2, cmp, v2)` leaves on a
      fresh builder: the two conditions joined by `AND`, the two values bound
      under two consecutive ids. */
  lemma MapThenCompareState(n: nat, t: string, f1: string, v1: Arg, f2: string, args: seq<Arg>, q: seq<Cmd>)
    requires IsWord(t) && IsWord(f1) && IsWord(f2)
    requires |args| == 3 && args[0] == Commands.Str(f2) && IsComparison(args[1])
    requires |q| == 3 && q[0] == Commands.Table(t) && q[1] == Commands.Where([Commands.Assoc([(f1, v1)])])
      && q[2] == Commands.Where(args)
    ensures var r := ExecAll(Initial(n), q);
      && r.err.None?
      && r.st.frame == EmptyFrame.(table := "`" + t + "`",
                                   where := " WHERE  `" + f1 + "` = " + Plh(n) + "  AND  `" + f2 + "` " + args[1].s + " " + Plh(n + 1) + " ")
      && r.st.binds == map[n := v1][n + 1 := args[2]]
      && r.st.next == n + 2
  {
    BackquoteWord(t);
    BackquoteWord(f1);
    BackquoteWord(f2);
    MapThenCompareQuoted(n, t, f1, v1, f2, args, q, Plh(n), Plh(n + 1));
  }

  lemma {:induction false} MapThenCompareQuoted(n: nat, t: string, f1: string, v1: Arg, f2: string, args: seq<Arg>, q: seq<Cmd>, p1: string, p2: string)
    requires Backquote(t) == "`" + t + "`" && Backquote(f1) == "`" + f1 + "`" && Backquote(f2) == "`" + f2 + "`"
    requires p1 == Plh(n) && p2 == Plh(n + 1)
    requires |args| == 3 && args[0] == Commands.Str(f2) && IsComparison(args[1])
    requires |q| == 3 && q[0] == Commands.Table(t) && q[1] == Commands.Where([Commands.Assoc([(f1, v1)])])
      && q[2] == Commands.Where(args)
    ensures var r := ExecAll(Initial(n), q);
      && r.err.None?
      && r.st.frame == EmptyFrame.(table := "`" + t + "`",
                                   where := " WHERE  `" + f1 + "` = " + p1 + "  AND  `" + f2 + "` " + args[1].s + " " + p2 + " ")
      && r.st.binds == map[n := v1][n + 1 := args[2]]
      && r.st.next == n + 2
  {
    var st0 := Initial(n);
    var st1 := State(EmptyFrame.(table := "`" + t + "`"), map[], n);
    var a1 := [Commands.Assoc([(f1, v1)])];
    var w1 := " WHERE  `" + f1 + "` = " + p1 + " ";
    var st2 := State(st1.frame.(where := w1), map[n := v1], n + 1);
    var w2 := w1 + " AND  `" + f2 + "` " + args[1].s + " " + p2 + " ";
    var st3 := State(st1.frame.(where := w2), map[n := v1][n + 1 := args[2]], n + 2);
    ExecTable(st0, t, st1);
    TwoWheres(st1, f1, v1, f2, args, p1, p2);
    ExecWhere(st1, a1, Res(st2, None));
    ExecWhere(st2, args, Res(st3, None));
    ExecAllThree(st0, q, st1, st2, st3);
    ReshapeTwoConditions(f1, p1, f2, args[1].s, p2);
  }

  /** The two `where` calls of the scenario above, on a builder without a
      where clause. */
  lemma TwoWheres(st: State, f1: string, v1: Arg, f2: string, args: seq<Arg>, p1: string, p2: string)
    requires st.frame.where == "" && Backquote(f1) == "`" + f1 + "`" && Backquote(f2) == "`" + f2 + "`"
    requires p1 == Plh(st.next) && p2 == Plh(st.next + 1)
    requires |args| == 3 && args[0] == Commands.Str(f2) && IsComparison(args[1])
    ensures var w1 := " WHERE  `" + f1 + "` = " + p1 + " ";
      var st2 := State(st.frame.(where := w1), st.binds[st.next := v1], st.next + 1);
      var w2 := w1 + " AND  `" + f2 + "` " + args[1].s + " " + p2 + " ";
      && Where(st, [Commands.Assoc([(f1, v1)])], "AND") == Res(st2, None)
      && Where(st2, args, "AND") == Res(State(st.frame.(where := w2), st.binds[st.next := v1][st.next + 1 := args[2]], st.next + 2), None)
  {
    FirstMapQuoted(st, f1, v1, p1);
    var w1 := " WHERE  `" + f1 + "` = " + p1 + " ";
    var st2 := State(st.frame.(where := w1), st.binds[st.next := v1], st.next + 1);
    assert w1[0] == ' ';
    NextCompareQuoted(st2, f2, args, p2);
  }

  /** ... followed by `get()`: one statement with the two conditions, the two
      values under the two placeholders it mentions, and a builder as new
      with the counter moved on; for instance `users`, `status` = 1 and
      `age` > 18. */
  lemma {:induction false} MapThenCompareScenario(n: nat, t: string, f1: string, v1: Arg, f2: string, args: seq<Arg>, q: seq<Cmd>)
    requires IsWord(t) && IsWord(f1) && IsWord(f2)
    requires |args| == 3 && args[0] == Commands.Str(f2) && IsComparison(args[1])
    requires |q| == 3 && q[0] == Commands.Table(t) && q[1] == Commands.Where([Commands.Assoc([(f1, v1)])])
      && q[2] == Commands.Where(args)
    ensures var r := ExecAll(Initial(n), q);
      && r.err.None?
      && Terminal(r.st).0.sql
         == "SELECT  *   FROM `" + t + "`"
            + (" WHERE  `" + f1 + "` = " + Plh(n) + "  AND  `" + f2 + "` " + args[1].s + " " + Plh(n + 1) + " ")
      && Terminal(r.st).0.params == map[n := v1][n + 1 := args[2]]
      && Terminal(r.st).1 == Initial(n + 2)
  {
    MapThenCompareState(n, t, f1, v1, f2, args, q);
    var w := " WHERE  `" + f1 + "` = " + Plh(n) + "  AND  `" + f2 + "` " + args[1].s + " " + Plh(n + 1) + " ";
    SqlOf("`" + t + "`", w);
    ReshapeMapThenCompare(t, w);
  }

  /** The statement of a query that sets only the table and the where clause. */
  lemma SqlOf(table: string, where: string)
    ensures Sql(EmptyFrame.(table := table, where := where)) == "SELECT  *   FROM " + table + where
  {
    ReshapeSql(" * ", table, where);
    assert "SELECT " + " * " + "  FROM " == "SELECT  *   FROM ";
  }

  // ===================== an IN list and count() =====================

  /** Two values bound from the counter on. */
  lemma {:induction false} BindTwoValues(binds: map<nat, Arg>, data: seq<Arg>, n: nat)
    requires |data| == 2
    ensures BindAll(binds, data, n) == binds[n := data[0]][n + 1 := data[1]]
  {
    assert BindAll(binds, data[..1], n) == BindAll(binds, data[..1][..0], n)[n := data[0]];
    assert data[..1][..0] == [];
  }

  /** The list of two placeholders. */
  lemma TwoPlaceholders(n: nat)
    ensures Implode(Plhs(n, 2), ",") == Plh(n) + "," + Plh(n + 1)
  {
    assert Plhs(n, 2) == [Plh(n), Plh(n + 1)];
  }

  /** The state `table(t)->whereIn(f, [a, b])` leaves on a fresh builder:
      one `IN` list of two placeholders, bound to the two values in order. */
  lemma {:induction false} InListState(n: nat, t: string, f: string, data: seq<Arg>, q: seq<Cmd>)
    requires IsWord(t) && IsWord(f) && |data| == 2
    requires |q| == 2 && q[0] == Commands.Table(t) && q[1] == Commands.WhereIn(f, data, "IN", "AND")
    ensures var r := ExecAll(Initial(n), q);
      && r.err.None?
      && r.st.frame == EmptyFrame.(table := "`" + t + "`", where := " WHERE `" + f + "` IN (" + Plh(n) + "," + Plh(n + 1) + ")")
      && r.st.binds == map[n := data[0]][n + 1 := data[1]]
      && r.st.next == n + 2
  {
    var st0 := Initial(n);
    BackquoteWord(t);
    var st1 := Table(st0, t);
    BackquoteWord(f);
    var st2 := WhereIn(st1, f, data, "IN", "AND");
    ExecTable(st0, t, st1);
    ExecWhereIn(st1, f, data, st2);
    ExecAllTwo(st0, q, st1, st2);
    TwoPlaceholders(n);
    ReshapeInList(f, Plh(n), Plh(n + 1));
    BindTwoValues(map[], data, n);
  }

  /** ... followed by `count()`: the statement counts the rows whose field is
      one of the two bound values; for instance `orders` with `status` in
      `paid`, `shipped`. */
  lemma {:induction false} InListCountScenario(n: nat, t: string, f: string, data: seq<Arg>, q: seq<Cmd>)
    requires IsWord(t) && IsWord(f) && |data| == 2
    requires |q| == 2 && q[0] == Commands.Table(t) && q[1] == Commands.WhereIn(f, data, "IN", "AND")
    ensures var r := ExecAll(Initial(n), q);
      && r.err.None?
      && Count(r.st, "*").0.sql
         == "SELECT  COUNT(*) AS count_num   FROM `" + t + "`" + (" WHERE `" + f + "` IN (" + Plh(n) + "," + Plh(n + 1) + ")")
      && Count(r.st, "*").0.params == map[n := data[0]][n + 1 := data[1]]
  {
    InListState(n, t, f, data, q);
    var w := " WHERE `" + f + "` IN (" + Plh(n) + "," + Plh(n + 1) + ")";
    CountOf(ExecAll(Initial(n), q).st, "`" + t + "`", w);
    ReshapeCount(t, w);
  }

  lemma CountAll()
    ensures Trim("*") == "*"
  {
  }

  /** `count()` of a query that sets only the table and the where clause. */
  lemma CountOf(st: State, table: string, where: string)
    requires st.frame == EmptyFrame.(table := table, where := where)
    ensures Count(st, "*").0 == Statement("SELECT  COUNT(*) AS count_num   FROM " + table + where, st.binds)
  {
    CountAll();
    CountCols();
    assert WithCols(st, " COUNT(*) AS count_num ").frame == EmptyFrame.(table := table, where := where, cols := " COUNT(*) AS count_num ");
    CountSqlOf(table, where);
  }

  lemma CountCols()
    ensures " COUNT(" + "*" + ") AS count_num " == " COUNT(*) AS count_num "
  {
  }


  lemma CountSqlOf(table: string, where: string)
    ensures Sql(EmptyFrame.(table := table, where := where, cols := " COUNT(*) AS count_num "))
         == "SELECT  COUNT(*) AS count_num   FROM " + table + where
  {
    ReshapeSql(" COUNT(*) AS count_num ", table, where);
    assert "SELECT " + " COUNT(*) AS count_num " + "  FROM " == "SELECT  COUNT(*) AS count_num   FROM ";
  }

  // ===================== a binding no clause mentions =====================

  /** `whereBrackets(function ($q) { $q->having(f, v); })` on a builder
      without a where clause: the brackets embed only the callback's where
      fragment, which is empty, while the value stays bound under a fresh id.
      The statement then carries a binding whose placeholder none of its
      clauses mentions. */
  lemma {:induction false} BracketsDropHaving(st: State, f: string, v: Arg)
    requires st.frame.where == ""
    ensures var r := WhereBrackets(st, [Commands.Having([Commands.Str(f), v])]);
      && r.err.None?
      && r.st.frame == st.frame.(where := " WHERE (  ) ")
      && r.st.binds == st.binds[st.next := v]
      && r.st.next == st.next + 1
  {
    var body := [Commands.Having([Commands.Str(f), v])];
    var st1 := st.(frame := st.frame.(where := " WHERE ( "));
    var z := ResetBuildStr(st1);
    var h := HavingOnEmpty(z, f, v);
    ExecAllOne(z, body[0], body, Res(h, None));
    var sr := SubBuilder(st1, body);
    assert sr.err.None? && sr.sub.where == "" && sr.st == State(st1.frame, h.binds, h.next);
    assert RemoveFirst("", "WHERE") == "";
    assert WhereStart(st, "AND") + "( " == " WHERE ( ";
    assert " WHERE ( " + "" + " ) " == " WHERE (  ) ";
  }

  /** On a new builder the same call binds one value, and no clause holds a
      `:`: the placeholder of that binding occurs nowhere in the statement
      that is handed to the database. */
  lemma BracketsDropHavingUnused(n: nat, f: string, v: Arg)
    ensures var r := WhereBrackets(Initial(n), [Commands.Having([Commands.Str(f), v])]);
      var sql := Sql(r.st.frame);
      && r.err.None?
      && r.st.frame == EmptyFrame.(where := " WHERE (  ) ")
      && r.st.binds == map[n := v]
      && forall k :: 0 <= k <= |sql| ==> !(Plh(n) <= sql[k..])
  {
    BracketsDropHaving(Initial(n), f, v);
    var fr := EmptyFrame.(where := " WHERE (  ) ");
    assert ':' !in fr.where;
    SqlNoColon(fr);
    NoColonNoPlh(Sql(fr), n);
  }

  /** A statement assembled from clauses without `:` has none either. */
  lemma SqlNoColon(fr: Frame)
    requires ':' !in fr.cols && ':' !in fr.table && ':' !in fr.join && ':' !in fr.where
    requires ':' !in fr.groupBy && ':' !in fr.having && ':' !in fr.orderBy
    ensures ':' !in Sql(fr)
  {
  }

  /** A text without `:` contains no placeholder. */
  lemma NoColonNoPlh(sql: string, n: nat)
    requires ':' !in sql
    ensures forall k :: 0 <= k <= |sql| ==> !(Plh(n) <= sql[k..])
  {
    assert Plh(n)[0] == ':';
    forall k | 0 <= k <= |sql|
      ensures !(Plh(n) <= sql[k..])
    {
      if k < |sql| {
        assert sql[k] in sql;
      }
    }
  }

  /** `having(f, v)` on a builder without a having clause. */
  lemma HavingOnEmpty(z: State, f: string, v: Arg) returns (h: State)
    requires z.frame.having == ""
    ensures Exec(z, Commands.Having([Commands.Str(f), v])) == Res(h, None)
    ensures h.frame == z.frame.(having := " HAVING " + Term(f, Plh(z.next)))
    ensures h.binds == z.binds[z.next := v] && h.next == z.next + 1
  {
    h := State(z.frame.(having := " HAVING " + Term(f, Plh(z.next))), z.binds[z.next := v], z.next + 1);
    HavingFirst(z, f, v, h);
  }

  /** The same step, before the interpreter dispatches it. */
  lemma HavingFirst(z: State, f: string, v: Arg, h: State)
    requires z.frame.having == ""
    requires h == State(z.frame.(having := " HAVING " + Term(f, Plh(z.next))), z.binds[z.next := v], z.next + 1)
    ensures Having(z, [Commands.Str(f), v], "AND") == Res(h, None)
  {
    var args := [Commands.Str(f), v];
    assert Commands.ArgText(args[0]) == f;
    assert ConditionConstructor(args, "AND", " HAVING ", z.binds, z.next)
      == CondOk(" HAVING " + Term(f, Plh(z.next)), z.binds[z.next := v], z.next + 1);
  }



  // ===================== reset after a terminal call =====================

  /** After any statement has been handed over, `table(t)->select(cols)->get()`
      with `*` among the columns produces a statement about `t` alone, without
      bindings: nothing of the earlier statement is left over. */
  lemma {:induction false} ResetScenario(st: State, t: string, cols: seq<string>)
    requires IsWord(t) && "*" in cols
    ensures var after := Terminal(st).1;
      Terminal(Select(Table(after, t), cols)).0 == Statement("SELECT  *   FROM `" + t + "`", map[])
  {
    BackquoteWord(t);
    var s := Select(Table(Terminal(st).1, t), cols);
    assert s.frame == EmptyFrame.(table := "`" + t + "`");
    SqlOf("`" + t + "`", "");
    ReshapeTable(t);
  }

  // ===================== solver helpers =====================

  // The lemmas below state nothing about the builder: they re-associate
  // string concatenations, unfold one step of the interpreter, or chain
  // calls that return, so that the scenarios above stay short.

  lemma ReshapeFirst(f: string, p: string)
    ensures " WHERE " + (" " + ("`" + f + "`") + " = " + p + " ") == " WHERE  `" + f + "` = " + p + " "
  {
  }

  lemma ReshapeNext(w: string, f: string, cmp: string, p: string)
    ensures w + " AND " + " " + ("`" + f + "`") + " " + cmp + " " + p + " " == w + " AND  `" + f + "` " + cmp + " " + p + " "
  {
    assert w + " AND " + " " + ("`" + f + "`") + " " == w + " AND  `" + f + "` ";
  }

  lemma ExecTable(st: State, t: string, r: State)
    requires Table(st, t) == r
    ensures Exec(st, Commands.Table(t)) == Res(r, None)
  {
  }

  lemma ExecWhere(st: State, args: seq<Arg>, r: Res)
    requires Where(st, args, "AND") == r
    ensures Exec(st, Commands.Where(args)) == r
  {
  }

  lemma ExecWhereIn(st: State, f: string, data: seq<Arg>, r: State)
    requires WhereIn(st, f, data, "IN", "AND") == r
    ensures Exec(st, Commands.WhereIn(f, data, "IN", "AND")) == Res(r, None)
  {
  }

  /** Two calls that return, one after the other. */
  lemma {:induction false} ExecAllTwo(st0: State, q: seq<Cmd>, st1: State, st2: State)
    requires |q| == 2 && Exec(st0, q[0]) == Res(st1, None) && Exec(st1, q[1]) == Res(st2, None)
    ensures ExecAll(st0, q) == Res(st2, None)
  {
    assert ExecAll(st0, q) == ExecAll(st1, q[1..]);
    assert ExecAll(st1, q[1..]) == ExecAll(st2, q[2..]);
  }

  /** Three calls that return, one after the other. */
  lemma {:induction false} ExecAllThree(st0: State, q: seq<Cmd>, st1: State, st2: State, st3: State)
    requires |q| == 3 && Exec(st0, q[0]) == Res(st1, None) && Exec(st1, q[1]) == Res(st2, None)
      && Exec(st2, q[2]) == Res(st3, None)
    ensures ExecAll(st0, q) == Res(st3, None)
  {
    assert ExecAll(st0, q) == ExecAll(st1, q[1..]);
    ExecAllTwo(st1, q[1..], st2, st3);
  }

  lemma ReshapeTwoConditions(f1: string, p1: string, f2: string, cmp: string, p2: string)
    ensures " WHERE  `" + f1 + "` = " + p1 + " " + " AND  `" + f2 + "` " + cmp + " " + p2 + " "
         == " WHERE  `" + f1 + "` = " + p1 + "  AND  `" + f2 + "` " + cmp + " " + p2 + " "
  {
  }

  lemma ReshapeMapThenCompare(t: string, w: string)
    ensures "SELECT  *   FROM " + ("`" + t + "`") + w == "SELECT  *   FROM `" + t + "`" + w
  {
  }

  lemma ReshapeSql(cols: string, t: string, w: string)
    ensures "SELECT " + cols + " " + " FROM " + t + "" + w + "" + "" + "" == "SELECT " + cols + "  FROM " + t + w
  {
  }

  lemma ReshapeInList(f: string, p1: string, p2: string)
    ensures " WHERE " + (("`" + f + "`") + " " + "IN" + " (" + (p1 + "," + p2) + ")")
         == " WHERE `" + f + "` IN (" + p1 + "," + p2 + ")"
  {
  }

  lemma ReshapeCount(t: string, w: string)
    ensures "SELECT  COUNT(*) AS count_num   FROM " + ("`" + t + "`") + w == "SELECT  COUNT(*) AS count_num   FROM `" + t + "`" + w
  {
  }

  /** A callback of one call that does not throw. */
  lemma ExecAllOne(st: State, c: Cmd, body: seq<Cmd>, r: Res)
    requires body == [c] && Exec(st, c) == r && r.err.None?
    ensures ExecAll(st, body) == r
  {
    assert body[1..] == [];
  }

  lemma ReshapeTable(t: string)
    ensures "SELECT  *   FROM " + ("`" + t + "`") + "" == "SELECT  *   FROM `" + t + "`"
  {
  }
}
