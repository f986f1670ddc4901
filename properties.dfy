/** What the builder promises, proved about the value-level semantics:
    placeholder freshness and binding counts, the condition constructor's
    error cases, the per-clause start/append rules, isolation of nested
    statements with shared bindings, and reset after a terminal call. */
module Properties {
  import opened Text
  import opened Quoting
  import Commands
  import opened Semantics

  // ===================== placeholders =====================

  /** Binding `vals` under fresh ids keeps every earlier binding, adds exactly
      one entry per value, and leaves the ids from `next + |vals|` on unused. */
  lemma {:induction false} BindAllFresh(binds: map<nat, Arg>, vals: seq<Arg>, next: nat)
    requires forall i :: i in binds ==> i < next
    ensures var r := BindAll(binds, vals, next);
      && (forall k :: k in binds ==> k in r && r[k] == binds[k])
      && (forall j :: next <= j < next + |vals| ==> j in r && r[j] == vals[j - next])
      && (forall j :: j in r ==> j < next + |vals|)
      && |r| == |binds| + |vals|
  {
    BindAllKeeps(binds, vals, next);
    BindAllValues(binds, vals, next);
    BindAllBounded(binds, vals, next);
  }

  /** One step of `BindAll`: the last value under the last id. */
  lemma BindAllLast(binds: map<nat, Arg>, vals: seq<Arg>, next: nat)
    requires |vals| > 0
    ensures BindAll(binds, vals, next) == BindAll(binds, vals[..|vals| - 1], next)[next + |vals| - 1 := vals[|vals| - 1]]
  {
  }

  lemma {:induction false} BindAllKeeps(binds: map<nat, Arg>, vals: seq<Arg>, next: nat)
    requires forall i :: i in binds ==> i < next
    ensures var r := BindAll(binds, vals, next);
      forall k :: k in binds ==> k in r && r[k] == binds[k]
    decreases |vals|
  {
    if |vals| > 0 {
      BindAllKeeps(binds, vals[..|vals| - 1], next);
      BindAllLast(binds, vals, next);
    }
  }

  lemma {:induction false} BindAllValues(binds: map<nat, Arg>, vals: seq<Arg>, next: nat)
    ensures var r := BindAll(binds, vals, next);
      forall j :: next <= j < next + |vals| ==> j in r && r[j] == vals[j - next]
    decreases |vals|
  {
    if |vals| > 0 {
      var n := |vals| - 1;
      BindAllValues(binds, vals[..n], next);
      BindAllLast(binds, vals, next);
      var prev := BindAll(binds, vals[..n], next);
      forall j | next <= j < next + n ensures prev[j] == vals[j - next] {
        assert vals[..n][j - next] == vals[j - next];
      }
    }
  }

  lemma {:induction false} BindAllBounded(binds: map<nat, Arg>, vals: seq<Arg>, next: nat)
    requires forall i :: i in binds ==> i < next
    ensures var r := BindAll(binds, vals, next);
      && (forall j :: j in r ==> j < next + |vals|)
      && |r| == |binds| + |vals|
    decreases |vals|
  {
    if |vals| > 0 {
      var n := |vals| - 1;
      BindAllBounded(binds, vals[..n], next);
      BindAllLast(binds, vals, next);
      var prev := BindAll(binds, vals[..n], next);
      assert next + n !in prev;
    }
  }

  /** The bindings of `b` contain those of `a` unchanged, the counter has not
      gone back, and freshness is kept. */
  ghost predicate Extends(a: State, b: State)
  {
    Fresh(a) ==>
      && Fresh(b)
      && a.next <= b.next
      && forall k :: k in a.binds ==> k in b.binds && b.binds[k] == a.binds[k]
  }

  lemma ExtendsTrans(a: State, b: State, c: State)
    requires Extends(a, b) && Extends(b, c)
    ensures Extends(a, c)
  {
  }

  // ===================== condition constructor =====================

  /** How many placeholders a successful condition call binds. */
  function NewBindings(args: seq<Arg>): nat
  {
    if |args| == 1 && args[0].Assoc? then |args[0].entries| else 1
  }

  /** `_condition_constructor` fails exactly in its three error cases, with
      the matching exception. */
  lemma ConditionErrors(args: seq<Arg>, op: string, s: string, binds: map<nat, Arg>, next: nat)
    ensures var r := ConditionConstructor(args, op, s, binds, next);
      && (r.CondErr? <==> (|args| == 0 || |args| > 3
                           || (|args| == 1 && !args[0].Assoc?)
                           || (|args| == 3 && !IsComparison(args[1]))))
      && ((|args| == 0 || |args| > 3) ==> r == CondErr(Commands.ParamCount))
      && (|args| == 1 && !args[0].Assoc? ==> r == CondErr(Commands.NotArray(Commands.ArgText(args[0]))))
      && (|args| == 3 && !IsComparison(args[1]) ==> r == CondErr(Commands.ConfusingSymbol(Commands.ArgText(args[1]))))
  {
  }

  /** A successful condition call binds one fresh placeholder per value (one
      per map entry, or one) and keeps every earlier binding. */
  lemma ConditionBindings(args: seq<Arg>, op: string, s: string, binds: map<nat, Arg>, next: nat)
    requires forall i :: i in binds ==> i < next
    ensures var r := ConditionConstructor(args, op, s, binds, next);
      r.CondOk? ==>
        && r.next == next + NewBindings(args)
        && |r.binds| == |binds| + NewBindings(args)
        && (forall k :: k in binds ==> k in r.binds && r.binds[k] == binds[k])
        && (forall i :: i in r.binds ==> i < r.next)
  {
    var r := ConditionConstructor(args, op, s, binds, next);
    if r.CondOk? {
      if |args| == 1 {
        BindAllFresh(binds, Values(args[0].entries), next);
      }
    }
  }

  /** Suffixing every part with the separator is joining with it and then
      adding one more separator. */
  lemma {:induction false} SuffixedImplode(parts: seq<string>, sep: string)
    requires |parts| > 0
    ensures Suffixed(parts, sep) == Implode(parts, sep) + sep
    decreases |parts|
  {
    var init := parts[..|parts| - 1];
    var last := parts[|parts| - 1];
    if |parts| > 1 {
      SuffixedImplode(init, sep);
      ConcatCongruence(Suffixed(init, sep), Implode(init, sep) + sep, last + sep);
      assert Suffixed(parts, sep) == Implode(init, sep) + sep + last + sep;
    }
  }

  lemma ConcatCongruence(a: string, b: string, c: string)
    requires a == b
    ensures a + c == b + c
  {
  }

  /** Trimming a mask off `x + y` stops at `x` when all of `y` is in the mask
      and `x` ends outside it. */
  lemma {:induction false} TrimRightSuffix(x: string, y: string, mask: set<char>)
    requires forall i :: 0 <= i < |y| ==> y[i] in mask
    requires |x| > 0 && x[|x| - 1] !in mask
    ensures TrimRight(x + y, mask) == x
    decreases |y|
  {
    if |y| > 0 {
      assert (x + y)[..|x + y| - 1] == x + y[..|y| - 1];
      TrimRightSuffix(x, y[..|y| - 1], mask);
    } else {
      assert x + y == x;
    }
  }

  /** With the builder's `AND`/`OR` operators, the character-mask `rtrim` of
      the map form removes exactly the trailing operator: the fragment gains
      the terms joined by the operator (and nothing, for an empty map). */
  lemma ConditionMapText(es: seq<(string, Arg)>, op: string, s: string, binds: map<nat, Arg>, next: nat)
    requires op == "AND" || op == "OR"
    requires |s| > 0 && s[|s| - 1] == ' '
    ensures ConditionConstructor([Commands.Assoc(es)], op, s, binds, next).s == s + Implode(Terms(es, next), op)
  {
    var ts := Terms(es, next);
    assert ConditionConstructor([Commands.Assoc(es)], op, s, binds, next).s == TrimRight(s + Suffixed(ts, op), CharsOf(op));
    if |es| > 0 {
      TermsEndInSpace(es, op, next);
    }
    TrimSuffixed(s, ts, op);
  }

  /** `rtrim` with the operator's characters undoes the last operator of the
      suffixed parts, given that the text before it ends in a space. */
  lemma TrimSuffixed(s: string, parts: seq<string>, op: string)
    requires op == "AND" || op == "OR"
    requires |s| > 0 && s[|s| - 1] == ' '
    requires |parts| > 0 ==> var r := Implode(parts, op); |r| > 0 && r[|r| - 1] == ' '
    ensures TrimRight(s + Suffixed(parts, op), CharsOf(op)) == s + Implode(parts, op)
  {
    if |parts| == 0 {
      assert s + Suffixed(parts, op) == s;
      assert ' ' !in CharsOf(op);
    } else {
      var imp := Implode(parts, op);
      SuffixedImplode(parts, op);
      AppendEnd(s, imp);
      assert s + Suffixed(parts, op) == (s + imp) + op;
      TrimOperator(s + imp, op);
    }
  }

  /** `rtrim(body . op, op)` gives back `body` when `body` ends in a space. */
  lemma TrimOperator(body: string, op: string)
    requires op == "AND" || op == "OR"
    requires |body| > 0 && body[|body| - 1] == ' '
    ensures TrimRight(body + op, CharsOf(op)) == body
  {
    var mask := CharsOf(op);
    assert ' ' !in mask;
    forall i | 0 <= i < |op| ensures op[i] in mask {
      assert op[i] in op;
    }
    TrimRightSuffix(body, op, mask);
  }

  /** The joined terms of a non-empty map end in a space. */
  lemma TermsEndInSpace(es: seq<(string, Arg)>, op: string, next: nat)
    requires |es| > 0
    ensures var r := Implode(Terms(es, next), op); |r| > 0 && r[|r| - 1] == ' '
  {
    var ts := Terms(es, next);
    var t := ts[|ts| - 1];
    assert t == " " + Backquote(es[|es| - 1].0) + " = " + Plh(next + |es| - 1) + " ";
    assert t[|t| - 1] == ' ';
    ImplodeEnd(ts, op);
  }

  /** A non-empty join ends the way its last part does. */
  lemma ImplodeEnd(parts: seq<string>, sep: string)
    requires |parts| > 0 && |parts[|parts| - 1]| > 0
    ensures var r := Implode(parts, sep); var last := parts[|parts| - 1];
      |r| > 0 && r[|r| - 1] == last[|last| - 1]
  {
  }

  lemma AppendEnd(x: string, y: string)
    requires |y| > 0
    ensures |x + y| > 0 && (x + y)[|x + y| - 1] == y[|y| - 1]
  {
  }

  /** `where`/`orWhere`/`having`/`orHaving`: the clause gets its keyword on
      first use and the connector otherwise, before the condition and even
      when the condition throws; no other structural field changes; a throw
      leaves the bindings and the counter as they were. */
  lemma ConditionOnRule(st: State, f: Field, keyword: string, args: seq<Arg>, op: string)
    requires keyword == " WHERE " || keyword == " HAVING "
    requires op == "AND" || op == "OR"
    ensures var r := ConditionOn(st, f, keyword, args, op);
      var after := FrameGet(r.st.frame, f);
      var lead := Start(FrameGet(st.frame, f), keyword, " " + op + " ");
      && lead <= after
      && (forall g :: g != f ==> FrameGet(r.st.frame, g) == FrameGet(st.frame, g))
      && (r.err.Some? ==> after == lead && r.st.binds == st.binds && r.st.next == st.next)
  {
    var r := ConditionOn(st, f, keyword, args, op);
    var lead := Start(FrameGet(st.frame, f), keyword, " " + op + " ");
    var c := ConditionConstructor(args, op, lead, st.binds, st.next);
    var v := if c.CondOk? then c.s else lead;
    assert r.st.frame == FrameSet(st.frame, f, v);
    forall g | g != f ensures FrameGet(r.st.frame, g) == FrameGet(st.frame, g) {
      FrameSetOther(st.frame, f, g, v);
    }
    FrameSetSame(st.frame, f, v);
    StartEndsInSpace(FrameGet(st.frame, f), keyword, op);
    ConditionPrefix(args, op, lead, st.binds, st.next);
  }

  /** `where(field, operator, value)` with a recognised operator: the quoted
      field, the operator and one fresh placeholder bound to the value are
      appended after the keyword or connector. */
  lemma WhereCompare(st: State, args: seq<Arg>, op: string)
    requires |args| == 3 && IsComparison(args[1])
    ensures var r := Where(st, args, op);
      && r.err.None?
      && r.st.frame == st.frame.(where := WhereStart(st, op) + " " + Backquote(Commands.ArgText(args[0])) + " " + args[1].s + " " + Plh(st.next) + " ")
      && r.st.binds == st.binds[st.next := args[2]]
      && r.st.next == st.next + 1
  {
  }

  lemma StartEndsInSpace(clause: string, keyword: string, op: string)
    requires keyword == " WHERE " || keyword == " HAVING "
    ensures var s := Start(clause, keyword, " " + op + " "); |s| > 0 && s[|s| - 1] == ' '
  {
  }

  lemma FrameSetSame(fr: Frame, f: Field, v: string)
    ensures FrameGet(FrameSet(fr, f, v), f) == v
  {
  }

  lemma FrameSetOther(fr: Frame, f: Field, g: Field, v: string)
    requires f != g
    ensures FrameGet(FrameSet(fr, f, v), g) == FrameGet(fr, g)
  {
  }

  /** The condition constructor only appends to the fragment it is given. */
  lemma ConditionPrefix(args: seq<Arg>, op: string, s: string, binds: map<nat, Arg>, next: nat)
    requires |s| > 0 && s[|s| - 1] == ' ' && ' ' !in op
    ensures var r := ConditionConstructor(args, op, s, binds, next);
      r.CondOk? ==> s <= r.s
  {
    var r := ConditionConstructor(args, op, s, binds, next);
    if r.CondOk? && |args| == 1 {
      assert ' ' !in CharsOf(op);
      TrimRightKeeps(s, MapTerms(args[0].entries, op, next), CharsOf(op));
    }
  }

  // ===================== the where family without callbacks =====================

  /** `whereIn` with n values binds them, in order, under n fresh ids; the
      where clause is started or continued and nothing else changes. */
  lemma WhereInRule(st: State, field: string, data: seq<Arg>, condition: string, op: string)
    requires Fresh(st)
    ensures var r := WhereIn(st, field, data, condition, op);
      && WhereStart(st, op) <= r.frame.where
      && (forall g :: g != WhereField ==> FrameGet(r.frame, g) == FrameGet(st.frame, g))
      && r.next == st.next + |data|
      && |r.binds| == |st.binds| + |data|
      && (forall k :: k in st.binds ==> k in r.binds && r.binds[k] == st.binds[k])
      && (forall j :: 0 <= j < |data| ==> st.next + j in r.binds && r.binds[st.next + j] == data[j])
      && Fresh(r)
  {
    BindAllFresh(st.binds, data, st.next);
    PrefixOfAppend(WhereStart(st, op), InList(field, condition, Plhs(st.next, |data|)));
  }

  /** `whereBetween` binds the two bounds under two fresh ids; the where
      clause is started or continued and nothing else changes. */
  lemma WhereBetweenRule(st: State, field: string, low: Arg, high: Arg, op: string)
    requires Fresh(st)
    ensures var r := WhereBetween(st, field, low, high, op);
      && WhereStart(st, op) <= r.frame.where
      && (forall g :: g != WhereField ==> FrameGet(r.frame, g) == FrameGet(st.frame, g))
      && r.next == st.next + 2
      && |r.binds| == |st.binds| + 2
      && (forall k :: k in st.binds ==> k in r.binds && r.binds[k] == st.binds[k])
      && st.next in r.binds && r.binds[st.next] == low
      && st.next + 1 in r.binds && r.binds[st.next + 1] == high
      && Fresh(r)
  {
    var rest := Between(field, Plh(st.next), Plh(st.next + 1));
    var r := WhereBetween(st, field, low, high, op);
    assert r == State(st.frame.(where := WhereStart(st, op) + rest), st.binds[st.next := low][st.next + 1 := high], st.next + 2);
    PrefixOfAppend(WhereStart(st, op), rest);
    WhereOnly(st.frame, WhereStart(st, op) + rest);
    BindTwo(st.binds, st.next, low, high);
  }

  lemma WhereOnly(fr: Frame, w: string)
    ensures forall g :: g != WhereField ==> FrameGet(fr.(where := w), g) == FrameGet(fr, g)
  {
  }

  lemma BindTwo(binds: map<nat, Arg>, next: nat, low: Arg, high: Arg)
    requires forall i :: i in binds ==> i < next
    ensures var r := binds[next := low][next + 1 := high];
      && |r| == |binds| + 2
      && (forall k :: k in binds ==> k in r && r[k] == binds[k])
      && next in r && r[next] == low && next + 1 in r && r[next + 1] == high
      && (forall i :: i in r ==> i < next + 2)
  {
    assert next !in binds;
    assert next + 1 !in binds[next := low];
  }

  /** `whereNull` binds nothing; the where clause is started or continued
      and nothing else changes. */
  lemma WhereNullRule(st: State, field: string, condition: string, op: string)
    ensures var r := WhereNull(st, field, condition, op);
      && WhereStart(st, op) <= r.frame.where
      && (forall g :: g != WhereField ==> FrameGet(r.frame, g) == FrameGet(st.frame, g))
      && r.binds == st.binds && r.next == st.next
  {
    PrefixOfAppend(WhereStart(st, op), IsNull(field, condition));
  }

  lemma PrefixOfAppend(a: string, b: string)
    ensures a <= a + b
  {
    assert (a + b)[..|a|] == a;
  }

  // ===================== group by, order by, join =====================

  /** `groupBy`: ` GROUP BY ` and the quoted field on first use, ` , ` and
      the quoted field appended afterwards; nothing else changes. */
  lemma GroupByRule(st: State, field: string)
    ensures var r := GroupBy(st, field);
      && (st.frame.groupBy == "" ==> r.frame.groupBy == " GROUP BY " + Backquote(field))
      && (st.frame.groupBy != "" ==> r.frame.groupBy == st.frame.groupBy + " , " + Backquote(field))
      && (forall g :: g != GroupByField ==> FrameGet(r.frame, g) == FrameGet(st.frame, g))
      && r.binds == st.binds && r.next == st.next
  {
  }

  /** `orderBy`: the same rule as `groupBy`, each field followed by its direction. */
  lemma OrderByRule(st: State, field: string, mode: string)
    ensures var r := OrderBy(st, field, mode);
      && (st.frame.orderBy == "" ==> r.frame.orderBy == " ORDER BY " + Backquote(field) + " " + mode)
      && (st.frame.orderBy != "" ==> r.frame.orderBy == st.frame.orderBy + " , " + Backquote(field) + " " + mode)
      && (forall g :: g != OrderByField ==> FrameGet(r.frame, g) == FrameGet(st.frame, g))
      && r.binds == st.binds && r.next == st.next
  {
  }

  /** `join` only ever appends to the join clause; nothing else changes. */
  lemma JoinAppends(st: State, table: string, one: string, two: string, kind: string)
    ensures var r := Join(st, table, one, two, kind);
      && st.frame.join <= r.frame.join
      && (forall g :: g != JoinField ==> FrameGet(r.frame, g) == FrameGet(st.frame, g))
      && r.binds == st.binds && r.next == st.next
  {
    PrefixOfAppend(st.frame.join, JoinClause(table, one, two, kind));
  }

  // ===================== select =====================

  /** The quoted columns, in order. */
  function Quoted(cols: seq<string>): (qs: seq<string>)
    ensures |qs| == |cols|
    decreases |cols|
  {
    if |cols| == 0 then [] else Quoted(cols[..|cols| - 1]) + [Backquote(cols[|cols| - 1])]
  }

  /** The loop output of `select` is the quoted columns joined by `, `, with a
      leading space and one trailing comma. */
  lemma LastQuoted(cols: seq<string>)
    requires |cols| > 0
    ensures Quoted(cols)[|cols| - 1] == Backquote(cols[|cols| - 1])
  {
  }

  /** The trailing comma of the column list is the only character `rtrim` takes
      when the last quoted column does not end in one. */
  lemma TrimListed(qs: seq<string>, b: string)
    requires |qs| > 0 && qs[|qs| - 1] == b && b != "" && b[|b| - 1] != ','
    ensures TrimRight(" " + Implode(qs, ", ") + ",", {','}) == " " + Implode(qs, ", ")
  {
    var x := Implode(qs, ", ");
    ImplodeEnd(qs, ", ");
    AppendEnd(" ", x);
    TrimRightSuffix(" " + x, ",", {','});
  }

  lemma {:induction false} ColumnListImplode(cols: seq<string>)
    requires |cols| > 0
    ensures ColumnList(cols) == " " + Implode(Quoted(cols), ", ") + ","
    decreases |cols|
  {
    var init := cols[..|cols| - 1];
    var b := Backquote(cols[|cols| - 1]);
    assert ColumnList(cols) == ColumnList(init) + (" " + b + ",");
    assert Quoted(cols) == Quoted(init) + [b];
    if |cols| > 1 {
      ColumnListImplode(init);
      var x := Implode(Quoted(init), ", ");
      assert Quoted(cols)[..|cols| - 1] == Quoted(init);
      assert Implode(Quoted(cols), ", ") == x + ", " + b;
      ColumnStep(x, b);
    }
  }

  lemma ColumnStep(x: string, b: string)
    ensures (" " + x + ",") + (" " + b + ",") == " " + (x + ", " + b) + ","
  {
  }

  /** `select()`: no columns or a `*` among them select every column;
      otherwise the quoted columns are listed, separated by `, `, as long as
      the last one does not itself end in a comma (the `rtrim` would take it). */
  lemma SelectColsSpec(cols: seq<string>)
    ensures |cols| == 0 || "*" in cols ==> SelectCols(cols) == AllCols
    ensures |cols| > 0 && "*" !in cols && Backquote(cols[|cols| - 1]) != "" && Backquote(cols[|cols| - 1])[|Backquote(cols[|cols| - 1])| - 1] != ','
      ==> SelectCols(cols) == " " + Implode(Quoted(cols), ", ")
  {
    if |cols| > 0 && "*" !in cols {
      var b := Backquote(cols[|cols| - 1]);
      if b != "" && b[|b| - 1] != ',' {
        ColumnListImplode(cols);
        LastQuoted(cols);
        TrimListed(Quoted(cols), b);
      }
    }
  }
}
