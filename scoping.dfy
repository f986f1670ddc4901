/** Sub-statement scoping: the structural fields are saved and restored
    around a callback, while the bindings are shared by the whole statement.
    Proved by one induction over the callback's calls, through every level
    of nesting. */
module Scoping {
  import opened Text
  import Commands
  import opened Semantics
  import opened Properties

  // ===================== bindings only grow =====================

  /** One fluent call keeps every earlier binding, never moves the counter
      back, and binds only under ids it has handed out. */
  lemma {:induction false} ExecExtends(st: State, c: Cmd)
    ensures Extends(st, Exec(st, c).st)
    decreases c, 2
  {
    if c.WhereBrackets? || c.WhereExists? || c.WhereInSub? || c.FromSub? {
      NestedExtends(st, c);
    } else if c.Where? || c.OrWhere? || c.Having? || c.OrHaving? {
      ConditionExtends(st, c);
    } else {
      PlainExtends(st, c);
    }
  }

  /** The calls with a callback of their own. */
  lemma {:induction false} NestedExtends(st: State, c: Cmd)
    requires c.WhereBrackets? || c.WhereExists? || c.WhereInSub? || c.FromSub?
    ensures Extends(st, Exec(st, c).st)
    decreases c, 1
  {
    if c.FromSub? {
      FromSubExtends(st, c.body);
    } else {
      WhereFormExtends(st, c);
    }
  }

  /** The where forms with a callback. */
  lemma {:induction false} WhereFormExtends(st: State, c: Cmd)
    requires c.WhereBrackets? || c.WhereExists? || c.WhereInSub?
    ensures Extends(st, Exec(st, c).st)
    decreases c, 0
  {
    match c
    case WhereBrackets(body, op) => WhereSubExtends(st, WhereStart(st, op) + "( ", body, true);
    case WhereExists(body, condition, op) => WhereSubExtends(st, WhereStart(st, op) + condition + " ( ", body, false);
    case WhereInSub(field, body, condition, op) =>
      WhereSubExtends(st, WhereStart(st, op) + Quoting.Backquote(field) + " " + condition + " ( ", body, false);
  }

  /** `fromSub`: the callback's bindings, and one more id for the alias. */
  lemma {:induction false} FromSubExtends(st: State, body: seq<Cmd>)
    ensures Extends(st, FromSub(st, body).st)
    decreases body, 2
  {
    SubBuilderExtends(st, body);
    var r := SubBuilder(st, body);
    ExtendsTrans(st, r.st, FromSub(st, body).st);
  }

  /** The calls that go through the condition constructor. */
  lemma ConditionExtends(st: State, c: Cmd)
    requires c.Where? || c.OrWhere? || c.Having? || c.OrHaving?
    ensures Extends(st, Exec(st, c).st)
  {
    match c
    case Where(args) => ConditionOnExtends(st, WhereField, " WHERE ", args, "AND");
    case OrWhere(args) => ConditionOnExtends(st, WhereField, " WHERE ", args, "OR");
    case Having(args) => ConditionOnExtends(st, HavingField, " HAVING ", args, "AND");
    case OrHaving(args) => ConditionOnExtends(st, HavingField, " HAVING ", args, "OR");
  }

  /** The other calls bind at most a fixed list of values, or nothing. */
  lemma PlainExtends(st: State, c: Cmd)
    requires !(c.WhereBrackets? || c.WhereExists? || c.WhereInSub? || c.FromSub?)
    requires !(c.Where? || c.OrWhere? || c.Having? || c.OrHaving?)
    ensures Extends(st, Exec(st, c).st)
  {
    if Fresh(st) {
      match c
      case WhereIn(field, data, condition, op) => WhereInRule(st, field, data, condition, op);
      case WhereBetween(field, low, high, op) => WhereBetweenRule(st, field, low, high, op);
      case _ =>
    }
  }

  /** A callback keeps every earlier binding, whether or not it throws. */
  lemma {:induction false} ExecAllExtends(st: State, cs: seq<Cmd>)
    ensures Extends(st, ExecAll(st, cs).st)
    decreases cs, 0
  {
    if |cs| > 0 {
      var r := Exec(st, cs[0]);
      ExecExtends(st, cs[0]);
      if r.err.None? {
        ExecAllExtends(r.st, cs[1..]);
        ExtendsTrans(st, r.st, ExecAll(r.st, cs[1..]).st);
      }
    }
  }

  /** `subBuilder` keeps every binding made before and inside the callback. */
  lemma {:induction false} SubBuilderExtends(st: State, body: seq<Cmd>)
    ensures Extends(st, SubBuilder(st, body).st)
    decreases body, 1
  {
    ExecAllExtends(ResetBuildStr(st), body);
  }

  lemma {:induction false} WhereSubExtends(st: State, lead: string, body: seq<Cmd>, whereWord: bool)
    ensures Extends(st, WhereSub(st, lead, body, whereWord).st)
    decreases body, 2
  {
    SubBuilderExtends(st.(frame := st.frame.(where := lead)), body);
  }

  lemma ConditionOnExtends(st: State, f: Field, keyword: string, args: seq<Arg>, op: string)
    ensures Extends(st, ConditionOn(st, f, keyword, args, op).st)
  {
    if Fresh(st) {
      var lead := Start(FrameGet(st.frame, f), keyword, " " + op + " ");
      ConditionBindings(args, op, lead, st.binds, st.next);
    }
  }

  // ===================== structure is restored =====================

  /** `subBuilder` after a callback that returns: all eight structural fields
      are as they were before the call, the bindings are exactly those the
      callback left (which keep every earlier one), and the captured fields
      are the callback's own, with its statement assembled. The callback ran
      on a cleared builder that still had the outer bindings. */
  lemma SubBuilderIsolation(st: State, body: seq<Cmd>)
    ensures var r := SubBuilder(st, body);
      var inner := ExecAll(ResetBuildStr(st), body);
      && (r.err.None? ==>
            && r.st.frame == st.frame
            && r.st.binds == inner.st.binds && r.st.next == inner.st.next
            && r.sub == inner.st.frame.(querySql := Sql(inner.st.frame)))
      && (r.err.Some? ==> r.st == inner.st && r.err == inner.err)
      && Extends(st, r.st)
  {
    SubBuilderExtends(st, body);
  }

  /** `whereBrackets`, `whereExists`, `whereInSub` after a callback that
      returns: only the where clause has changed; it is the lead text written
      before the callback ran, then the callback's where fragment without its
      first `WHERE` (or the callback's whole statement), then ` ) `. The
      bindings and the counter are those the callback left, which keep every
      outer binding. */
  lemma WhereSubIsolation(st: State, lead: string, body: seq<Cmd>, whereWord: bool)
    ensures var r := WhereSub(st, lead, body, whereWord);
      var inner := ExecAll(ResetBuildStr(st.(frame := st.frame.(where := lead))), body);
      && (r.err.None? ==>
            && (forall g :: g != WhereField ==> FrameGet(r.st.frame, g) == FrameGet(st.frame, g))
            && lead <= r.st.frame.where
            && r.st.frame.where == lead + (if whereWord then RemoveFirst(inner.st.frame.where, "WHERE") else Sql(inner.st.frame)) + " ) "
            && r.st.binds == inner.st.binds && r.st.next == inner.st.next)
      && Extends(st, r.st)
  {
    var r := WhereSub(st, lead, body, whereWord);
    var inner := st.(frame := st.frame.(where := lead));
    var sr := SubBuilder(inner, body);
    WhereSubExtends(st, lead, body, whereWord);
    SubBuilderIsolation(inner, body);
    if r.err.None? {
      assert sr.st.frame == inner.frame;
      var emb := (if whereWord then RemoveFirst(sr.sub.where, "WHERE") else sr.sub.querySql) + " ) ";
      assert r.st.frame.where == lead + emb;
      PrefixOfAppend(lead, emb);
    }
  }

  /** `whereBrackets` leaves every other clause byte for byte as before and
      appends the callback's where conditions, without their keyword, in
      brackets; the bindings and the counter are the callback's, which keep
      every outer binding. */
  lemma WhereBracketsIsolation(st: State, body: seq<Cmd>, op: string)
    ensures var r := WhereBrackets(st, body, op);
      var lead := WhereStart(st, op) + "( ";
      var inner := ExecAll(ResetBuildStr(st.(frame := st.frame.(where := lead))), body);
      && (r.err.None? ==>
            && (forall g :: g != WhereField ==> FrameGet(r.st.frame, g) == FrameGet(st.frame, g))
            && lead <= r.st.frame.where
            && r.st.frame.where == lead + RemoveFirst(inner.st.frame.where, "WHERE") + " ) "
            && r.st.binds == inner.st.binds && r.st.next == inner.st.next)
      && Extends(st, r.st)
  {
    WhereSubIsolation(st, WhereStart(st, op) + "( ", body, true);
  }

  /** `fromSub` after a callback that returns: only the table fragment has
      changed, by a derived table appended to it; the alias takes one more id
      from the counter. */
  lemma FromSubIsolation(st: State, body: seq<Cmd>)
    ensures var r := FromSub(st, body);
      && (r.err.None? ==>
            && (forall g :: g != TableField ==> FrameGet(r.st.frame, g) == FrameGet(st.frame, g))
            && st.frame.table <= r.st.frame.table
            && r.st.next == SubBuilder(st, body).st.next + 1)
      && Extends(st, r.st)
  {
    var r := FromSub(st, body);
    var sr := SubBuilder(st, body);
    SubBuilderExtends(st, body);
    if r.err.None? {
      assert sr.st.frame == st.frame;
      var tail := " ( " + sr.sub.querySql + " ) AS tb_" + Uid(sr.st.next) + " ";
      var t := st.frame.table + tail;
      assert r.st == State(st.frame.(table := t), sr.st.binds, sr.st.next + 1);
      TableOnly(st.frame, t);
      PrefixOfAppend(st.frame.table, tail);
      ExtendsTrans(st, sr.st, r.st);
    }
  }

  lemma TableOnly(fr: Frame, t: string)
    ensures forall g :: g != TableField ==> FrameGet(fr.(table := t), g) == FrameGet(fr, g)
  {
  }

  /** The where keyword that a callback's own where clause starts with is cut
      out when `whereBrackets` embeds it. */
  lemma RemoveLeadingWhere(x: string)
    ensures RemoveFirst(" WHERE" + x, "WHERE") == " " + x
  {
    var s := " WHERE" + x;
    assert !OccursAt(s, "WHERE", 0) by { assert s[0] == ' '; }
    assert s[1..6] == "WHERE";
    assert OccursAt(s, "WHERE", 1);
    assert FindFrom(s, "WHERE", 1) == Some(1);
    assert FindFrom(s, "WHERE", 0) == Some(1);
    assert s[..1] + s[6..] == " " + x;
  }
}
