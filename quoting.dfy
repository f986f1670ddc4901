/** Identifier quoting (`_backquote`): a string naming a column, a table or an
    expression is classified, in this order, as an alias form, a qualified
    `table.field` name, a function call, or a bare identifier, and quoted with
    backquotes accordingly.

    The alias and qualified forms are recognised for the WHOLE string, with
    exactly one space on each side of the alias keyword and no space around
    the dot; the source's regular expressions also accept runs of whitespace
    and matches inside a longer string. The function-call test is, as in the
    source, a search for a call anywhere in the string. */
module Quoting {
  import opened Text

  /** `[a-zA-Z0-9_]` */
  predicate IsWordChar(c: char)
  {
    ('a' <= c <= 'z') || ('A' <= c <= 'Z') || ('0' <= c <= '9') || c == '_'
  }

  /** `[a-zA-Z0-9_]+` */
  predicate IsWord(s: string)
  {
    |s| > 0 && forall i :: 0 <= i < |s| ==> IsWordChar(s[i])
  }

  /** `[a-zA-Z0-9_\.]+`, the expression part of the alias form. */
  predicate IsDottedWord(s: string)
  {
    |s| > 0 && forall i :: 0 <= i < |s| ==> IsWordChar(s[i]) || s[i] == '.'
  }

  /** The alias keyword spellings the source accepts: `AS`, `as` and `As`. */
  predicate IsAliasKeyword(k: string)
  {
    k == "AS" || k == "as" || k == "As"
  }

  /** `\s`: space, tab, line feed, vertical tab, form feed, carriage return. */
  predicate IsSpace(c: char)
  {
    c == ' ' || c == '\t' || c == '\n' || c == '\U{B}' || c == '\U{C}' || c == '\r'
  }

  /** The characters allowed between the parentheses of a call:
      `[a-zA-Z0-9_\,\s\`\'\"\*]`. */
  predicate IsCallArgChar(c: char)
  {
    IsWordChar(c) || c == ',' || IsSpace(c) || c == '`' || c == '\'' || c == '"' || c == '*'
  }

  /** The index of the first `c` in `s`, or `|s|` when there is none. */
  function IndexOf(s: string, c: char): (r: nat)
    ensures r <= |s|
    ensures r < |s| ==> s[r] == c
    ensures forall j :: 0 <= j < r ==> s[j] != c
    decreases |s|
  {
    if |s| == 0 then 0 else if s[0] == c then 0 else 1 + IndexOf(s[1..], c)
  }

  /** The whole string is `<word>.<word>`; yields the two words. */
  function SplitQualified(s: string): (r: Option<(string, string)>)
    ensures r.Some? ==> s == r.value.0 + "." + r.value.1
    ensures r.Some? ==> IsWord(r.value.0) && IsWord(r.value.1)
  {
    var i := IndexOf(s, '.');
    if i < |s| && IsWord(s[..i]) && IsWord(s[i + 1..]) then Some((s[..i], s[i + 1..])) else None
  }

  /** The whole string is `<expr> <keyword> <alias>`, with `<expr>` made of word
      characters and dots; yields the three parts. */
  function SplitAlias(s: string): (r: Option<(string, string, string)>)
    ensures r.Some? ==> s == r.value.0 + " " + r.value.1 + " " + r.value.2
    ensures r.Some? ==> IsDottedWord(r.value.0) && IsAliasKeyword(r.value.1) && IsWord(r.value.2)
  {
    var i := IndexOf(s, ' ');
    if i < |s| then
      var rest := s[i + 1..];
      var j := IndexOf(rest, ' ');
      if j < |rest| && IsDottedWord(s[..i]) && IsAliasKeyword(rest[..j]) && IsWord(rest[j + 1..])
      then Some((s[..i], rest[..j], rest[j + 1..]))
      else None
    else None
  }

  /** From position `k` on, call-argument characters are followed by `)`. */
  function ClosesFrom(s: string, k: nat): bool
    decreases |s| - k
  {
    if k >= |s| then false
    else if s[k] == ')' then true
    else if IsCallArgChar(s[k]) then ClosesFrom(s, k + 1)
    else false
  }

  /** A call `name(args)` whose `(` is at position `j`. */
  predicate CallAt(s: string, j: nat)
  {
    0 < j < |s| && s[j] == '(' && IsWordChar(s[j - 1]) && ClosesFrom(s, j + 1)
  }

  /** `[a-zA-Z0-9_]+\([a-zA-Z0-9_\,\s\`\'\"\*]*\)` matches somewhere in `s`. */
  predicate HasCall(s: string)
  {
    exists j :: 0 <= j < |s| && CallAt(s, j)
  }

  /** The bare-identifier quoting. */
  function Tick(s: string): string
  {
    "`" + s + "`"
  }

  function QuoteQualified(p: string, q: string): string
  {
    Tick(p) + "." + Tick(q)
  }

  /** `_backquote`. Every result but the verbatim function call ends in a backquote. */
  function Backquote(s: string): (r: string)
    ensures r == s || (|r| > 0 && r[|r| - 1] == '`')
  {
    match SplitAlias(s)
    case Some((e, k, a)) =>
      var expr := match SplitQualified(e)
                  case Some((p, q)) => QuoteQualified(p, q)
                  case None => Tick(e);
      expr + " " + k + " " + Tick(a)
    case None =>
      match SplitQualified(s)
      case Some((p, q)) => QuoteQualified(p, q)
      case None => if HasCall(s) then s else Tick(s)
  }

  // ---------------------------------------------------------------------
  // The four forms, each quoted as the source's replacement patterns say.

  lemma {:induction false} IndexOfAfter(x: string, y: string, c: char)
    requires c !in x
    ensures IndexOf(x + y, c) == |x| + IndexOf(y, c)
    decreases |x|
  {
    if |x| > 0 {
      assert (x + y)[1..] == x[1..] + y;
      IndexOfAfter(x[1..], y, c);
    } else {
      assert x + y == y;
    }
  }

  lemma IndexOfAbsent(s: string, c: char)
    requires c !in s
    ensures IndexOf(s, c) == |s|
  {
    IndexOfAfter(s, "", c);
    assert s + "" == s;
  }

  lemma WordHasNo(w: string, c: char)
    requires IsWord(w) && !IsWordChar(c)
    ensures c !in w
  {
  }

  /** A qualified name is recognised with its two parts. */
  lemma SplitQualifiedOf(p: string, q: string)
    requires IsWord(p) && IsWord(q)
    ensures SplitQualified(p + "." + q) == Some((p, q))
  {
    var s := p + "." + q;
    WordHasNo(p, '.');
    IndexOfAfter(p, "." + q, '.');
    assert s == p + ("." + q);
    assert s[..|p|] == p;
    assert s[|p| + 1..] == q;
  }

  /** An alias form is recognised with its three parts. */
  lemma SplitAliasOf(e: string, k: string, a: string)
    requires IsDottedWord(e) && IsAliasKeyword(k) && IsWord(a)
    ensures SplitAlias(e + " " + k + " " + a) == Some((e, k, a))
  {
    var rest := k + " " + a;
    var s := e + " " + rest;
    assert s == e + " " + k + " " + a;
    assert ' ' !in e by {
      forall i | 0 <= i < |e| ensures e[i] != ' ' { assert IsWordChar(e[i]) || e[i] == '.'; }
    }
    assert ' ' !in k;
    FirstSpace(e, rest);
    FirstSpace(k, a);
  }

  lemma FirstSpace(x: string, y: string)
    requires ' ' !in x
    ensures IndexOf(x + " " + y, ' ') == |x|
    ensures (x + " " + y)[..|x|] == x && (x + " " + y)[|x| + 1..] == y
  {
    assert x + " " + y == x + (" " + y);
    IndexOfAfter(x, " " + y, ' ');
  }

  lemma NoSplitWithout(s: string, c: char)
    requires c !in s
    ensures c == ' ' ==> SplitAlias(s) == None
    ensures c == '.' ==> SplitQualified(s) == None
  {
    IndexOfAbsent(s, c);
  }

  /** A bare identifier is wrapped in backquotes. */
  lemma BackquoteWord(w: string)
    requires IsWord(w)
    ensures Backquote(w) == "`" + w + "`"
  {
    WordHasNo(w, ' ');
    WordHasNo(w, '.');
    NoSplitWithout(w, ' ');
    NoSplitWithout(w, '.');
    assert !HasCall(w) by {
      forall j | 0 <= j < |w| ensures !CallAt(w, j) { assert IsWordChar(w[j]); }
    }
  }

  /** `a.b` becomes `` `a`.`b` ``. */
  lemma BackquoteQualified(p: string, q: string)
    requires IsWord(p) && IsWord(q)
    ensures Backquote(p + "." + q) == "`" + p + "`.`" + q + "`"
  {
    var s := p + "." + q;
    WordHasNo(p, ' ');
    WordHasNo(q, ' ');
    assert ' ' !in s by { assert s == p + "." + q; }
    NoSplitWithout(s, ' ');
    SplitQualifiedOf(p, q);
  }

  /** `e AS a` becomes `` `e` AS `a` `` (keyword spelling kept). */
  lemma BackquoteAlias(e: string, k: string, a: string)
    requires IsWord(e) && IsAliasKeyword(k) && IsWord(a)
    ensures Backquote(e + " " + k + " " + a) == "`" + e + "` " + k + " `" + a + "`"
  {
    SplitAliasOf(e, k, a);
    WordHasNo(e, '.');
    NoSplitWithout(e, '.');
    assert Backquote(e + " " + k + " " + a) == Tick(e) + " " + k + " " + Tick(a);
    ReshapeAlias(e, k, a);
  }

  lemma ReshapeAlias(e: string, k: string, a: string)
    ensures Tick(e) + " " + k + " " + Tick(a) == "`" + e + "` " + k + " `" + a + "`"
  {
    assert "`" + e + "`" + " " == "`" + e + "` ";
    assert " " + ("`" + a + "`") == " `" + a + "`";
  }

  /** `a.b AS c` becomes `` `a`.`b` AS `c` ``. */
  lemma BackquoteQualifiedAlias(p: string, q: string, k: string, a: string)
    requires IsWord(p) && IsWord(q) && IsAliasKeyword(k) && IsWord(a)
    ensures Backquote(p + "." + q + " " + k + " " + a) == "`" + p + "`.`" + q + "` " + k + " `" + a + "`"
  {
    var e := p + "." + q;
    assert IsDottedWord(e) by {
      forall i | 0 <= i < |e| ensures IsWordChar(e[i]) || e[i] == '.' {
        if i < |p| { assert e[i] == p[i]; } else if i > |p| { assert e[i] == q[i - |p| - 1]; }
      }
    }
    SplitAliasOf(e, k, a);
    SplitQualifiedOf(p, q);
    assert Backquote(e + " " + k + " " + a) == QuoteQualified(p, q) + " " + k + " " + Tick(a);
  }

  lemma {:induction false} ClosesAt(s: string, k: nat)
    requires k < |s| && s[|s| - 1] == ')'
    requires forall i :: k <= i < |s| - 1 ==> IsCallArgChar(s[i])
    ensures ClosesFrom(s, k)
    decreases |s| - k
  {
    if k < |s| - 1 {
      assert s[k] != ')' by { assert IsCallArgChar(s[k]); }
      ClosesAt(s, k + 1);
    }
  }

  /** `name(args)` is passed through unchanged. */
  lemma BackquoteCall(name: string, args: string)
    requires IsWord(name)
    requires forall i :: 0 <= i < |args| ==> IsCallArgChar(args[i])
    ensures Backquote(name + "(" + args + ")") == name + "(" + args + ")"
  {
    var s := name + "(" + args + ")";
    var n := |name|;
    assert s[n] == '(';
    assert '.' !in s by {
      forall i | 0 <= i < |s| ensures s[i] != '.' {
        if i < n { assert s[i] == name[i]; } else if n < i < |s| - 1 { assert s[i] == args[i - n - 1]; }
      }
    }
    NoSplitWithout(s, '.');
    WordHasNo(name, ' ');
    assert s == name + ("(" + args + ")");
    IndexOfAfter(name, "(" + args + ")", ' ');
    var i := IndexOf(s, ' ');
    if i < |s| {
      assert s[..i][n] == '(';
      assert !IsDottedWord(s[..i]);
    }
    assert SplitAlias(s) == None;
    forall i | n + 1 <= i < |s| - 1 ensures IsCallArgChar(s[i]) { assert s[i] == args[i - n - 1]; }
    ClosesAt(s, n + 1);
    assert CallAt(s, n);
  }

  /** The input comes back unchanged exactly when it is neither an alias nor a
      qualified name and contains a function call; the other three forms
      always add backquotes. */
  lemma BackquoteUnchangedIff(s: string)
    ensures Backquote(s) == s <==> (SplitAlias(s).None? && SplitQualified(s).None? && HasCall(s))
  {
    match SplitAlias(s) {
      case Some((e, k, a)) =>
        if SplitQualified(e).Some? {
          assert |Backquote(s)| == |s| + 6;
        } else {
          assert |Backquote(s)| == |s| + 4;
        }
      case None =>
        if SplitQualified(s).Some? {
          assert |Backquote(s)| == |s| + 4;
        }
    }
  }
}
