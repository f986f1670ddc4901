/** String helpers that stand in for the PHP built-ins the builder uses:
    decimal rendering of the id counter, `rtrim`/`trim` with a character
    mask, `implode`, and a first-occurrence removal (`preg_replace` with a
    limit of one and a literal pattern). */
module Text {

  datatype Option<T> = None | Some(value: T)

  predicate IsDigit(c: char) { '0' <= c <= '9' }

  function Digit(d: nat): (c: char)
    requires d < 10
    ensures IsDigit(c)
  {
    ('0' as int + d) as char
  }

  /** Decimal rendering of a natural number, most significant digit first. */
  function NatStr(n: nat): (s: string)
    ensures |s| > 0
    decreases n
  {
    if n < 10 then [Digit(n)] else NatStr(n / 10) + [Digit(n % 10)]
  }

  lemma DigitInjective(a: nat, b: nat)
    requires a < 10 && b < 10 && Digit(a) == Digit(b)
    ensures a == b
  {
  }

  /** One digit below ten, at least two from ten on. */
  lemma NatStrLength(n: nat)
    ensures n < 10 <==> |NatStr(n)| == 1
  {
  }

  /** Different numbers have different decimal renderings. */
  lemma {:induction false} NatStrInjective(a: nat, b: nat)
    requires NatStr(a) == NatStr(b)
    ensures a == b
    decreases a
  {
    var s := NatStr(a);
    NatStrLength(a);
    NatStrLength(b);
    if a < 10 && b < 10 {
      DigitInjective(a, b);
    } else if a >= 10 && b >= 10 {
      assert s[..|s| - 1] == NatStr(a / 10) == NatStr(b / 10);
      assert s[|s| - 1] == Digit(a % 10) == Digit(b % 10);
      NatStrInjective(a / 10, b / 10);
      DigitInjective(a % 10, b % 10);
    } else {
      assert false;
    }
  }

  /** Decimal rendering of an integer, with a leading '-' when negative. */
  function IntStr(i: int): (s: string)
    ensures |s| > 0
  {
    if i < 0 then "-" + NatStr(-i) else NatStr(i)
  }

  /** `rtrim(s, mask)`: drops every trailing character that is in the mask. */
  function TrimRight(s: string, mask: set<char>): (r: string)
    ensures |r| <= |s| && r == s[..|r|]
    ensures r == [] || r[|r| - 1] !in mask
    ensures forall i :: |r| <= i < |s| ==> s[i] in mask
    decreases |s|
  {
    if |s| > 0 && s[|s| - 1] in mask then TrimRight(s[..|s| - 1], mask) else s
  }

  /** `rtrim` stops at a kept character: a prefix ending in one survives. */
  lemma TrimRightKeeps(s: string, rest: string, mask: set<char>)
    requires |s| > 0 && s[|s| - 1] !in mask
    ensures s <= TrimRight(s + rest, mask)
  {
    var t := s + rest;
    var u := TrimRight(t, mask);
    assert t[|s| - 1] == s[|s| - 1];
    assert |s| <= |u|;
    assert u[..|s|] == t[..|s|] == s;
  }

  /** `ltrim(s, mask)`: drops every leading character that is in the mask. */
  function TrimLeft(s: string, mask: set<char>): (r: string)
    ensures |r| <= |s| && r == s[|s| - |r|..]
    ensures r == [] || r[0] !in mask
    ensures forall i :: 0 <= i < |s| - |r| ==> s[i] in mask
    decreases |s|
  {
    if |s| > 0 && s[0] in mask then TrimLeft(s[1..], mask) else s
  }

  /** The characters PHP's `trim` removes by default: space, tab, line feed,
      carriage return, NUL and vertical tab. */
  const TrimMask: set<char> := {' ', '\t', '\n', '\r', '\0', '\U{B}'}

  /** `trim(s)` with the default mask. */
  function Trim(s: string): string
  {
    TrimLeft(TrimRight(s, TrimMask), TrimMask)
  }

  /** The set of characters of `s`, which is how `rtrim` reads its second argument. */
  function CharsOf(s: string): (m: set<char>)
    ensures forall c :: c in m <==> c in s
  {
    set c | c in s
  }

  /** `implode(sep, parts)`. */
  function Implode(parts: seq<string>, sep: string): (r: string)
    ensures parts == [] ==> r == ""
    decreases |parts|
  {
    if |parts| == 0 then ""
    else if |parts| == 1 then parts[0]
    else Implode(parts[..|parts| - 1], sep) + sep + parts[|parts| - 1]
  }

  predicate OccursAt(s: string, pat: string, i: nat)
  {
    i + |pat| <= |s| && s[i..i + |pat|] == pat
  }

  /** The first position at or after `from` where `pat` occurs in `s`. */
  function FindFrom(s: string, pat: string, from: nat): (r: Option<nat>)
    requires from <= |s|
    ensures r.Some? ==> from <= r.value && OccursAt(s, pat, r.value)
    ensures r.Some? ==> forall j :: from <= j < r.value ==> !OccursAt(s, pat, j)
    ensures r.None? ==> forall j :: from <= j <= |s| ==> !OccursAt(s, pat, j)
    decreases |s| - from
  {
    if OccursAt(s, pat, from) then Some(from)
    else if from == |s| then None
    else FindFrom(s, pat, from + 1)
  }

  /** `preg_replace('/pat/', '', s, 1)` for a pattern without metacharacters:
      the first occurrence of `pat` is cut out; without one, `s` is unchanged. */
  function RemoveFirst(s: string, pat: string): string
  {
    match FindFrom(s, pat, 0)
    case None => s
    case Some(i) => s[..i] + s[i + |pat|..]
  }
}
