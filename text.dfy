/**
 * The JavaScript string primitives the chat server relies on, over Dafny strings
 * (sequences of Unicode scalar values): `\s` and `trim`, `\w` and `\b`,
 * `toLowerCase` on ASCII letters, `includes`/`indexOf`, `String.replace` with a
 * string pattern, `join` and number-to-text conversion.
 */
module Text {
  import opened Wrappers

  /** JavaScript's `\s` class, which is also the set `String.prototype.trim` removes. */
  predicate IsSpace(c: char) {
    c == ' ' || c == '\t' || c == '\n' || c == '\U{B}' || c == '\U{C}' || c == '\r'
    || c == '\U{A0}' || c == '\U{1680}' || ('\U{2000}' <= c <= '\U{200A}')
    || c == '\U{2028}' || c == '\U{2029}' || c == '\U{202F}' || c == '\U{205F}'
    || c == '\U{3000}' || c == '\U{FEFF}'
  }

  /** The characters a regular-expression `.` does not match (no `s` flag). */
  predicate IsLineTerminator(c: char) {
    c == '\n' || c == '\r' || c == '\U{2028}' || c == '\U{2029}'
  }

  /** JavaScript's `\w` class without the `u` flag: `[A-Za-z0-9_]`. */
  predicate IsWordChar(c: char) {
    ('a' <= c <= 'z') || ('A' <= c <= 'Z') || ('0' <= c <= '9') || c == '_'
  }

  predicate IsUpper(c: char) {
    'A' <= c <= 'Z'
  }

  function LowerChar(c: char): (d: char)
    ensures !IsUpper(d)
    ensures IsUpper(c) || d == c
    ensures IsUpper(c) ==> d as int == c as int + 32
    ensures IsWordChar(d) == IsWordChar(c) && IsSpace(d) == IsSpace(c)
  {
    if IsUpper(c) then (c as int + 32) as char else c
  }

  /** `toLowerCase` on ASCII letters; every other character is left as it is. */
  function Lower(s: string): (r: string)
    ensures |r| == |s|
    ensures forall i :: 0 <= i < |s| ==> r[i] == LowerChar(s[i])
  {
    seq(|s|, i requires 0 <= i < |s| => LowerChar(s[i]))
  }

  predicate NoUpper(s: string) {
    forall c :: c in s ==> !IsUpper(c)
  }

  lemma LowerHasNoUpper(s: string)
    ensures NoUpper(Lower(s))
  {
    forall c | c in Lower(s) ensures !IsUpper(c) {
      var i :| 0 <= i < |Lower(s)| && Lower(s)[i] == c;
    }
  }

  /** The number of leading characters of `\s`. */
  function LeadingSpaces(s: string): (k: nat)
    ensures k <= |s|
    ensures forall i :: 0 <= i < k ==> IsSpace(s[i])
    ensures k == |s| || !IsSpace(s[k])
  {
    if s != [] && IsSpace(s[0]) then 1 + LeadingSpaces(s[1..]) else 0
  }

  /** The length of `s` without its trailing characters of `\s`. */
  function TrailingStart(s: string): (e: nat)
    ensures e <= |s|
    ensures forall i :: e <= i < |s| ==> IsSpace(s[i])
    ensures e == 0 || !IsSpace(s[e - 1])
  {
    if s != [] && IsSpace(s[|s| - 1]) then TrailingStart(s[..|s| - 1]) else |s|
  }

  /**
   * `String.prototype.trim`: the result neither starts nor ends with whitespace, is
   * empty exactly when `s` is all whitespace, and keeps the characters of `s`. It is
   * the piece of `s` right after the leading whitespace, and only whitespace follows
   * it in `s`.
   */
  function Trim(s: string): (r: string)
    ensures r == [] || (!IsSpace(r[0]) && !IsSpace(r[|r| - 1]))
    ensures r == [] <==> forall i :: 0 <= i < |s| ==> IsSpace(s[i])
    ensures forall c :: c in r ==> c in s
    ensures LeadingSpaces(s) + |r| <= |s| && s[LeadingSpaces(s)..LeadingSpaces(s) + |r|] == r
    ensures forall i :: LeadingSpaces(s) + |r| <= i < |s| ==> IsSpace(s[i])
  {
    var k := LeadingSpaces(s);
    var e := TrailingStart(s);
    if e <= k then
      assert forall i :: 0 <= i < |s| ==> IsSpace(s[i]) by {
        forall i | 0 <= i < |s| ensures IsSpace(s[i]) {
          if i >= k { assert i >= e; }
        }
      }
      []
    else
      assert !IsSpace(s[k]);
      s[k..e]
  }

  /** Text without surrounding whitespace is its own trim. */
  lemma TrimNoop(s: string)
    requires s == [] || (!IsSpace(s[0]) && !IsSpace(s[|s| - 1]))
    ensures Trim(s) == s
  {
  }

  /** Whether the character at index `i` exists and is in `\w`. */
  predicate IsWordAt(s: string, i: int) {
    0 <= i < |s| && IsWordChar(s[i])
  }

  /** JavaScript's `\b` at position `k` of `s`. */
  predicate WordBoundary(s: string, k: int) {
    IsWordAt(s, k - 1) != IsWordAt(s, k)
  }

  predicate StartsWith(s: string, p: string) {
    |p| <= |s| && s[..|p|] == p
  }

  predicate EndsWith(s: string, p: string) {
    |p| <= |s| && s[|s| - |p|..] == p
  }

  /** `p` occurs in `s` starting at index `j`. */
  ghost predicate OccursAt(s: string, p: string, j: int) {
    0 <= j && j + |p| <= |s| && s[j..j + |p|] == p
  }

  /** `s.indexOf(p)`: the first index at which `p` occurs, if any. */
  function IndexOf(s: string, p: string): (r: Option<nat>)
    ensures r.Some? ==> OccursAt(s, p, r.value)
    ensures r.Some? ==> forall j :: 0 <= j < r.value ==> !OccursAt(s, p, j)
    ensures r.None? ==> forall j :: !OccursAt(s, p, j)
    decreases |s|
  {
    if StartsWith(s, p) then Some(0)
    else if s == [] then None
    else
      var rest := IndexOf(s[1..], p);
      assert forall j :: 1 <= j ==> (OccursAt(s, p, j) <==> OccursAt(s[1..], p, j - 1)) by {
        forall j | 1 <= j ensures OccursAt(s, p, j) <==> OccursAt(s[1..], p, j - 1) {
          if j + |p| <= |s| {
            assert s[1..][j - 1..j - 1 + |p|] == s[j..j + |p|];
          }
        }
      }
      match rest
      case Some(i) => Some(i + 1)
      case None => None
  }

  /** `s.includes(p)`. */
  predicate Contains(s: string, p: string) {
    IndexOf(s, p).Some?
  }

  lemma ContainsAt(s: string, p: string, j: int)
    requires OccursAt(s, p, j)
    ensures Contains(s, p)
  {
  }

  /** Whatever is glued around `p`, `p` is still found. */
  lemma ContainsMiddle(a: string, p: string, b: string)
    ensures Contains(a + p + b, p)
  {
    assert (a + p + b)[|a|..|a| + |p|] == p;
    ContainsAt(a + p + b, p, |a|);
  }

  lemma ContainsSelf(p: string)
    ensures Contains(p, p)
  {
  }

  /** An occurrence in `s` survives putting text before `s`. */
  lemma ContainsAfter(a: string, s: string, p: string)
    requires Contains(s, p)
    ensures Contains(a + s, p)
  {
    var j := IndexOf(s, p).value;
    assert (a + s)[|a| + j..|a| + j + |p|] == s[j..j + |p|];
    ContainsAt(a + s, p, |a| + j);
  }

  /** An occurrence in `s` survives putting text after `s`. */
  lemma ContainsBefore(s: string, b: string, p: string)
    requires Contains(s, p)
    ensures Contains(s + b, p)
  {
    var j := IndexOf(s, p).value;
    assert (s + b)[j..j + |p|] == s[j..j + |p|];
    ContainsAt(s + b, p, j);
  }

  lemma EndsWithAppend(a: string, b: string)
    ensures EndsWith(a + b, b)
  {
    assert (a + b)[|a|..] == b;
  }

  lemma StartsWithAppend(a: string, b: string)
    ensures StartsWith(a + b, a)
  {
    assert (a + b)[..|a|] == a;
  }

  lemma StartsWithExtend(s: string, p: string, b: string)
    requires StartsWith(s, p)
    ensures StartsWith(s + b, p)
  {
    assert (s + b)[..|p|] == s[..|p|];
  }

  /** An occurrence in `s` survives gluing text around `s`. */
  lemma ContainsWithin(a: string, s: string, b: string, p: string)
    requires Contains(s, p)
    ensures Contains(a + s + b, p)
  {
    var j := IndexOf(s, p).value;
    assert (a + s + b)[|a| + j..|a| + j + |p|] == s[j..j + |p|];
    ContainsAt(a + s + b, p, |a| + j);
  }

  /** A pattern with a character that `s` lacks does not occur in `s`. */
  lemma NotContainsChar(s: string, p: string, c: char)
    requires c in p && c !in s
    ensures !Contains(s, p)
  {
  }

  /**
   * When `c` occurs in `a + [c] + b` only between `a` and `b`, a pattern in which `c` is
   * followed by something other than the first character of `b` does not occur.
   */
  lemma NotContainsAroundChar(a: string, c: char, b: string, p: string, k: nat)
    requires c !in a && c !in b
    requires k + 1 < |p| && p[k] == c
    requires b == [] || b[0] != p[k + 1]
    ensures !Contains(a + [c] + b, p)
  {
  }

  /** A regular expression made of one lower-case ASCII literal with the `i` flag, such as `/hack/i`. */
  predicate ContainsIgnoreCase(s: string, p: string) {
    Contains(Lower(s), Lower(p))
  }

  /** The text of `s` up to its first line terminator: what `.*` can scan from the start of `s`. */
  function LineRest(s: string): (r: string)
    ensures StartsWith(s, r)
    ensures forall c :: c in r ==> !IsLineTerminator(c)
  {
    if s == [] || IsLineTerminator(s[0]) then [] else [s[0]] + LineRest(s[1..])
  }

  predicate IsDigit(c: char) {
    '0' <= c <= '9'
  }

  /** The number a string of decimal digits denotes, most significant digit first. */
  function DigitsValue(s: string): int {
    if s == [] then 0 else DigitsValue(s[..|s| - 1]) * 10 + (s[|s| - 1] as int - '0' as int)
  }

  /**
   * Decimal rendering of a natural number, as JavaScript's template literals produce
   * it: digits that denote `n`, without a leading zero.
   */
  function NatToString(n: nat): (r: string)
    ensures |r| >= 1 && forall c :: c in r ==> IsDigit(c)
    ensures n < 10 <==> |r| == 1
    ensures DigitsValue(r) == n
    ensures r[0] == '0' ==> n == 0
    decreases n
  {
    var d := ['0' + (n % 10) as char];
    if n < 10 then d
    else
      var high := NatToString(n / 10);
      assert (high + d)[..|high + d| - 1] == high;
      high + d
  }

  /** Decimal rendering of an integer, with a leading minus for negative numbers. */
  function IntToString(i: int): (r: string)
    ensures |r| >= 1
    ensures (i < 0) <==> r[0] == '-'
  {
    if i < 0 then "-" + NatToString(-i)
    else
      var r := NatToString(i);
      assert r[0] in r;
      r
  }

  /** `parts.join(sep)`. */
  function Join(parts: seq<string>, sep: string): string
  {
    if |parts| == 0 then ""
    else if |parts| == 1 then parts[0]
    else parts[0] + sep + Join(parts[1..], sep)
  }

  /** Every part is found in the joined text. */
  lemma {:induction false} JoinContainsPart(parts: seq<string>, sep: string, k: nat)
    requires k < |parts|
    ensures Contains(Join(parts, sep), parts[k])
  {
    if |parts| == 1 {
      ContainsSelf(parts[0]);
    } else if k == 0 {
      ContainsMiddle([], parts[0], sep + Join(parts[1..], sep));
      assert [] + parts[0] + (sep + Join(parts[1..], sep)) == Join(parts, sep);
    } else {
      JoinContainsPart(parts[1..], sep, k - 1);
      ContainsAfter(parts[0] + sep, Join(parts[1..], sep), parts[k]);
    }
  }

  /** A character of the joined text is a character of the separator or of some part. */
  lemma {:induction false} JoinChars(parts: seq<string>, sep: string, c: char)
    requires c in Join(parts, sep)
    ensures c in sep || exists k :: 0 <= k < |parts| && c in parts[k]
  {
    if |parts| > 1 && c !in parts[0] && c !in sep {
      JoinChars(parts[1..], sep, c);
      var k :| 0 <= k < |parts[1..]| && c in parts[1..][k];
      assert c in parts[k + 1];
    }
  }

  /**
   * The replacement text of `String.prototype.replace` when the pattern is a string:
   * `$$`, `$&`, `` $` `` and `$'` are expanded, every other `$` stays literal (a
   * string pattern has no capture groups).
   */
  function Substitution(rep: string, matched: string, before: string, after: string): (r: string)
    ensures '$' !in rep ==> r == rep
    decreases |rep|
  {
    if rep == [] then []
    else if rep[0] == '$' && |rep| >= 2 && rep[1] in "$&`'" then
      var expansion :=
        if rep[1] == '$' then "$" else if rep[1] == '&' then matched
        else if rep[1] == '`' then before else after;
      expansion + Substitution(rep[2..], matched, before, after)
    else
      assert '$' !in rep ==> '$' !in rep[1..] by {
        if '$' in rep[1..] {
          var i :| 0 <= i < |rep[1..]| && rep[1..][i] == '$';
          assert rep[i + 1] == '$';
        }
      }
      [rep[0]] + Substitution(rep[1..], matched, before, after)
  }

  /**
   * `s.replace(pat, rep)` with a string `pat`: only the first occurrence is replaced;
   * without an occurrence `s` is returned unchanged.
   */
  function ReplaceFirst(s: string, pat: string, rep: string): (r: string)
    ensures IndexOf(s, pat).None? ==> r == s
  {
    match IndexOf(s, pat)
    case None => s
    case Some(i) =>
      s[..i] + Substitution(rep, pat, s[..i], s[i + |pat|..]) + s[i + |pat|..]
  }

  /** With a `$`-free replacement, the first occurrence (and only it) is swapped for `rep`. */
  lemma ReplaceFirstAt(s: string, pat: string, rep: string, i: nat)
    requires IndexOf(s, pat) == Some(i)
    requires '$' !in rep
    ensures ReplaceFirst(s, pat, rep) == s[..i] + rep + s[i + |pat|..]
  {
    assert Substitution(rep, pat, s[..i], s[i + |pat|..]) == rep;
  }

  /**
   * A later occurrence of the pattern, one that does not overlap the first, is still
   * in the result: the replacement is not global.
   */
  lemma {:induction false} ReplaceFirstKeepsLater(s: string, pat: string, rep: string, j: nat)
    requires '$' !in rep
    requires OccursAt(s, pat, j)
    requires IndexOf(s, pat).Some? && IndexOf(s, pat).value + |pat| <= j
    ensures Contains(ReplaceFirst(s, pat, rep), pat)
  {
    var i := IndexOf(s, pat).value;
    ReplaceFirstAt(s, pat, rep, i);
    var r := ReplaceFirst(s, pat, rep);
    var k := j - |pat| + |rep|;
    assert r == s[..i] + rep + s[i + |pat|..];
    assert r[k..k + |pat|] == s[j..j + |pat|] by {
      assert s[i + |pat|..][j - (i + |pat|)..j - (i + |pat|) + |pat|] == s[j..j + |pat|];
    }
    ContainsAt(r, pat, k);
  }

  /**
   * Where index `p` of `s` lands in `ReplaceFirst(s, pat, rep)` when the text there
   * lies clear of the replaced occurrence: in place before it, shifted by the change
   * in length after it.
   */
  function ShiftedAt(s: string, pat: string, rep: string, p: int): int {
    match IndexOf(s, pat)
    case None => p
    case Some(q) => if p < q then p else p - |pat| + |Substitution(rep, pat, s[..q], s[q + |pat|..])|
  }

  /**
   * An occurrence of `x` that cannot overlap an occurrence of `pat` (the first
   * character of each occurs nowhere later in the other, and their second characters
   * differ) is kept by the replacement, at its shifted index, whatever the
   * replacement text is.
   */
  lemma ReplaceFirstKeepsApart(s: string, pat: string, rep: string, x: string, p: nat)
    requires OccursAt(s, x, p)
    requires |pat| >= 2 && |x| >= 2 && pat[0] !in x[1..] && x[0] !in pat[1..] && x[1] != pat[1]
    ensures IndexOf(s, pat).Some? ==> p + |x| <= IndexOf(s, pat).value || IndexOf(s, pat).value + |pat| <= p
    ensures OccursAt(ReplaceFirst(s, pat, rep), x, ShiftedAt(s, pat, rep, p))
  {
    if IndexOf(s, pat).Some? {
      var q := IndexOf(s, pat).value;
      ApartOccurrences(s, pat, x, q, p);
      ShiftAfterReplace(s, pat, rep, x, q, p);
    }
  }

  lemma ShiftAfterReplace(s: string, pat: string, rep: string, x: string, q: nat, p: nat)
    requires IndexOf(s, pat) == Some(q)
    requires OccursAt(s, x, p) && |x| >= 1 && (p + |x| <= q || q + |pat| <= p)
    ensures OccursAt(ReplaceFirst(s, pat, rep), x, ShiftedAt(s, pat, rep, p))
  {
    ReplaceFirstUnfold(s, pat, rep, q);
    ShiftedAtUnfold(s, pat, rep, q, p);
    KeptAround(s[..q], Substitution(rep, pat, s[..q], s[q + |pat|..]), s[q + |pat|..], s, x, q, |pat|, p);
  }

  lemma ReplaceFirstUnfold(s: string, pat: string, rep: string, q: nat)
    requires IndexOf(s, pat) == Some(q)
    ensures ReplaceFirst(s, pat, rep) == s[..q] + Substitution(rep, pat, s[..q], s[q + |pat|..]) + s[q + |pat|..]
  {
  }

  lemma ShiftedAtUnfold(s: string, pat: string, rep: string, q: nat, p: int)
    requires IndexOf(s, pat) == Some(q)
    ensures ShiftedAt(s, pat, rep, p)
            == if p < q then p else p - |pat| + |Substitution(rep, pat, s[..q], s[q + |pat|..])|
  {
    var m := Substitution(rep, pat, s[..q], s[q + |pat|..]);
    if p < q {
      assert ShiftedAt(s, pat, rep, p) == p;
    } else {
      assert ShiftedAt(s, pat, rep, p) == p - |pat| + |m|;
    }
  }

  /** Two occurrences of patterns that cannot overlap do not overlap. */
  lemma ApartOccurrences(s: string, pat: string, x: string, q: nat, p: nat)
    requires OccursAt(s, pat, q) && OccursAt(s, x, p)
    requires |pat| >= 2 && |x| >= 2 && pat[0] !in x[1..] && x[0] !in pat[1..] && x[1] != pat[1]
    ensures p + |x| <= q || q + |pat| <= p
  {
  }

  /** Text outside the cut `s[q..q + n]` keeps its occurrences when the cut is swapped for `m`. */
  lemma KeptAround(a: string, m: string, b: string, s: string, x: string, q: nat, n: nat, p: nat)
    requires q + n <= |s| && a == s[..q] && b == s[q + n..]
    requires OccursAt(s, x, p) && |x| >= 1 && (p + |x| <= q || q + n <= p)
    ensures OccursAt(a + m + b, x, if p < q then p else p - n + |m|)
  {
    var r := a + m + b;
    if p + |x| <= q {
      assert r[p..p + |x|] == s[p..p + |x|];
    } else {
      var p' := p - n + |m|;
      assert r[p'..p' + |x|] == b[p - q - n..p - q - n + |x|];
    }
  }

  /** Two such occurrences, one after the other, stay in that order and apart. */
  lemma ReplaceFirstKeepsTwoApart(s: string, pat: string, rep: string, x: string, p1: nat, p2: nat)
    requires OccursAt(s, x, p1) && OccursAt(s, x, p2) && p1 + |x| <= p2
    requires |pat| >= 2 && |x| >= 2 && pat[0] !in x[1..] && x[0] !in pat[1..] && x[1] != pat[1]
    ensures OccursAt(ReplaceFirst(s, pat, rep), x, ShiftedAt(s, pat, rep, p1))
    ensures OccursAt(ReplaceFirst(s, pat, rep), x, ShiftedAt(s, pat, rep, p2))
    ensures ShiftedAt(s, pat, rep, p1) + |x| <= ShiftedAt(s, pat, rep, p2)
  {
    ReplaceFirstKeepsApart(s, pat, rep, x, p1);
    ReplaceFirstKeepsApart(s, pat, rep, x, p2);
  }

  /** The occurrence-level form of `ReplaceFirstKeepsApart`. */
  lemma KeptByReplace(s: string, pat: string, rep: string, x: string)
    requires Contains(s, x)
    requires |pat| >= 2 && |x| >= 2 && pat[0] !in x[1..] && x[0] !in pat[1..] && x[1] != pat[1]
    ensures Contains(ReplaceFirst(s, pat, rep), x)
  {
    var p := IndexOf(s, x).value;
    ReplaceFirstKeepsApart(s, pat, rep, x, p);
    ContainsAt(ReplaceFirst(s, pat, rep), x, ShiftedAt(s, pat, rep, p));
  }

  /** Whatever contains `a + b` contains `b`. */
  lemma ContainsSuffixPart(s: string, a: string, b: string)
    requires Contains(s, a + b)
    ensures Contains(s, b)
  {
    var j := IndexOf(s, a + b).value;
    assert s[j + |a|..j + |a| + |b|] == (a + b)[|a|..];
    ContainsAt(s, b, j + |a|);
  }

  /** Containment is transitive. */
  lemma ContainsTrans(s: string, t: string, x: string)
    requires Contains(s, t) && Contains(t, x)
    ensures Contains(s, x)
  {
    var i := IndexOf(s, t).value;
    var j := IndexOf(t, x).value;
    assert OccursAt(s, t, i) && OccursAt(t, x, j);
    assert forall k :: 0 <= k < |x| ==> x[k] == s[i + j + k];
    assert s[i + j..i + j + |x|] == x;
    ContainsAt(s, x, i + j);
  }

  /** A text contains each of its suffixes. */
  lemma EndsWithContains(s: string, p: string)
    requires EndsWith(s, p)
    ensures Contains(s, p)
  {
    ContainsAt(s, p, |s| - |p|);
  }

  // ----- Sequence algebra -----

  lemma AppendAssoc<T>(a: seq<T>, b: seq<T>, c: seq<T>)
    ensures a + (b + c) == (a + b) + c
  {
  }

  lemma AppendEmpty<T>(a: seq<T>)
    ensures [] + a == a && a + [] == a
  {
  }

  lemma InitLast<T>(xs: seq<T>)
    requires xs != []
    ensures xs[..|xs| - 1] + [xs[|xs| - 1]] == xs
  {
  }

  lemma ConsTail<T>(xs: seq<T>)
    requires xs != []
    ensures [xs[0]] + xs[1..] == xs
  {
  }
}
