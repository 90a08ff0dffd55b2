/**
 * `normalizeMessage` (server.js): the fixed chain of string rewrites applied to a
 * chat message before intent patterns are matched against it.
 */
module Normalizer {
  import opened Wrappers
  import opened Text

  /** The characters `'`, `` ` `` and `´` all become `'`; the curly `’` is not among them. */
  function UnifyApostrophe(c: char): char {
    if c == '`' || c == '\U{B4}' then '\'' else c
  }

  function UnifyApostrophes(s: string): (r: string)
    ensures |r| == |s|
  {
    seq(|s|, i requires 0 <= i < |s| => UnifyApostrophe(s[i]))
  }

  lemma UnifyChars(s: string)
    ensures forall c :: c in UnifyApostrophes(s) ==> (c in s || c == '\'') && c != '`' && c != '\U{B4}'
  {
    var r := UnifyApostrophes(s);
    forall c | c in r ensures (c in s || c == '\'') && c != '`' && c != '\U{B4}' {
      var i :| 0 <= i < |r| && r[i] == c;
      assert r[i] == UnifyApostrophe(s[i]);
    }
  }

  /** The alternatives `(s|re|ve|ll|d|m|t)` of the contraction pattern, in the order they are tried. */
  const ContractionSuffixes: seq<string> := ["s", "re", "ve", "ll", "d", "m", "t"]

  /** The length of the run of `\w` characters that `s` starts with (greedy `\w+`). */
  function WordRun(s: string): (n: nat)
    ensures n <= |s|
    ensures forall i :: 0 <= i < n ==> IsWordChar(s[i])
    ensures n == |s| || !IsWordChar(s[n])
  {
    if s != [] && IsWordChar(s[0]) then 1 + WordRun(s[1..]) else 0
  }

  /** The first alternative of `alts` that `t` starts with and that is followed by `\b`; its length. */
  function SuffixMatch(t: string, alts: seq<string>): (r: Option<nat>)
    ensures r.Some? ==> r.value <= |t|
  {
    if alts == [] then None
    else if StartsWith(t, alts[0]) && WordBoundary(t, |alts[0]|) then Some(|alts[0]|)
    else SuffixMatch(t, alts[1..])
  }

  /**
   * A match of `(\w+)'(s|re|ve|ll|d|m|t)\b` that starts at index 0 of `s`: the length
   * of the word and of the suffix. The word is the whole `\w` run, since a shorter
   * `\w+` would have to be followed by an apostrophe that is a word character.
   */
  function ContractionAt(s: string): (m: Option<(nat, nat)>)
    ensures m.Some? ==> m.value.0 + 1 + m.value.1 <= |s| && s[m.value.0] == '\''
  {
    var w := WordRun(s);
    if w == 0 || w == |s| || s[w] != '\'' then None
    else
      match SuffixMatch(s[w + 1..], ContractionSuffixes)
      case None => None
      case Some(k) => Some((w, k))
  }

  /**
   * `.replace(/(\w+)'(s|re|ve|ll|d|m|t)\b/g, '$1 $2')`: one left-to-right pass; after a
   * match the scan resumes after it, otherwise one character further on.
   */
  function SplitContractions(s: string): string
    decreases |s|
  {
    if s == [] then []
    else
      match ContractionAt(s)
      case Some((w, k)) => s[..w] + " " + s[w + 1..w + 1 + k] + SplitContractions(s[w + 1 + k..])
      case None => [s[0]] + SplitContractions(s[1..])
  }

  /** Splitting contractions only inserts spaces. */
  lemma {:induction false} SplitChars(s: string)
    ensures forall c :: c in SplitContractions(s) ==> c in s || c == ' '
    decreases |s|
  {
    if s != [] {
      SplitUnfold(s);
      var m := ContractionAt(s);
      if m.Some? {
        var w, k := m.value.0, m.value.1;
        var rest := SplitContractions(s[w + 1 + k..]);
        SplitChars(s[w + 1 + k..]);
        PiecesChars(s, w, k, rest);
      } else {
        var rest := SplitContractions(s[1..]);
        SplitChars(s[1..]);
        PiecesChars(s, 0, 0, rest);
      }
    }
  }

  /**
   * One step of the split: a contraction at the start puts a space in place of its
   * apostrophe; otherwise the first character is kept.
   */
  lemma SplitUnfold(s: string)
    requires s != []
    ensures ContractionAt(s).Some? ==>
      var (w, k) := ContractionAt(s).value;
      SplitContractions(s) == s[..w] + " " + s[w + 1..w + 1 + k] + SplitContractions(s[w + 1 + k..])
    ensures ContractionAt(s).None? ==>
      SplitContractions(s) == s[..0] + [s[0]] + s[1..1] + SplitContractions(s[1..])
  {
    if ContractionAt(s).None? {
      assert s[..0] + [s[0]] + s[1..1] == [s[0]];
    }
  }

  /**
   * Two slices of `s` around index `w`, with `mid` in between and a tail drawn from
   * what follows, hold only characters of `s` and spaces.
   */
  lemma PiecesChars(s: string, w: nat, k: nat, rest: string)
    requires w + 1 + k <= |s|
    requires forall c :: c in rest ==> c in s[w + 1 + k..] || c == ' '
    ensures forall c :: c in s[..w] + " " + s[w + 1..w + 1 + k] + rest ==> c in s || c == ' '
    ensures forall c :: c in s[..w] + [s[w]] + s[w + 1..w + 1 + k] + rest ==> c in s || c == ' '
  {
    forall c | c in s[..w] + [s[w]] + s[w + 1..w + 1 + k] + rest || c in s[..w] + " " + s[w + 1..w + 1 + k] + rest
      ensures c in s || c == ' '
    {
      if c in s[..w] {
        InSlice(s, 0, w, c);
      } else if c in s[w + 1..w + 1 + k] {
        InSlice(s, w + 1, w + 1 + k, c);
      } else if c in rest && c != ' ' {
        assert s[w + 1 + k..] == s[w + 1 + k..|s|];
        InSlice(s, w + 1 + k, |s|, c);
      }
    }
  }

  /** A character of a slice is a character of the whole. */
  lemma InSlice(s: string, i: nat, j: nat, c: char)
    requires i <= j <= |s| && c in s[i..j]
    ensures c in s
  {
    var k :| 0 <= k < j - i && s[i..j][k] == c;
    assert s[i + k] == c;
  }

  /** The characters the noise filter keeps: `[\w\s?!.'-]`. */
  predicate Kept(c: char) {
    IsWordChar(c) || IsSpace(c) || c == '?' || c == '!' || c == '.' || c == '\'' || c == '-'
  }

  /** `.replace(/[^\w\s?!.'-]/g, ' ')`. */
  function ReplaceNoise(s: string): (r: string)
    ensures |r| == |s|
  {
    seq(|s|, i requires 0 <= i < |s| => if Kept(s[i]) then s[i] else ' ')
  }

  /** Every character left by the filter is one it keeps, or the space put in place of noise. */
  lemma NoiseChars(s: string)
    ensures forall c :: c in ReplaceNoise(s) ==> (c in s && Kept(c)) || c == ' '
  {
    var r := ReplaceNoise(s);
    forall c | c in r ensures (c in s && Kept(c)) || c == ' ' {
      var i :| 0 <= i < |r| && r[i] == c;
    }
  }

  /** No two spaces in a row. */
  predicate NoDoubleSpace(s: string) {
    forall i :: 0 <= i < |s| - 1 ==> !(s[i] == ' ' && s[i + 1] == ' ')
  }

  /** `.replace(/\s+/g, ' ')`: every maximal run of whitespace becomes one space. */
  function CollapseSpaces(s: string): string
    decreases |s|
  {
    if s == [] then []
    else if IsSpace(s[0]) then " " + CollapseSpaces(s[LeadingSpaces(s)..])
    else [s[0]] + CollapseSpaces(s[1..])
  }

  /**
   * After collapsing, the only whitespace left is single spaces, and the result starts
   * with a space exactly when the input starts with whitespace.
   */
  lemma {:induction false} CollapseFacts(s: string)
    ensures forall c :: c in CollapseSpaces(s) ==> (c in s && !IsSpace(c)) || c == ' '
    ensures NoDoubleSpace(CollapseSpaces(s))
    ensures CollapseSpaces(s) == [] <==> s == []
    ensures CollapseSpaces(s) != [] ==> (CollapseSpaces(s)[0] == ' ' <==> IsSpace(s[0]))
    decreases |s|
  {
    if s != [] {
      var n := if IsSpace(s[0]) then LeadingSpaces(s) else 1;
      CollapseFacts(s[n..]);
      var rest := CollapseSpaces(s[n..]);
      forall c | c in rest && c != ' ' ensures c in s && !IsSpace(c) {
        var i :| 0 <= i < |s| - n && s[n..][i] == c; assert s[n + i] == c;
      }
    }
  }

  /** The characters normalized text is made of: `[a-z0-9_ ?!.'-]`. */
  predicate AllowedChar(c: char) {
    ('a' <= c <= 'z') || ('0' <= c <= '9') || c == '_' || c == ' '
    || c == '?' || c == '!' || c == '.' || c == '\'' || c == '-'
  }

  /** The shape of every normalized message. */
  predicate Canonical(s: string) {
    && (forall c :: c in s ==> AllowedChar(c))
    && (s == [] || (s[0] != ' ' && s[|s| - 1] != ' '))
    && NoDoubleSpace(s)
  }

  /**
   * `normalizeMessage`: trim, lower-case, unify apostrophes, split contractions,
   * blank out noise, collapse whitespace, trim again. The result is lower-case, its
   * only whitespace is single inner spaces, and it uses only `[a-z0-9_ ?!.'-]`.
   */
  function Normalize(message: string): (r: string)
    ensures Canonical(r)
  {
    var lowered := Lower(Trim(message));
    var unified := UnifyApostrophes(lowered);
    var split := SplitContractions(unified);
    var filtered := ReplaceNoise(split);
    var collapsed := CollapseSpaces(filtered);
    var r := Trim(collapsed);
    LowerHasNoUpper(Trim(message));
    UnifyChars(lowered);
    SplitChars(unified);
    NoiseChars(split);
    CollapseFacts(filtered);
    assert forall c :: c in collapsed ==> AllowedChar(c) by {
      forall c | c in collapsed ensures AllowedChar(c) {
        if c != ' ' {
          assert c in filtered && !IsSpace(c) && Kept(c) && c in split;
          assert c in unified;
          assert c in lowered || c == '\'';
        }
      }
    }
    TrimOfCollapsed(collapsed);
    r
  }

  /** Trimming text without double spaces yields text that is canonical as far as its characters allow. */
  lemma TrimOfCollapsed(s: string)
    requires NoDoubleSpace(s)
    requires forall c :: c in s ==> AllowedChar(c)
    ensures Canonical(Trim(s))
  {
    var r := Trim(s);
    if r != [] {
      var k := LeadingSpaces(s);
      assert r == s[k..TrailingStart(s)];
      forall i | 0 <= i < |r| - 1 ensures !(r[i] == ' ' && r[i + 1] == ' ') {
        assert r[i] == s[k + i] && r[i + 1] == s[k + i + 1];
      }
    }
  }

  // ----- Text that is already canonical -----

  lemma LowerNoop(s: string)
    requires NoUpper(s)
    ensures Lower(s) == s
  {
    forall i | 0 <= i < |s| ensures Lower(s)[i] == s[i] {
      assert s[i] in s;
    }
  }

  lemma UnifyNoop(s: string)
    requires '`' !in s && '\U{B4}' !in s
    ensures UnifyApostrophes(s) == s
  {
    forall i | 0 <= i < |s| ensures UnifyApostrophes(s)[i] == s[i] {
      assert s[i] in s;
    }
  }

  lemma {:induction false} SplitNoop(s: string)
    requires '\'' !in s
    ensures SplitContractions(s) == s
    decreases |s|
  {
    if s != [] {
      assert ContractionAt(s).None?;
      assert forall c :: c in s[1..] ==> c in s by {
        forall c | c in s[1..] ensures c in s {
          var i :| 0 <= i < |s| - 1 && s[1..][i] == c; assert s[i + 1] == c;
        }
      }
      SplitNoop(s[1..]);
      assert s == [s[0]] + s[1..];
    }
  }

  lemma ReplaceNoiseNoop(s: string)
    requires forall c :: c in s ==> AllowedChar(c)
    ensures ReplaceNoise(s) == s
  {
    forall i | 0 <= i < |s| ensures ReplaceNoise(s)[i] == s[i] {
      assert s[i] in s;
    }
  }

  lemma {:induction false} CollapseNoop(s: string)
    requires forall c :: c in s ==> AllowedChar(c)
    requires NoDoubleSpace(s)
    ensures CollapseSpaces(s) == s
    decreases |s|
  {
    if s != [] {
      assert s[0] in s;
      assert forall c :: c in s[1..] ==> AllowedChar(c) by {
        forall c | c in s[1..] ensures AllowedChar(c) {
          var i :| 0 <= i < |s| - 1 && s[1..][i] == c; assert s[i + 1] in s;
        }
      }
      assert NoDoubleSpace(s[1..]) by {
        forall i | 0 <= i < |s[1..]| - 1 ensures !(s[1..][i] == ' ' && s[1..][i + 1] == ' ') {
          assert s[1..][i] == s[i + 1] && s[1..][i + 1] == s[i + 2];
        }
      }
      if IsSpace(s[0]) {
        assert s[0] == ' ';
        var n := LeadingSpaces(s);
        if |s| > 1 {
          assert s[1] in s;
          assert s[1] != ' ';
          assert n == 1;
        }
        CollapseNoop(s[1..]);
        assert s == " " + s[1..];
      } else {
        CollapseNoop(s[1..]);
        assert s == [s[0]] + s[1..];
      }
    }
  }

  /**
   * Canonical text without an apostrophe is left unchanged by normalization: every
   * step of the chain is then the identity.
   */
  lemma NormalizeFixesCanonical(s: string)
    requires Canonical(s)
    requires '\'' !in s
    ensures Normalize(s) == s
  {
    CanonicalFixedUpToSplit(s);
    SplitNoop(s);
    CanonicalFixedAfterSplit(s);
  }

  /**
   * Normalization is idempotent on every message whose normalized form has no
   * apostrophe left in it.
   */
  lemma NormalizeIdempotentWithoutApostrophe(message: string)
    requires '\'' !in Normalize(message)
    ensures Normalize(Normalize(message)) == Normalize(message)
  {
    NormalizeFixesCanonical(Normalize(message));
  }

  /**
   * On canonical text whose contraction split is canonical too, normalization is
   * exactly the contraction split.
   */
  lemma NormalizeIsSplit(s: string)
    requires Canonical(s) && Canonical(SplitContractions(s))
    ensures Normalize(s) == SplitContractions(s)
  {
    CanonicalFixedUpToSplit(s);
    CanonicalFixedAfterSplit(SplitContractions(s));
  }

  /** The steps after the contraction split leave canonical text as it is. */
  lemma CanonicalFixedAfterSplit(t: string)
    requires Canonical(t)
    ensures Trim(CollapseSpaces(ReplaceNoise(t))) == t
  {
    if t != [] {
      assert t[0] in t && t[|t| - 1] in t;
    }
    ReplaceNoiseNoop(t);
    var a := ReplaceNoise(t);
    assert a == t;
    CollapseNoop(a);
    var b := CollapseSpaces(a);
    assert b == t;
    TrimNoop(b);
  }

  /** The steps before the contraction split leave canonical text as it is. */
  lemma CanonicalFixedUpToSplit(s: string)
    requires Canonical(s)
    ensures UnifyApostrophes(Lower(Trim(s))) == s
  {
    if s != [] {
      assert s[0] in s && s[|s| - 1] in s;
    }
    TrimNoop(s);
    assert NoUpper(s) by {
      forall c | c in s ensures !IsUpper(c) { assert AllowedChar(c); }
    }
    LowerNoop(s);
    UnifyNoop(s);
  }

  lemma SuffixD()
    ensures SuffixMatch("d've", ContractionSuffixes) == Some(1)
  {
    var t := "d've";
    assert t[0] == 'd' && t[..1][0] == 'd' && t[..2][0] == 'd';
    assert !StartsWith(t, "s") && !StartsWith(t, "re");
    assert !StartsWith(t, "ve") && !StartsWith(t, "ll");
    assert StartsWith(t, "d") && WordBoundary(t, 1);
    assert ContractionSuffixes[4..][0] == "d";
  }

  lemma SuffixVe()
    ensures SuffixMatch("ve", ContractionSuffixes) == Some(2)
  {
    assert "ve"[..1][0] == 'v' && "ve"[..2][0] == 'v';
    assert !StartsWith("ve", "s") && !StartsWith("ve", "re");
    assert StartsWith("ve", "ve") && WordBoundary("ve", 2);
    assert ContractionSuffixes[2..][0] == "ve";
  }

  lemma ContractionHeDve()
    ensures ContractionAt("he'd've") == Some((2, 1))
  {
    var x := "he'd've";
    assert WordRun(x) == 2 by {
      assert WordRun(x[2..]) == 0;
      assert WordRun(x[1..]) == 1;
    }
    assert x[3..] == "d've";
    SuffixD();
  }

  lemma SplitHeDve()
    ensures SplitContractions("he'd've") == "he d've"
  {
    var x := "he'd've";
    ContractionHeDve();
    SplitNoopWord("ve");
    assert x[4..] == "'ve";
    assert SplitContractions(x) == "he d" + SplitContractions("'ve");
  }

  lemma ContractionDVe()
    ensures ContractionAt("d've") == Some((1, 2))
  {
    var z := "d've";
    assert WordRun(z) == 1 by { assert WordRun(z[1..]) == 0; }
    SuffixVe();
    assert z[2..] == "ve";
  }

  lemma NoContractionHe(y: string)
    requires y == "he d've"
    ensures ContractionAt(y).None? && ContractionAt(y[1..]).None? && ContractionAt(y[2..]).None?
  {
    assert ContractionAt(y).None? by { assert WordRun(y) == 2 by { assert WordRun(y[2..]) == 0; assert WordRun(y[1..]) == 1; } }
    assert ContractionAt(y[1..]).None? by { assert WordRun(y[1..]) == 1 by { assert WordRun(y[2..]) == 0; } }
    assert ContractionAt(y[2..]).None? by { assert WordRun(y[2..]) == 0; }
  }

  lemma SplitHeDVe()
    ensures SplitContractions("he d've") == "he d ve"
  {
    var y := "he d've";
    NoContractionHe(y);
    var z := y[3..];
    assert z == "d've";
    ContractionDVe();
    assert SplitContractions(z) == "d ve";
    assert SplitContractions(y) == "he " + SplitContractions(z);
  }

  /**
   * Normalization is not idempotent: the single non-overlapping pass turns "he'd've"
   * into "he d've", and normalizing that again splits the second contraction.
   */
  lemma NormalizeNotIdempotent()
    ensures Normalize("he'd've") == "he d've"
    ensures Normalize("he d've") == "he d ve"
    ensures Normalize(Normalize("he'd've")) != Normalize("he'd've")
  {
    NormalizeHeDve();
    NormalizeHeDVe();
  }

  lemma NormalizeHeDve()
    ensures Normalize("he'd've") == "he d've"
  {
    SplitHeDve();
    CanonicalLits();
    NormalizeIsSplit("he'd've");
  }

  lemma NormalizeHeDVe()
    ensures Normalize("he d've") == "he d ve"
  {
    SplitHeDVe();
    CanonicalLits();
    NormalizeIsSplit("he d've");
  }

  lemma CanonicalLits()
    ensures Canonical("he'd've") && Canonical("he d've") && Canonical("he d ve")
  {
    assert NoDoubleSpace("he d've") && NoDoubleSpace("he d ve");
  }

  /** A run of word characters preceded by an apostrophe is copied through unchanged. */
  lemma {:induction false} SplitNoopWord(v: string)
    requires forall c :: c in v ==> IsWordChar(c)
    ensures SplitContractions("'" + v) == "'" + v
  {
    var s := "'" + v;
    assert WordRun(s) == 0;
    assert s[1..] == v;
    assert !IsWordChar('\'');
    SplitNoop(v);
  }
}
