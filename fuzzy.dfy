/**
 * The fuzzy fallback of the chat handler (server.js): the gate `fuzzySearchKB`
 * applies to the best search hit, and `validateFuzzyResult`, which checks that the
 * hit shares enough long words with the question. The search itself is an input:
 * the list of scored entries the search library returns, best first.
 */
module Fuzzy {
  import opened Wrappers
  import opened Text
  import Normalizer

  /** Where a search entry comes from: a canned response or a personal fact. */
  datatype EntryKind = ResponseEntry | PersonalEntry

  /** One entry of the search index. */
  datatype Entry = Entry(kind: EntryKind, key: string, content: string, keywords: string)

  /** A search result: an entry and its distance score (0 is a perfect match). */
  datatype Scored = Scored(item: Entry, score: real)

  /** What `fuzzySearchKB` hands back. */
  datatype Hit = Hit(key: string, content: string, confidence: int, kind: EntryKind)

  /** `Math.round`: the nearest integer, halves rounded up. */
  function Round(x: real): (r: int)
    ensures r as real - 0.5 <= x < r as real + 0.5
  {
    (x + 0.5).Floor
  }

  /** The confidence shown for a score: `Math.round((1 - score) * 100)`. */
  function Confidence(score: real): int {
    Round((1.0 - score) * 100.0)
  }

  /**
   * `fuzzySearchKB` after the search: nothing when there is no result or the best
   * score is 0.6 or more, otherwise the best entry with its confidence.
   */
  function FuzzyHit(results: seq<Scored>): (r: Option<Hit>)
    ensures r.Some? <==> results != [] && results[0].score < 0.6
    ensures r.Some? ==> (r.value.key == results[0].item.key && r.value.content == results[0].item.content
                         && r.value.kind == results[0].item.kind && r.value.confidence == Confidence(results[0].score))
  {
    if results == [] then None
    else
      var best := results[0];
      if best.score < 0.6 then Some(Hit(best.item.key, best.item.content, Confidence(best.score), best.item.kind))
      else None
  }

  /** A hit that passed the gate, from a score in Fuse's range, has a confidence between 40 and 100. */
  lemma HitConfidenceRange(score: real)
    requires 0.0 <= score < 0.6
    ensures 40 <= Confidence(score) <= 100
  {
  }

  /** A confidence of at least 70 means a score of at most 0.305. */
  lemma ConfidenceAtLeast70Iff(score: real)
    ensures Confidence(score) >= 70 <==> score <= 0.305
  {
    var x := (1.0 - score) * 100.0;
    var r := Confidence(score);
    if score <= 0.305 {
      assert x >= 69.5;
    } else {
      assert x < 69.5;
    }
  }

  // ----- Splitting on whitespace runs -----

  /** The index of the first whitespace character of `s`, or `|s|`. */
  function FirstSpace(s: string): (k: nat)
    ensures k <= |s|
    ensures forall i :: 0 <= i < k ==> !IsSpace(s[i])
    ensures k < |s| ==> IsSpace(s[k])
  {
    if s == [] || IsSpace(s[0]) then 0 else 1 + FirstSpace(s[1..])
  }

  /**
   * `s.split(/\s+/)`: the pieces between maximal whitespace runs, with an empty
   * first piece when `s` starts with whitespace and an empty last piece when it ends
   * with it; `""` gives `[""]`. The cuts fall exactly at the runs: the pieces joined
   * by single spaces are `s` with every whitespace run replaced by one space, which
   * is `s.replace(/\s+/g, ' ')`.
   */
  function SplitWs(s: string): (r: seq<string>)
    ensures |r| >= 1
    ensures forall w :: w in r ==> forall c :: c in w ==> !IsSpace(c)
    ensures Join(r, " ") == Normalizer.CollapseSpaces(s)
    decreases |s|
  {
    var k := FirstSpace(s);
    CollapseAfterWord(s, k);
    if k == |s| then
      assert s[..k] == s && s[k..] == [];
      [s]
    else
      var run := LeadingSpaces(s[k..]);
      assert run >= 1;
      var rest := SplitWs(s[k + run..]);
      assert s[k..][run..] == s[k + run..];
      var r := [s[..k]] + rest;
      assert r[1..] == rest;
      r
  }

  /** Collapsing whitespace keeps a whitespace-free prefix as it is. */
  lemma {:induction false} CollapseAfterWord(s: string, k: nat)
    requires k <= |s|
    requires forall i :: 0 <= i < k ==> !IsSpace(s[i])
    ensures Normalizer.CollapseSpaces(s) == s[..k] + Normalizer.CollapseSpaces(s[k..])
  {
    if k > 0 {
      CollapseAfterWord(s[1..], k - 1);
      assert s[1..][k - 1..] == s[k..];
      assert [s[0]] + s[1..][..k - 1] == s[..k];
    }
  }

  /** `s` without its whitespace characters. */
  function RemoveSpaces(s: string): string {
    if s == [] then []
    else (if IsSpace(s[0]) then [] else [s[0]]) + RemoveSpaces(s[1..])
  }

  lemma {:induction false} RemoveSpacesAppend(a: string, b: string)
    ensures RemoveSpaces(a + b) == RemoveSpaces(a) + RemoveSpaces(b)
  {
    if a != [] {
      assert (a + b)[1..] == a[1..] + b;
      RemoveSpacesAppend(a[1..], b);
    } else {
      assert a + b == b;
    }
  }

  lemma {:induction false} RemoveSpacesNoop(s: string)
    requires forall i :: 0 <= i < |s| ==> !IsSpace(s[i])
    ensures RemoveSpaces(s) == s
  {
    if s != [] {
      RemoveSpacesNoop(s[1..]);
    }
  }

  lemma {:induction false} RemoveSpacesAll(s: string)
    requires forall i :: 0 <= i < |s| ==> IsSpace(s[i])
    ensures RemoveSpaces(s) == []
  {
    if s != [] {
      RemoveSpacesAll(s[1..]);
    }
  }

  function Concat(parts: seq<string>): string {
    if parts == [] then [] else parts[0] + Concat(parts[1..])
  }

  lemma ConcatCons(a: string, parts: seq<string>)
    ensures Concat([a] + parts) == a + Concat(parts)
  {
    assert ([a] + parts)[1..] == parts;
  }

  /** A whitespace-free prefix followed by a whitespace run keeps only the prefix. */
  lemma {:induction false} RemoveSpacesWordRun(s: string, k: nat)
    requires k <= |s|
    requires forall i :: 0 <= i < k ==> !IsSpace(s[i])
    requires forall i :: k <= i < |s| ==> IsSpace(s[i])
    ensures RemoveSpaces(s) == s[..k]
  {
    if k == 0 {
      RemoveSpacesAll(s);
    } else {
      RemoveSpacesWordRun(s[1..], k - 1);
      assert [s[0]] + s[1..][..k - 1] == s[..k];
    }
  }

  /** Cutting `s` at a whitespace run after a whitespace-free prefix. */
  lemma RemoveSpacesAtRun(s: string, k: nat, run: nat)
    requires k + run <= |s|
    requires forall i :: 0 <= i < k ==> !IsSpace(s[i])
    requires forall i :: k <= i < k + run ==> IsSpace(s[i])
    ensures RemoveSpaces(s) == s[..k] + RemoveSpaces(s[k + run..])
  {
    var h, c := s[..k + run], s[k + run..];
    assert s == h + c;
    RemoveSpacesAppend(h, c);
    RemoveSpacesWordRun(h, k);
    assert h[..k] == s[..k];
  }

  /** Splitting loses only whitespace: the pieces, put back together, are `s` without it. */
  lemma {:induction false} SplitWsKeepsText(s: string)
    ensures Concat(SplitWs(s)) == RemoveSpaces(s)
    decreases |s|
  {
    var k := FirstSpace(s);
    if k == |s| {
      RemoveSpacesNoop(s);
      ConcatCons(s, []);
    } else {
      var run := LeadingSpaces(s[k..]);
      var rest := s[k + run..];
      SplitWsKeepsText(rest);
      RemoveSpacesAtRun(s, k, run);
      ConcatCons(s[..k], SplitWs(rest));
    }
  }

  // ----- Validation -----

  /**
   * JavaScript's `length`: UTF-16 code units, two for a character beyond U+FFFF
   * (a surrogate pair) and one for any other. With `Utf16LengthAppend` this fixes
   * the count of every string.
   */
  function Utf16Length(w: string): (r: nat)
    ensures |w| <= r <= 2 * |w|
    ensures |w| == 1 ==> (r == 2 <==> w[0] as int > 0xFFFF)
    ensures r == |w| <==> forall i :: 0 <= i < |w| ==> w[i] as int <= 0xFFFF
  {
    if w == [] then 0 else (if w[0] as int > 0xFFFF then 2 else 1) + Utf16Length(w[1..])
  }

  /** The code units of two strings add up. */
  lemma {:induction false} Utf16LengthAppend(a: string, b: string)
    ensures Utf16Length(a + b) == Utf16Length(a) + Utf16Length(b)
  {
    if a != [] {
      assert (a + b)[1..] == a[1..] + b;
      Utf16LengthAppend(a[1..], b);
    } else {
      assert a + b == b;
    }
  }

  /**
   * The words of `words` longer than three code units, in order: each long word is
   * kept as often as it occurs, and every other word is dropped.
   */
  function LongWords(words: seq<string>): (r: seq<string>)
    ensures |r| <= |words|
    ensures forall w :: w in r <==> w in words && Utf16Length(w) > 3
    ensures forall w :: multiset(r)[w] == if Utf16Length(w) > 3 then multiset(words)[w] else 0
  {
    if words == [] then []
    else
      var rest := LongWords(words[1..]);
      assert words == [words[0]] + words[1..];
      (if Utf16Length(words[0]) > 3 then [words[0]] else []) + rest
  }

  /** One more word is appended to the long words when it is long, so their order is the words' order. */
  lemma {:induction false} LongWordsSnoc(words: seq<string>, w: string)
    ensures LongWords(words + [w]) == LongWords(words) + (if Utf16Length(w) > 3 then [w] else [])
  {
    var x := if Utf16Length(w) > 3 then [w] else [];
    if words == [] {
      assert [] + [w] == [w];
      AppendEmpty(x);
    } else {
      var h := if Utf16Length(words[0]) > 3 then [words[0]] else [];
      assert (words + [w])[1..] == words[1..] + [w];
      assert (words + [w])[0] == words[0];
      LongWordsSnoc(words[1..], w);
      AppendAssoc(h, LongWords(words[1..]), x);
    }
  }

  /** The query terms: the lower-cased query split on whitespace, keeping words longer than three. */
  function QueryTerms(query: string): seq<string> {
    LongWords(SplitWs(Lower(query)))
  }

  /**
   * The terms of `terms` that occur in `text`, in order: a repeated term is kept as
   * often as it is repeated, and a term that does not occur is dropped.
   */
  function MatchedTerms(terms: seq<string>, text: string): (r: seq<string>)
    ensures |r| <= |terms|
    ensures forall t :: multiset(r)[t] == if Contains(text, t) then multiset(terms)[t] else 0
  {
    if terms == [] then []
    else
      var rest := MatchedTerms(terms[1..], text);
      assert terms == [terms[0]] + terms[1..];
      (if Contains(text, terms[0]) then [terms[0]] else []) + rest
  }

  /** A term is matched exactly when it is a query term found in the text. */
  lemma {:induction false} MatchedTermsIff(terms: seq<string>, text: string, t: string)
    ensures t in MatchedTerms(terms, text) <==> t in terms && Contains(text, t)
  {
    if terms != [] {
      MatchedTermsIff(terms[1..], text, t);
      assert terms == [terms[0]] + terms[1..];
    }
  }

  /** One more query term is appended to the matched terms when it occurs, so their order is the query's. */
  lemma {:induction false} MatchedTermsSnoc(terms: seq<string>, t: string, text: string)
    ensures MatchedTerms(terms + [t], text) == MatchedTerms(terms, text) + (if Contains(text, t) then [t] else [])
  {
    var x := if Contains(text, t) then [t] else [];
    if terms == [] {
      assert [] + [t] == [t];
      AppendEmpty(x);
    } else {
      var h := if Contains(text, terms[0]) then [terms[0]] else [];
      assert (terms + [t])[1..] == terms[1..] + [t];
      assert (terms + [t])[0] == terms[0];
      MatchedTermsSnoc(terms[1..], t, text);
      AppendAssoc(h, MatchedTerms(terms[1..], text), x);
    }
  }

  /** When every term occurs, every term is matched, repeats included. */
  lemma {:induction false} AllMatched(terms: seq<string>, text: string)
    requires forall i :: 0 <= i < |terms| ==> Contains(text, terms[i])
    ensures MatchedTerms(terms, text) == terms
  {
    if terms != [] {
      AllMatched(terms[1..], text);
      ConsTail(terms);
    }
  }

  /** The outcome of `validateFuzzyResult`. */
  datatype Validation = Validation(isValid: bool, matchedTerms: seq<string>)

  /**
   * `validateFuzzyResult`: valid when at least 40% of the query terms occur in the
   * lower-cased content (with no term the ratio is NaN and fails) or the confidence is
   * at least 70. The ratio test is stated on integers: `m / t >= 0.4` is `5m >= 2t`.
   */
  function Validate(query: string, hit: Hit): (v: Validation)
    ensures v.matchedTerms == MatchedTerms(QueryTerms(query), Lower(hit.content))
    ensures forall t :: t in v.matchedTerms <==> t in QueryTerms(query) && Contains(Lower(hit.content), t)
    ensures v.isValid <==> (|QueryTerms(query)| > 0 && 5 * |v.matchedTerms| >= 2 * |QueryTerms(query)|) || hit.confidence >= 70
  {
    var terms := QueryTerms(query);
    var matched := MatchedTerms(terms, Lower(hit.content));
    forall t ensures t in matched <==> t in terms && Contains(Lower(hit.content), t) {
      MatchedTermsIff(terms, Lower(hit.content), t);
    }
    Validation((|terms| > 0 && 5 * |matched| >= 2 * |terms|) || hit.confidence >= 70, matched)
  }

  /**
   * A query whose terms all occur in the content is valid, and every term counts, a
   * repeated one as often as it is repeated.
   */
  lemma AllTermsFoundValid(query: string, hit: Hit)
    requires QueryTerms(query) != []
    requires forall i :: 0 <= i < |QueryTerms(query)| ==> Contains(Lower(hit.content), QueryTerms(query)[i])
    ensures Validate(query, hit).matchedTerms == QueryTerms(query)
    ensures Validate(query, hit).isValid
  {
    AllMatched(QueryTerms(query), Lower(hit.content));
  }

  /** The integer test agrees with the source's division for every positive number of terms. */
  lemma RatioExact(matched: nat, terms: nat)
    requires terms > 0
    ensures 5 * matched >= 2 * terms <==> (matched as real) / (terms as real) >= 0.4
  {
    var m, n := matched as real, terms as real;
    RatioAtLeast(m, n, 0.4);
    assert 5 * matched >= 2 * terms <==> m >= 0.4 * n;
  }

  /** A quotient by a positive number is at least `c` exactly when the dividend is at least `c` times it. */
  lemma RatioAtLeast(m: real, n: real, c: real)
    requires n > 0.0
    ensures m / n >= c <==> m >= c * n
  {
    var q := m / n;
    assert q * n == m;
    if q >= c {
      assert (q - c) * n >= 0.0;
    } else {
      assert (c - q) * n > 0.0;
    }
  }

  /** Every query term is a lower-case piece without whitespace, longer than three code units. */
  lemma QueryTermsShape(query: string)
    ensures forall t :: t in QueryTerms(query) ==>
      Utf16Length(t) > 3 && NoUpper(t) && forall c :: c in t ==> !IsSpace(c)
  {
    var words := SplitWs(Lower(query));
    LowerHasNoUpper(query);
    SplitWsKeepsText(Lower(query));
    forall t | t in QueryTerms(query) ensures NoUpper(t) {
      assert t in words;
      PieceChars(words, t);
      forall c | c in t ensures !IsUpper(c) {
        RemoveSpacesChars(Lower(query), c);
      }
    }
  }

  /** A character of a piece is a character of the concatenation. */
  lemma {:induction false} PieceChars(parts: seq<string>, t: string)
    requires t in parts
    ensures forall c :: c in t ==> c in Concat(parts)
  {
    if parts[0] != t {
      PieceChars(parts[1..], t);
    }
  }

  lemma {:induction false} RemoveSpacesChars(s: string, c: char)
    requires c in RemoveSpaces(s)
    ensures c in s
  {
    if s != [] && !(c == s[0]) {
      RemoveSpacesChars(s[1..], c);
    }
  }

  /** A question without long words is accepted on confidence alone. */
  lemma NoTermsOnlyConfidence(query: string, hit: Hit)
    requires QueryTerms(query) == []
    ensures Validate(query, hit).isValid <==> hit.confidence >= 70
  {
  }

  /** A hit that shares no long word with the question and has confidence below 70 is rejected. */
  lemma NoOverlapRejected(query: string, hit: Hit)
    requires forall t :: t in QueryTerms(query) ==> !Contains(Lower(hit.content), t)
    requires hit.confidence < 70
    ensures !Validate(query, hit).isValid
  {
    NoneMatched(QueryTerms(query), Lower(hit.content));
  }

  lemma {:induction false} NoneMatched(terms: seq<string>, text: string)
    requires forall t :: t in terms ==> !Contains(text, t)
    ensures MatchedTerms(terms, text) == []
  {
    if terms != [] {
      assert terms[0] in terms;
      assert forall t :: t in terms[1..] ==> t in terms;
      NoneMatched(terms[1..], text);
    }
  }
}
