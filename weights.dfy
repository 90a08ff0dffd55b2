/**
 * `resolveIntentByWeight` (server.js): the fallback used when no classifier rule
 * fired. Each of three intents scores one point per listed keyword found as a
 * substring of the normalized message; the best score wins if it is positive.
 */
module WeightedScorer {
  import opened Text
  import opened Normalizer
  import opened Intents

  /** The keyword table, in its declaration order. */
  const WeightedKeywords: seq<(Intent, seq<string>)> := [
    (Github, ["github", "repo", "repository", "code", "stars"]),
    (Linkedin, ["linkedin", "connect", "professional", "profile"]),
    (Education, ["education", "college", "degree", "qualification", "profile"])
  ]

  /** The number of entries of `words` that occur in `n`. */
  function Score(n: string, words: seq<string>): (r: nat)
    ensures r <= |words|
  {
    if words == [] then 0
    else (if Contains(n, words[0]) then 1 else 0) + Score(n, words[1..])
  }

  /** A score is zero exactly when none of the keywords occurs. */
  lemma {:induction false} ScoreZeroIff(n: string, words: seq<string>)
    ensures Score(n, words) == 0 <==> forall i :: 0 <= i < |words| ==> !Contains(n, words[i])
  {
    if words != [] {
      ScoreZeroIff(n, words[1..]);
      if Score(n, words) == 0 {
        forall i | 0 <= i < |words| ensures !Contains(n, words[i]) {
          if i > 0 {
            assert words[i] == words[1..][i - 1];
          }
        }
      } else if !Contains(n, words[0]) {
        var i :| 0 <= i < |words[1..]| && Contains(n, words[1..][i]);
        assert words[i + 1] == words[1..][i];
      }
    }
  }

  /** Appending a keyword to the list adds a point exactly when that keyword occurs. */
  lemma {:induction false} ScoreGrows(n: string, words: seq<string>, extra: string)
    ensures Score(n, words + [extra]) == Score(n, words) + (if Contains(n, extra) then 1 else 0)
  {
    if words != [] {
      assert (words + [extra])[1..] == words[1..] + [extra];
      ScoreGrows(n, words[1..], extra);
    } else {
      assert [] + [extra] == [extra];
    }
  }

  /** The score of each table entry, in table order. */
  function Scores(n: string): (r: seq<nat>)
    ensures |r| == |WeightedKeywords|
    ensures forall k :: 0 <= k < |r| ==> r[k] == Score(n, WeightedKeywords[k].1)
  {
    seq(|WeightedKeywords|, k requires 0 <= k < |WeightedKeywords| => Score(n, WeightedKeywords[k].1))
  }

  /**
   * The index of the first maximal score: the head of the entries after the stable
   * descending sort by score.
   */
  function BestIndex(scores: seq<nat>): (k: nat)
    requires |scores| > 0
    ensures k < |scores|
    ensures forall j :: 0 <= j < |scores| ==> scores[j] <= scores[k]
    ensures forall j :: 0 <= j < k ==> scores[j] < scores[k]
  {
    if |scores| == 1 then 0
    else
      var k := BestIndex(scores[..|scores| - 1]);
      assert forall j :: 0 <= j < |scores| - 1 ==> scores[..|scores| - 1][j] == scores[j];
      if scores[|scores| - 1] > scores[k] then |scores| - 1 else k
  }

  /** The intent `resolveIntentByWeight` returns for the normalized message `n`. */
  function WeightedIntent(n: string): Intent {
    var scores := Scores(n);
    var k := BestIndex(scores);
    if scores[k] > 0 then WeightedKeywords[k].0 else Default
  }

  /** The `reduce` over one keyword list: one point per keyword found in `n`. */
  method KeywordScore(n: string, words: seq<string>) returns (acc: nat)
    ensures acc == Score(n, words)
  {
    acc := 0;
    var j := 0;
    while j < |words|
      invariant 0 <= j <= |words|
      invariant acc == Score(n, words[..j])
    {
      ScoreGrows(n, words[..j], words[j]);
      assert words[..j + 1] == words[..j] + [words[j]];
      acc := acc + (if Contains(n, words[j]) then 1 else 0);
      j := j + 1;
    }
    assert words[..j] == words;
  }

  /** The loop filling `scores`: one keyword count per table entry, in table order. */
  method ScoreEntries(n: string, table: seq<(Intent, seq<string>)>) returns (scores: seq<nat>)
    ensures |scores| == |table|
    ensures forall k :: 0 <= k < |table| ==> scores[k] == Score(n, table[k].1)
  {
    scores := [];
    var i := 0;
    while i < |table|
      invariant 0 <= i <= |table|
      invariant |scores| == i
      invariant forall k :: 0 <= k < i ==> scores[k] == Score(n, table[k].1)
    {
      var acc := KeywordScore(n, table[i].1);
      scores := scores + [acc];
      i := i + 1;
    }
  }

  /**
   * `resolveIntentByWeight`: normalizes, fills the scores entry by entry with a
   * keyword count, and keeps the best entry if its score is positive.
   */
  method ResolveIntentByWeight(message: string) returns (intent: Intent)
    ensures intent == WeightedIntent(Normalize(message))
  {
    var normalized := Normalize(message);
    var scores := ScoreEntries(normalized, WeightedKeywords);
    assert scores == Scores(normalized);
    var best := BestIndex(scores);
    intent := if scores[best] > 0 then WeightedKeywords[best].0 else Default;
  }

  /** The fallback gives `default` exactly when no keyword of any entry occurs. */
  lemma WeightedDefaultIff(n: string)
    ensures WeightedIntent(n) == Default
      <==> forall k, i :: 0 <= k < |WeightedKeywords| && 0 <= i < |WeightedKeywords[k].1| ==> !Contains(n, WeightedKeywords[k].1[i])
  {
    var scores := Scores(n);
    var b := BestIndex(scores);
    assert WeightedKeywords[0].0 == Github && WeightedKeywords[1].0 == Linkedin && WeightedKeywords[2].0 == Education;
    forall k | 0 <= k < |WeightedKeywords| {
      ScoreZeroIff(n, WeightedKeywords[k].1);
    }
    if WeightedIntent(n) == Default {
      assert scores[b] == 0;
    }
  }

  /** Entry `k` has a positive score, no entry scores more, and every earlier entry scores less. */
  predicate IsFirstTop(n: string, k: int) {
    && 0 <= k < |WeightedKeywords|
    && Score(n, WeightedKeywords[k].1) > 0
    && (forall j :: 0 <= j < |WeightedKeywords| ==> Score(n, WeightedKeywords[j].1) <= Score(n, WeightedKeywords[k].1))
    && (forall j :: 0 <= j < k ==> Score(n, WeightedKeywords[j].1) < Score(n, WeightedKeywords[k].1))
  }

  /**
   * Otherwise the answer is the entry with the highest score, and when several share
   * it, the earliest of them in the table.
   */
  lemma WeightedIsFirstTop(n: string)
    requires WeightedIntent(n) != Default
    ensures exists k :: IsFirstTop(n, k) && WeightedKeywords[k].0 == WeightedIntent(n)
  {
    var scores := Scores(n);
    var b := BestIndex(scores);
    assert IsFirstTop(n, b);
  }

  /** A list with exactly one occurring keyword, at `i`, scores one point. */
  lemma {:induction false} ScoreOneHit(n: string, words: seq<string>, i: nat)
    requires i < |words| && Contains(n, words[i])
    requires forall j :: 0 <= j < |words| && j != i ==> !Contains(n, words[j])
    ensures Score(n, words) == 1
  {
    if i == 0 {
      ScoreZeroIff(n, words[1..]);
    } else {
      ScoreOneHit(n, words[1..], i - 1);
    }
  }

  /**
   * A message whose only keyword is "profile" scores one point for both `linkedin`
   * and `education`; the tie goes to `linkedin`, the earlier entry.
   */
  lemma ProfileTieIsLinkedin(n: string)
    requires Contains(n, "profile")
    requires forall k, i ::
               0 <= k < |WeightedKeywords| && 0 <= i < |WeightedKeywords[k].1| && WeightedKeywords[k].1[i] != "profile"
               ==> !Contains(n, WeightedKeywords[k].1[i])
    ensures WeightedIntent(n) == Linkedin
  {
    ScoreZeroIff(n, WeightedKeywords[0].1);
    ScoreOneHit(n, WeightedKeywords[1].1, 3);
    ScoreOneHit(n, WeightedKeywords[2].1, 4);
    assert Scores(n) == [0, 1, 1];
  }
}
