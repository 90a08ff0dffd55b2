/**
 * `classifyIntent` (server.js): the first intent of the table with a rule that fires
 * on the normalized message or on the trimmed original; failing that, the "profile"
 * override; failing that, `default`.
 */
module Classifier {
  import opened Wrappers
  import opened Text
  import opened Normalizer
  import opened Intents

  /** Some rule of `rules` fires on the normalized text `n` or on the original `o`. */
  predicate AnyRuleFires(rules: seq<Rule>, n: string, o: string, oracle: Oracle) {
    if rules == [] then false
    else Fires(rules[0], n, oracle) || Fires(rules[0], o, oracle) || AnyRuleFires(rules[1..], n, o, oracle)
  }

  lemma {:induction false} AnyRuleFiresIff(rules: seq<Rule>, n: string, o: string, oracle: Oracle)
    ensures AnyRuleFires(rules, n, o, oracle)
      <==> exists j :: 0 <= j < |rules| && (Fires(rules[j], n, oracle) || Fires(rules[j], o, oracle))
  {
    if rules != [] {
      AnyRuleFiresIff(rules[1..], n, o, oracle);
      if AnyRuleFires(rules[1..], n, o, oracle) {
        var j :| 0 <= j < |rules[1..]| && (Fires(rules[1..][j], n, oracle) || Fires(rules[1..][j], o, oracle));
        assert rules[j + 1] == rules[1..][j];
      }
      if exists j :: 0 <= j < |rules| && (Fires(rules[j], n, oracle) || Fires(rules[j], o, oracle)) {
        var j :| 0 <= j < |rules| && (Fires(rules[j], n, oracle) || Fires(rules[j], o, oracle));
        if j > 0 {
          assert rules[1..][j - 1] == rules[j];
        }
      }
    }
  }

  /** One firing rule is enough. */
  lemma AnyRuleFiresAt(rules: seq<Rule>, j: nat, n: string, o: string, oracle: Oracle)
    requires j < |rules| && Fires(rules[j], n, oracle)
    ensures AnyRuleFires(rules, n, o, oracle)
  {
    AnyRuleFiresIff(rules, n, o, oracle);
  }

  /** The intent of the first entry of `table` with a firing rule. */
  function FirstFiring(table: seq<(Intent, seq<Rule>)>, n: string, o: string, oracle: Oracle): Option<Intent> {
    if table == [] then None
    else if AnyRuleFires(table[0].1, n, o, oracle) then Some(table[0].0)
    else FirstFiring(table[1..], n, o, oracle)
  }

  /** The entry at `k` is the first entry of `table` with a firing rule. */
  predicate FirstWithFiring(table: seq<(Intent, seq<Rule>)>, n: string, o: string, oracle: Oracle, k: int) {
    && 0 <= k < |table|
    && AnyRuleFires(table[k].1, n, o, oracle)
    && forall j :: 0 <= j < k ==> !AnyRuleFires(table[j].1, n, o, oracle)
  }

  /** The entry at `k` decides when it is the first one with a firing rule. */
  lemma {:induction false} FirstFiringIsFirst(table: seq<(Intent, seq<Rule>)>, n: string, o: string, oracle: Oracle, k: nat)
    requires FirstWithFiring(table, n, o, oracle, k)
    ensures FirstFiring(table, n, o, oracle) == Some(table[k].0)
  {
    if k > 0 {
      assert !AnyRuleFires(table[0].1, n, o, oracle);
      forall j | 0 <= j < k - 1 ensures !AnyRuleFires(table[1..][j].1, n, o, oracle) {
        assert table[1..][j] == table[j + 1];
      }
      FirstFiringIsFirst(table[1..], n, o, oracle, k - 1);
    }
  }

  /** Whatever `FirstFiring` returns comes from the first entry with a firing rule. */
  lemma {:induction false} FirstFiringSome(table: seq<(Intent, seq<Rule>)>, n: string, o: string, oracle: Oracle)
    requires FirstFiring(table, n, o, oracle).Some?
    ensures exists k :: FirstWithFiring(table, n, o, oracle, k) && table[k].0 == FirstFiring(table, n, o, oracle).value
  {
    if !AnyRuleFires(table[0].1, n, o, oracle) {
      FirstFiringSome(table[1..], n, o, oracle);
      var k :| FirstWithFiring(table[1..], n, o, oracle, k) && table[1..][k].0 == FirstFiring(table[1..], n, o, oracle).value;
      assert table[k + 1] == table[1..][k];
      forall j | 0 <= j < k + 1 ensures !AnyRuleFires(table[j].1, n, o, oracle) {
        if j > 0 {
          assert table[j] == table[1..][j - 1];
        }
      }
    }
  }

  /** `FirstFiring` finds nothing exactly when no entry has a firing rule. */
  lemma {:induction false} FirstFiringNone(table: seq<(Intent, seq<Rule>)>, n: string, o: string, oracle: Oracle)
    ensures FirstFiring(table, n, o, oracle).None?
      <==> forall k :: 0 <= k < |table| ==> !AnyRuleFires(table[k].1, n, o, oracle)
  {
    if table != [] {
      FirstFiringNone(table[1..], n, o, oracle);
      if FirstFiring(table, n, o, oracle).None? {
        forall k | 0 <= k < |table| ensures !AnyRuleFires(table[k].1, n, o, oracle) {
          if k > 0 {
            assert table[k] == table[1..][k - 1];
          }
        }
      } else if !AnyRuleFires(table[0].1, n, o, oracle) {
        var k :| 0 <= k < |table[1..]| && AnyRuleFires(table[1..][k].1, n, o, oracle);
        assert table[k + 1] == table[1..][k];
      }
    }
  }

  /** An entry with a firing rule means `FirstFiring` stops at it or at an earlier entry. */
  lemma FirstFiringAtOrBefore(table: seq<(Intent, seq<Rule>)>, n: string, o: string, oracle: Oracle, k: nat)
    requires k < |table| && AnyRuleFires(table[k].1, n, o, oracle)
    ensures exists m :: 0 <= m <= k && FirstFiring(table, n, o, oracle) == Some(table[m].0)
  {
    FirstFiringNone(table, n, o, oracle);
    FirstFiringSome(table, n, o, oracle);
    var m :| FirstWithFiring(table, n, o, oracle, m) && table[m].0 == FirstFiring(table, n, o, oracle).value;
    assert m <= k;
  }

  /**
   * The context override for "profile" (server.js lines 413-420), reached when no
   * rule fired: github, then leetcode or "leet code", then linkedin, then medium or
   * blog; otherwise `default`.
   */
  function ProfileOverride(n: string): Intent {
    if ContainsIgnoreCase(n, "profile") then
      if ContainsIgnoreCase(n, "github") then Github
      else if ContainsIgnoreCase(n, "leetcode") || ContainsIgnoreCase(n, "leet code") then Leetcode
      else if ContainsIgnoreCase(n, "linkedin") then Linkedin
      else if ContainsIgnoreCase(n, "medium") || ContainsIgnoreCase(n, "blog") then Blogs
      else Default
    else Default
  }

  /** The intent `classifyIntent` returns for a message. */
  function Classification(message: string, oracle: Oracle): Intent {
    match FirstFiring(INTENTS, Normalize(message), Trim(message), oracle)
    case Some(i) => i
    case None => ProfileOverride(Normalize(message))
  }

  /** The inner loop of `classifyIntent`: whether a rule of one entry fires on either text. */
  method AnyFires(rules: seq<Rule>, normalized: string, original: string, oracle: Oracle) returns (fired: bool)
    ensures fired == AnyRuleFires(rules, normalized, original, oracle)
  {
    var j := 0;
    while j < |rules|
      invariant 0 <= j <= |rules|
      invariant AnyRuleFires(rules, normalized, original, oracle) == AnyRuleFires(rules[j..], normalized, original, oracle)
    {
      if Fires(rules[j], normalized, oracle) || Fires(rules[j], original, oracle) {
        return true;
      }
      assert rules[j..][1..] == rules[j + 1..];
      j := j + 1;
    }
    return false;
  }

  /**
   * The outer loop of `classifyIntent`: the entries of `table` in order, stopping at
   * the first one with a firing rule.
   */
  method ScanTable(table: seq<(Intent, seq<Rule>)>, normalized: string, original: string, oracle: Oracle)
    returns (found: Option<Intent>)
    ensures found == FirstFiring(table, normalized, original, oracle)
  {
    var i := 0;
    while i < |table|
      invariant 0 <= i <= |table|
      invariant FirstFiring(table, normalized, original, oracle) == FirstFiring(table[i..], normalized, original, oracle)
    {
      var fired := AnyFires(table[i].1, normalized, original, oracle);
      if fired {
        return Some(table[i].0);
      }
      assert table[i..][1..] == table[i + 1..];
      i := i + 1;
    }
    return None;
  }

  /**
   * `classifyIntent`: the nested loops over the table with an early return, then the
   * profile override. The `detectedIntents` checks after the loops are left out,
   * since that list is never filled and both checks are always false.
   */
  method ClassifyIntent(message: string, oracle: Oracle) returns (intent: Intent)
    ensures intent == Classification(message, oracle)
  {
    var normalized := Normalize(message);
    var original := Trim(message);
    var found := ScanTable(INTENTS, normalized, original, oracle);
    match found
    case Some(i) =>
      intent := i;
    case None =>
      intent := ProfileOverride(normalized);
  }

  // ----- Consequences of the table order -----

  /** A message that starts with a greeting word is a greeting, whatever follows. */
  lemma GreetingWins(message: string, oracle: Oracle)
    requires GreetingFires(Normalize(message)) || GreetingFires(Trim(message))
    ensures Classification(message, oracle) == Greeting
  {
    var n, o := Normalize(message), Trim(message);
    assert INTENTS[0].1[0].model.GreetingPrefix?;
    assert AnyRuleFires(INTENTS[0].1, n, o, oracle);
    FirstFiringIsFirst(INTENTS, n, o, oracle, 0);
  }

  lemma HelloIsGreeting(oracle: Oracle)
    ensures Classification("Hello", oracle) == Greeting
  {
    TrimNoop("Hello");
    assert LitAt("Hello", 0, GreetingWords[1]) && WordBoundary("Hello", |GreetingWords[1]|);
    StartsWithWordIff("Hello", GreetingWords);
    GreetingWins("Hello", oracle);
  }

  /** The background rule matches a whole word "profile" with no platform name after it on its line. */
  lemma BackgroundOnProfileWord(t: string, q: nat)
    requires LitAt(t, q, "profile") && WordBoundary(t, q) && WordBoundary(t, q + 7)
    requires !PlatformAhead(t, q + 7)
    ensures BackgroundFires(t)
  {
    WordThenNoPlatformAt(t, q, Subjects, 3);
    SubjectAtSomeAt(t, SubjectStarts(t, q), q);
    assert BackgroundMatchAt(t, q);
    BackgroundFiresAt(t, q);
  }

  /** The education entry, third in the table, has a rule that fires on such a word. */
  lemma EducationFiresOnProfileWord(n: string, o: string, oracle: Oracle, q: nat)
    requires LitAt(n, q, "profile") && WordBoundary(n, q) && WordBoundary(n, q + 7)
    requires !PlatformAhead(n, q + 7)
    ensures INTENTS[2].0 == Education && AnyRuleFires(INTENTS[2].1, n, o, oracle)
  {
    BackgroundOnProfileWord(n, q);
    var r := Rule(67, "", BackgroundWord);
    assert Fires(r, n, oracle);
    assert EducationRules[6] == r;
    AnyRuleFiresAt(EducationRules, 6, n, o, oracle);
    TableHead();
  }

  /** The first three entries of the table: greeting, `about_bot`, education. */
  lemma TableHead()
    ensures |INTENTS| == 35
    ensures INTENTS[0] == (Greeting, GreetingRules)
    ensures INTENTS[1] == (AboutBot, AboutBotRules)
    ensures INTENTS[2] == (Education, EducationRules)
  {
  }

  /** When the first two entries have no firing rule and the third has one, the third decides. */
  lemma ThirdDecides(table: seq<(Intent, seq<Rule>)>, n: string, o: string, oracle: Oracle)
    requires |table| >= 3
    requires !AnyRuleFires(table[0].1, n, o, oracle) && !AnyRuleFires(table[1].1, n, o, oracle)
    requires AnyRuleFires(table[2].1, n, o, oracle)
    ensures FirstFiring(table, n, o, oracle) == Some(table[2].0)
  {
    FirstFiringIsFirst(table, n, o, oracle, 2);
  }

  /** A firing rule in the third entry stops the scan there at the latest. */
  lemma ThirdBounds(table: seq<(Intent, seq<Rule>)>, n: string, o: string, oracle: Oracle)
    requires |table| >= 3 && AnyRuleFires(table[2].1, n, o, oracle)
    ensures FirstFiring(table, n, o, oracle) in {Some(table[0].0), Some(table[1].0), Some(table[2].0)}
  {
    FirstFiringAtOrBefore(table, n, o, oracle, 2);
  }

  /**
   * A normalized message with the word "profile" and no platform name after it on its
   * line is classified `education` unless a greeting or `about_bot` rule fires first:
   * the later `github`, `linkedin`, `leetcode` and `blogs` entries and the profile
   * override are never reached.
   */
  lemma ProfileWordIsEducationOrEarlier(message: string, oracle: Oracle, q: nat)
    requires LitAt(Normalize(message), q, "profile")
    requires WordBoundary(Normalize(message), q) && WordBoundary(Normalize(message), q + 7)
    requires !PlatformAhead(Normalize(message), q + 7)
    ensures Classification(message, oracle) in {Greeting, AboutBot, Education}
  {
    var n, o := Normalize(message), Trim(message);
    EducationFiresOnProfileWord(n, o, oracle, q);
    TableHead();
    ThirdBounds(INTENTS, n, o, oracle);
  }

  /** Rules that respect their anchors stay silent on texts lacking every anchor. */
  lemma {:induction false} AnchorsAbsent(rules: seq<Rule>, n: string, o: string, oracle: Oracle)
    requires forall j :: 0 <= j < |rules| ==> RespectsAnchor(oracle, rules[j])
    requires forall j :: 0 <= j < |rules| ==> !ContainsIgnoreCase(n, rules[j].anchor) && !ContainsIgnoreCase(o, rules[j].anchor)
    ensures !AnyRuleFires(rules, n, o, oracle)
  {
    if rules != [] {
      assert RespectsAnchor(oracle, rules[0]);
      AnchorsAbsent(rules[1..], n, o, oracle);
    }
  }

  /** Whether one of the anchors of `rules` occurs in `t`, ignoring case. */
  predicate MentionsAnchor(t: string, rules: seq<Rule>) {
    exists j :: 0 <= j < |rules| && ContainsIgnoreCase(t, rules[j].anchor)
  }

  /**
   * With an engine that respects the anchors, a message whose texts start with no
   * greeting word and contain none of the `about_bot` anchors ("jinbo", "who ", "what ",
   * "how does this chatbot work", "built") is classified `education` as soon as it
   * holds the word "profile" with no platform after it: "show me his github profile"
   * is an `education` question, not a `github` one.
   */
  lemma ProfileWordIsEducation(message: string, oracle: Oracle, q: nat)
    requires RespectsAnchors(oracle)
    requires !GreetingFires(Normalize(message)) && !GreetingFires(Trim(message))
    requires !MentionsAnchor(Normalize(message), AboutBotRules) && !MentionsAnchor(Trim(message), AboutBotRules)
    requires LitAt(Normalize(message), q, "profile")
    requires WordBoundary(Normalize(message), q) && WordBoundary(Normalize(message), q + 7)
    requires !PlatformAhead(Normalize(message), q + 7)
    ensures Classification(message, oracle) == Education
  {
    var n, o := Normalize(message), Trim(message);
    TableHead();
    assert !AnyRuleFires(INTENTS[0].1, n, o, oracle) by {
      assert GreetingRules[0].model.GreetingPrefix?;
    }
    forall j | 0 <= j < |AboutBotRules| ensures RespectsAnchor(oracle, AboutBotRules[j]) {
      assert RespectsAnchor(oracle, INTENTS[1].1[j]);
    }
    AnchorsAbsent(AboutBotRules, n, o, oracle);
    EducationFiresOnProfileWord(n, o, oracle, q);
    ThirdDecides(INTENTS, n, o, oracle);
  }

  /**
   * The profile override is reached only when every whole word "profile" in the
   * normalized message is followed, on its line, by github, linkedin, leetcode or
   * medium: otherwise the background rule of `education` would have fired.
   */
  lemma OverrideNeedsPlatformAfterProfile(message: string, oracle: Oracle, q: nat)
    requires FirstFiring(INTENTS, Normalize(message), Trim(message), oracle).None?
    requires LitAt(Normalize(message), q, "profile")
    requires WordBoundary(Normalize(message), q) && WordBoundary(Normalize(message), q + 7)
    ensures PlatformAhead(Normalize(message), q + 7)
  {
    if !PlatformAhead(Normalize(message), q + 7) {
      ProfileWordStopsScan(Normalize(message), Trim(message), oracle, q);
      assert false;
    }
  }

  /** A whole word "profile" with no platform after it stops the scan of the table. */
  lemma ProfileWordStopsScan(n: string, o: string, oracle: Oracle, q: nat)
    requires LitAt(n, q, "profile")
    requires WordBoundary(n, q) && WordBoundary(n, q + 7)
    requires !PlatformAhead(n, q + 7)
    ensures FirstFiring(INTENTS, n, o, oracle).Some?
  {
    EducationFiresOnProfileWord(n, o, oracle, q);
    FirstFiringNone(INTENTS, n, o, oracle);
  }
}
