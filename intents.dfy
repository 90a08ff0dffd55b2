/**
 * The intents of the chat server and its ordered `INTENTS` table (server.js): each
 * intent with the case-insensitive regular expressions that select it, in the
 * order the classifier tries them.
 */
module Intents {
  import opened Text

  /** The intent names the classifier and the response generator know. */
  datatype Intent =
    | Greeting | AboutBot | Education | College | Degree | Schooling | Cgpa
    | AboutCreator | TechStack | Skills | Projects | Github | Leetcode | Blogs
    | Linkedin | Contact | JobSeeking | Resume | Location | PortfolioTech
    | SourceCode | FavoriteFrameworks | Collaboration | LearningFirst
    | BuildPortfolio | Resources | Mentoring | Freelance | Experience | Pricing
    | WhyDeveloper | LearningJourney | OpenSource | PersonalInfo | Inappropriate
    | ClientWork | Default

  /** The intent's name as the server writes it. */
  function Name(i: Intent): string {
    match i
    case Greeting => "greeting"
    case AboutBot => "about_bot"
    case Education => "education"
    case College => "college"
    case Degree => "degree"
    case Schooling => "schooling"
    case Cgpa => "cgpa"
    case AboutCreator => "about_creator"
    case TechStack => "tech_stack"
    case Skills => "skills"
    case Projects => "projects"
    case Github => "github"
    case Leetcode => "leetcode"
    case Blogs => "blogs"
    case Linkedin => "linkedin"
    case Contact => "contact"
    case JobSeeking => "job_seeking"
    case Resume => "resume"
    case Location => "location"
    case PortfolioTech => "portfolio_tech"
    case SourceCode => "source_code"
    case FavoriteFrameworks => "favorite_frameworks"
    case Collaboration => "collaboration"
    case LearningFirst => "learning_first"
    case BuildPortfolio => "build_portfolio"
    case Resources => "resources"
    case Mentoring => "mentoring"
    case Freelance => "freelance"
    case Experience => "experience"
    case Pricing => "pricing"
    case WhyDeveloper => "why_developer"
    case LearningJourney => "learning_journey"
    case OpenSource => "open_source"
    case PersonalInfo => "personal_info"
    case Inappropriate => "inappropriate"
    case ClientWork => "client_work"
    case Default => "default"
  }

  /**
   * How a rule is decided: by the regular-expression engine (an input to the model),
   * or by one of the two rules this model spells out.
   */
  datatype RuleModel = ByOracle | GreetingPrefix | BackgroundWord

  /**
   * One regular expression of the table, named by the server.js line it is written on
   * (its text is `Pattern(line)`; all carry the `i` flag and none the `g` flag), with a
   * lower-case literal that every text it matches contains, ignoring ASCII case (""
   * where the expression has no such literal).
   */
  datatype Rule = Rule(line: nat, anchor: string, model: RuleModel)

  /**
   * Whether the regular expression on a line of the table matches a text: the
   * regular-expression engine, given to the model as a parameter.
   */
  type Oracle = (nat, string) -> bool

  /** The lower-case literal `w` occurs at index `i` of `t`, ignoring ASCII case. */
  predicate LitAt(t: string, i: int, w: string) {
    0 <= i && i + |w| <= |t| && Lower(t[i..i + |w|]) == w
  }

  // ----- The greeting rule -----

  const GreetingWords: seq<string> :=
    ["hi", "hello", "hey", "hola", "namaste", "greetings", "good morning",
     "good evening", "sup", "yo", "wassup"]

  /** The text starts with one of the words `ws`, followed by `\b`. */
  predicate StartsWithWord(t: string, ws: seq<string>) {
    ws != [] && ((LitAt(t, 0, ws[0]) && WordBoundary(t, |ws[0]|)) || StartsWithWord(t, ws[1..]))
  }

  lemma {:induction false} StartsWithWordIff(t: string, ws: seq<string>)
    ensures StartsWithWord(t, ws) <==> exists k :: 0 <= k < |ws| && LitAt(t, 0, ws[k]) && WordBoundary(t, |ws[k]|)
  {
    if ws != [] {
      StartsWithWordIff(t, ws[1..]);
      if exists k :: 0 <= k < |ws| && LitAt(t, 0, ws[k]) && WordBoundary(t, |ws[k]|) {
        var k :| 0 <= k < |ws| && LitAt(t, 0, ws[k]) && WordBoundary(t, |ws[k]|);
        if k > 0 {
          assert ws[1..][k - 1] == ws[k];
        }
      }
      if StartsWithWord(t, ws[1..]) {
        var k :| 0 <= k < |ws[1..]| && LitAt(t, 0, ws[1..][k]) && WordBoundary(t, |ws[1..][k]|);
        assert ws[k + 1] == ws[1..][k];
      }
    }
  }

  /** `^(hi|hello|hey|hola|namaste|greetings|good morning|good evening|sup|yo|wassup)\b`. */
  predicate GreetingFires(t: string) {
    StartsWithWord(t, GreetingWords)
  }

  // ----- The background rule -----

  const Possessives: seq<string> := ["his", "your", "the"]
  const Qualifiers: seq<string> := ["educational", "academic"]
  const Subjects: seq<string> := ["background", "history", "record", "profile"]
  const Platforms: seq<string> := ["github", "linkedin", "leetcode", "medium"]

  /**
   * The positions an optional group `(a|b|…)?` can reach from `i`: `i` itself, and
   * the end of every alternative that occurs at `i`.
   */
  function Steps(t: string, i: nat, alts: seq<string>): (r: seq<nat>)
    requires i <= |t|
    ensures i in r
    ensures forall j :: j in r ==> i <= j <= |t|
  {
    if alts == [] then [i]
    else (if LitAt(t, i, alts[0]) then [i + |alts[0]|] else []) + Steps(t, i, alts[1..])
  }

  /** The positions the optional group can reach from any of the positions `from`. */
  function StepsAll(t: string, from: seq<nat>, alts: seq<string>): (r: seq<nat>)
    requires forall i :: i in from ==> i <= |t|
    ensures forall j :: j in r ==> j <= |t|
    ensures forall i :: i in from ==> i in r
  {
    if from == [] then []
    else
      assert from[0] in from;
      assert forall i :: i in from[1..] ==> i in from;
      var r := Steps(t, from[0], alts) + StepsAll(t, from[1..], alts);
      assert forall i :: i in from ==> i == from[0] || i in from[1..];
      r
  }

  /**
   * Where `(background|history|record|profile)` may start when the match starts at
   * `p`: after each choice of `(his|your|the)? ?(educational|academic)? ?`.
   */
  function SubjectStarts(t: string, p: nat): (r: seq<nat>)
    requires p <= |t|
    ensures forall q :: q in r ==> q <= |t|
    ensures p in r
  {
    StepsAll(t, StepsAll(t, StepsAll(t, Steps(t, p, Possessives), [" "]), Qualifiers), [" "])
  }

  /** Some lower-case word of `ws` occurs in `s`, ignoring ASCII case. */
  predicate MentionsAny(s: string, ws: seq<string>) {
    ws != [] && (ContainsIgnoreCase(s, ws[0]) || MentionsAny(s, ws[1..]))
  }

  /** Nothing is mentioned in the empty text. */
  lemma {:induction false} MentionsNothingInEmpty(ws: seq<string>)
    requires forall w :: w in ws ==> w != []
    ensures !MentionsAny([], ws)
  {
    if ws != [] {
      assert ws[0] in ws;
      assert |Lower(ws[0])| > 0;
      assert forall w :: w in ws[1..] ==> w in ws;
      MentionsNothingInEmpty(ws[1..]);
    }
  }

  /** The negative lookahead `(?!.*(github|linkedin|leetcode|medium))` fails at `e`. */
  predicate PlatformAhead(t: string, e: nat)
    requires e <= |t|
  {
    MentionsAny(LineRest(t[e..]), Platforms)
  }

  /** One of the words `ws`, then `\b`, then the lookahead, matches at `q`. */
  predicate WordThenNoPlatform(t: string, q: nat, ws: seq<string>)
    requires q <= |t|
  {
    ws != [] &&
    ((LitAt(t, q, ws[0]) && WordBoundary(t, q + |ws[0]|) && !PlatformAhead(t, q + |ws[0]|))
     || WordThenNoPlatform(t, q, ws[1..]))
  }

  /** `(background|history|record|profile)\b(?!…)` matches at one of the positions `qs`. */
  predicate SubjectAtSome(t: string, qs: seq<nat>)
    requires forall q :: q in qs ==> q <= |t|
  {
    qs != [] &&
    assert qs[0] in qs && forall q :: q in qs[1..] ==> q in qs;
    (WordThenNoPlatform(t, qs[0], Subjects) || SubjectAtSome(t, qs[1..]))
  }

  /**
   * `\b(his|your|the)? ?(educational|academic)? ?(background|history|record|profile)\b(?!…)`
   * matches starting at `p`, along some choice of the optional parts.
   */
  predicate BackgroundMatchAt(t: string, p: nat)
    requires p <= |t|
  {
    WordBoundary(t, p) && SubjectAtSome(t, SubjectStarts(t, p))
  }

  /** For each start position `p` of `t`, in order, whether the expression matches there. */
  function MatchesByStart(t: string): (r: seq<bool>)
    ensures |r| == |t| + 1
  {
    seq(|t| + 1, p requires 0 <= p <= |t| => BackgroundMatchAt(t, p))
  }

  /** The background rule fires when the expression matches at some start position. */
  predicate BackgroundFires(t: string) {
    true in MatchesByStart(t)
  }

  /** A match at any position makes the rule fire. */
  lemma BackgroundFiresAt(t: string, q: nat)
    requires q <= |t| && BackgroundMatchAt(t, q)
    ensures BackgroundFires(t)
  {
    assert MatchesByStart(t)[q];
  }

  /** A subject word at one of the candidate positions is enough. */
  lemma {:induction false} SubjectAtSomeAt(t: string, qs: seq<nat>, q: nat)
    requires forall x :: x in qs ==> x <= |t|
    requires q in qs && WordThenNoPlatform(t, q, Subjects)
    ensures SubjectAtSome(t, qs)
  {
    if qs[0] != q {
      assert q in qs[1..];
      assert forall x :: x in qs[1..] ==> x in qs;
      SubjectAtSomeAt(t, qs[1..], q);
    }
  }

  /** A word of `ws` at `q` with `\b` after it and no platform ahead is enough. */
  lemma {:induction false} WordThenNoPlatformAt(t: string, q: nat, ws: seq<string>, k: nat)
    requires q <= |t| && k < |ws|
    requires LitAt(t, q, ws[k]) && WordBoundary(t, q + |ws[k]|) && !PlatformAhead(t, q + |ws[k]|)
    ensures WordThenNoPlatform(t, q, ws)
  {
    if k > 0 {
      assert ws[1..][k - 1] == ws[k];
      WordThenNoPlatformAt(t, q, ws[1..], k - 1);
    }
  }

  /** Whether `rule.test(text)` holds. */
  predicate Fires(rule: Rule, text: string, oracle: Oracle) {
    match rule.model
    case ByOracle => oracle(rule.line, text)
    case GreetingPrefix => GreetingFires(text)
    case BackgroundWord => BackgroundFires(text)
  }

  /**
   * The rule never fires on a text that lacks its anchor. For an engine-matched rule
   * this is an assumption about the engine; the two rules modelled here have the empty
   * anchor, which every text contains.
   */
  ghost predicate RespectsAnchor(oracle: Oracle, rule: Rule) {
    forall t :: Fires(rule, t, oracle) ==> ContainsIgnoreCase(t, rule.anchor)
  }

  /** The engine respects the anchor of every rule of the table. */
  ghost predicate RespectsAnchors(oracle: Oracle) {
    forall k, j :: 0 <= k < |INTENTS| && 0 <= j < |INTENTS[k].1| ==> RespectsAnchor(oracle, INTENTS[k].1[j])
  }

  /** The source text of the regular expression on a line of the table; "" for any other line. */
  function Pattern(line: nat): string {
    match line
    case 35 => "^(hi|hello|hey|hola|namaste|greetings|good morning|good evening|sup|yo|wassup)\\b"
    case 38 => "\\b(who|what|tell me about|introduce) (is |are )?jinbo\\b"
    case 39 => "\\bwho (are|r) (you|u)\\b"
    case 40 => "\\bwhat (are|r) (you|u)\\b"
    case 41 => "\\bjinbo\\b"
    case 42 => "\\bhow does this chatbot work"
    case 43 => "\\bhow (was|is) this (chatbot |bot )?built"
    case 49 => "\\b(prateesh|prateesh['\U{2019}]s) (education|educational|qualification(s)?|degree|academic|academic background|stud(y|ies))\\b"
    case 52 => "\\b(what|tell me|share|show|give|describe|say|talk about) .* (prateesh|he|he['\U{2019}]s|his|you|your) .* (education(al)?( qualification(s)?)?|qualification(s)?|degree(s)?|study|studies|college|school|academic( background)?|major|course|field|graduation|alma mater)\\b"
    case 55 => "\\b(education|educational background|qualification(s)?|academic background|academic record|academic history|stud(y|ies)|college|school|degree(s)?|course|field of study|major|alma mater)\\b"
    case 58 => "\\bwhere (did|do|does|has) (you|he|prateesh) (study|go to (college|school)|graduate|complete (his|your)? (degree|education))\\b"
    case 61 => "\\b(what|which|when) .* (degree|qualification(s)?|education|course|field|major|college|school|university)\\b"
    case 64 => "\\b(tell me|show|share|give|say|talk) (me )?(about )?(his|your|the|prateesh['\U{2019}]s)? (education|college|school|stud(y|ies)|academic background|qualifications?)\\b"
    case 67 => "\\b(his|your|the)? ?(educational|academic)? ?(background|history|record|profile)\\b(?!.*(github|linkedin|leetcode|medium))"
    case 70 => "\\b(did|have|has|was|were|is|are|what|where|which) .* (graduate|graduation|course|major|field of study|specialization|subject|stream)\\b"
    case 73 => "\\b(highest|current|level of) (education|qualification|degree|study|academic background)\\b"
    case 76 => "\\b(study|degree|education|college|school|graduation|qualification)\\?$"
    case 80 => "\\bprateesh'?s? college\\b"
    case 81 => "\\b(which |what |your |his )?college (did |does )?.*attend\\b"
    case 82 => "\\b(which |what |your |his )?college\\b"
    case 83 => "\\b(which |what |your |his )?university\\b"
    case 84 => "\\bwhere .* graduate\\b"
    case 85 => "\\bengineering college\\b"
    case 89 => "\\bprateesh'?s? degree\\b"
    case 90 => "\\b(what |which )?degree (does |did)?.*have\\b"
    case 91 => "\\b(what |which )?degree\\b"
    case 92 => "\\bb\\.?e\\.?\\b"
    case 93 => "\\bbachelor\\b"
    case 94 => "\\bcomputer science (degree|engineering)\\b"
    case 98 => "\\bprateesh'?s? school\\b"
    case 99 => "\\b(school|10th|12th|sslc|p\\.?u\\.?)\\b"
    case 100 => "\\bhigh school\\b"
    case 101 => "\\bsecondary\\b"
    case 102 => "\\bpre.?university\\b"
    case 106 => "\\bprateesh'?s? (cgpa|gpa|marks|score)\\b"
    case 107 => "\\b(what |your |his )?(cgpa|gpa|grade|marks|percentage|score)\\b"
    case 108 => "\\bhow much .* (score|marks)\\b"
    case 109 => "\\bacademic (performance|record)\\b"
    case 114 => "\\b(who|what|tell me about|introduce) (is )?prateesh(?! .*(education|qualification|degree|college|school|study))\\b"
    case 115 => "\\babout prateesh(?! .*(education|qualification|degree))\\b"
    case 116 => "\\bprateesh sulikeri\\b"
    case 117 => "\\bwho (is )?he\\b"
    case 118 => "\\b(your|his) background(?! .*(education|academic))\\b"
    case 119 => "\\bprateesh'?s? (story|journey|bio)\\b"
    case 123 => "\\b(what |show |tell me )?(are )?(his |your |the )?(technologies?|tech stack)\\b"
    case 124 => "\\bwhat (technologies|tech) (do|does) (you|he|prateesh) (work with|use|know)\\b"
    case 125 => "\\bdo you have experience with (aws|react|python|angular|node)"
    case 126 => "\\bexperience with (aws|react|python|angular|java|spring)"
    case 130 => "\\b(what |show |tell me )?(are )?(his |your |the )?skills?\\b"
    case 131 => "\\bwhat (can|does) (he|prateesh|you) (do|know)\\b"
    case 132 => "\\b(his |your |the )?expertise\\b"
    case 133 => "\\bprogramming languages?\\b"
    case 137 => "\\b(show|tell|what|list|see) .*(projects?|portfolio|work)\\b"
    case 138 => "\\blatest projects?\\b"
    case 139 => "\\bwhat (did|has) (he|prateesh|you) (built?|created?|made?)\\b"
    case 143 => "\\b(github|git hub|repositories|repos?)\\b"
    case 144 => "\\b(show|what|tell) .* (github|code|repositories?)\\b"
    case 145 => "github(?:\\.com| profile| account| username| repo| repos?| stats?)"
    case 149 => "\\b(leetcode|leet code|coding problems?|dsa|algorithms?)\\b"
    case 150 => "(?:leetcode|leet code)(?: profile| account| stats?| problems?| username)?"
    case 151 => "\\bproblems? solved\\b"
    case 155 => "\\b(blog|medium|article|writing|post)s?\\b"
    case 156 => "\\b(does he |do you )?write\\b"
    case 157 => "\\blatest (blog|article|post)\\b"
    case 158 => "(?:medium|blog)(?: profile| posts?| articles?| account)?"
    case 162 => "\\blinkedin\\b"
    case 163 => "(?:linkedin|linkedin\\.com)(?: profile| connect| network| account)?"
    case 164 => "\\bconnect (on )?linkedin\\b"
    case 168 => "\\b(contact|email|reach|get in touch|message)\\b"
    case 169 => "\\bhow (to|can i) (contact|reach|message|get in touch)\\b"
    case 173 => "\\b(looking for|open to|available for|seeking) (job|work|opportunities?)\\b"
    case 174 => "\\b(hiring|hire|job opportunities?)\\b"
    case 175 => "\\bare you (looking|open|available)"
    case 179 => "\\b(resume|cv|curriculum vitae)\\b"
    case 180 => "\\bdownload .* resume\\b"
    case 184 => "\\b(location|where .* live|timezone|current location)\\b"
    case 185 => "\\bwhere (are you|is he) (based|located)\\b"
    case 189 => "\\bwhat stack .* (use|used) .* (website|site|portfolio)\\b"
    case 190 => "\\bhow .* (host|deploy) .* portfolio\\b"
    case 194 => "\\b(is |the )?source code (public|available|open)\\b"
    case 195 => "\\bcan i see .* (source |)code\\b"
    case 199 => "\\bfavorite (framework|technology|tech|language)\\b"
    case 200 => "\\bpreferred (framework|stack)\\b"
    case 204 => "\\b(collaborate|work together|partnership|team up)\\b"
    case 205 => "\\bcan i (collaborate|work) with\\b"
    case 209 => "\\bwhich (language|programming language) .* (learn first|start with|begin)\\b"
    case 210 => "\\bfirst (language|programming language)\\b"
    case 214 => "\\bhow (can i|to|do i) build .* portfolio\\b"
    case 215 => "\\bcreate .* portfolio\\b"
    case 219 => "\\b(what |which |any )?resources .* recommend\\b"
    case 220 => "\\brecommend .* (resources|courses|tutorials)\\b"
    case 221 => "\\bwhere .* learn\\b"
    case 225 => "\\bdo you (mentor|teach)\\b"
    case 226 => "\\bmentorship\\b"
    case 227 => "\\bcan you (help|guide|teach) me\\b"
    case 231 => "\\b(freelance|hire|services)\\b"
    case 232 => "\\bdo you take .* (freelance|projects?)\\b"
    case 233 => "\\bavailable for (work|hire)\\b"
    case 237 => "\\bhow many years .* experience\\b"
    case 238 => "\\byears of experience\\b"
    case 239 => "\\bexperience with .* (web|ai|automation|apps?)\\b"
    case 243 => "\\b(hourly rate|pricing|rates?|cost|how much)\\b"
    case 244 => "\\bwhat .* (charge|cost)\\b"
    case 248 => "\\bwhy .* (become|became) .* developer\\b"
    case 249 => "\\bwhy (programming|coding|development)\\b"
    case 253 => "\\bhow did you (start|begin|learn) .* (programming|coding)\\b"
    case 254 => "\\blearning journey\\b"
    case 255 => "\\bhow .* become .* developer\\b"
    case 259 => "\\bopen source (contribution|repos?|projects?)\\b"
    case 260 => "\\bcontribute to .* repos?\\b"
    case 264 => "\\b(age|gender|pronouns?)\\b"
    case 265 => "\\bhow old\\b"
    case 266 => "\\bwhat'?s .* age\\b"
    case 270 => "\\bhack .* for me\\b"
    case 271 => "\\bdo .* homework\\b"
    case 272 => "\\b(date|marry|girlfriend|boyfriend)\\b"
    case 273 => "\\bapi key\\b"
    case 274 => "\\bpassword\\b"
    case 275 => "\\bbank (details|account)\\b"
    case _ => ""
  }

  /** `greeting` (server.js line 35). */
  const GreetingRules: seq<Rule> := [
    Rule(35, "", GreetingPrefix)
  ]

  /** `about_bot` (server.js lines 37-44). */
  const AboutBotRules: seq<Rule> := [
    Rule(38, "jinbo", ByOracle),
    Rule(39, "who ", ByOracle),
    Rule(40, "what ", ByOracle),
    Rule(41, "jinbo", ByOracle),
    Rule(42, "how does this chatbot work", ByOracle),
    Rule(43, "built", ByOracle)
  ]

  /** `education` (server.js lines 47-77). */
  const EducationRules: seq<Rule> := [
    Rule(49, "prateesh", ByOracle),
    Rule(52, "", ByOracle),
    Rule(55, "", ByOracle),
    Rule(58, "where ", ByOracle),
    Rule(61, "", ByOracle),
    Rule(64, "", ByOracle),
    Rule(67, "", BackgroundWord),
    Rule(70, "", ByOracle),
    Rule(73, "", ByOracle),
    Rule(76, "?", ByOracle)
  ]

  /** `college` (server.js lines 79-86). */
  const CollegeRules: seq<Rule> := [
    Rule(80, "college", ByOracle),
    Rule(81, "attend", ByOracle),
    Rule(82, "college", ByOracle),
    Rule(83, "university", ByOracle),
    Rule(84, "graduate", ByOracle),
    Rule(85, "engineering college", ByOracle)
  ]

  /** `degree` (server.js lines 88-95). */
  const DegreeRules: seq<Rule> := [
    Rule(89, "degree", ByOracle),
    Rule(90, "have", ByOracle),
    Rule(91, "degree", ByOracle),
    Rule(92, "", ByOracle),
    Rule(93, "bachelor", ByOracle),
    Rule(94, "computer science ", ByOracle)
  ]

  /** `schooling` (server.js lines 97-103). */
  const SchoolingRules: seq<Rule> := [
    Rule(98, "school", ByOracle),
    Rule(99, "", ByOracle),
    Rule(100, "high school", ByOracle),
    Rule(101, "secondary", ByOracle),
    Rule(102, "university", ByOracle)
  ]

  /** `cgpa` (server.js lines 105-110). */
  const CgpaRules: seq<Rule> := [
    Rule(106, "prateesh", ByOracle),
    Rule(107, "", ByOracle),
    Rule(108, "how much ", ByOracle),
    Rule(109, "academic ", ByOracle)
  ]

  /** `about_creator` (server.js lines 113-120). */
  const AboutCreatorRules: seq<Rule> := [
    Rule(114, "prateesh", ByOracle),
    Rule(115, "about prateesh", ByOracle),
    Rule(116, "prateesh sulikeri", ByOracle),
    Rule(117, "who ", ByOracle),
    Rule(118, " background", ByOracle),
    Rule(119, "prateesh", ByOracle)
  ]

  /** `tech_stack` (server.js lines 122-127). */
  const TechStackRules: seq<Rule> := [
    Rule(123, "tech", ByOracle),
    Rule(124, "what ", ByOracle),
    Rule(125, "do you have experience with ", ByOracle),
    Rule(126, "experience with ", ByOracle)
  ]

  /** `skills` (server.js lines 129-134). */
  const SkillsRules: seq<Rule> := [
    Rule(130, "skill", ByOracle),
    Rule(131, "what ", ByOracle),
    Rule(132, "expertise", ByOracle),
    Rule(133, "programming language", ByOracle)
  ]

  /** `projects` (server.js lines 136-140). */
  const ProjectsRules: seq<Rule> := [
    Rule(137, "", ByOracle),
    Rule(138, "latest project", ByOracle),
    Rule(139, "what ", ByOracle)
  ]

  /** `github` (server.js lines 142-146). */
  const GithubRules: seq<Rule> := [
    Rule(143, "", ByOracle),
    Rule(144, "", ByOracle),
    Rule(145, "github", ByOracle)
  ]

  /** `leetcode` (server.js lines 148-152). */
  const LeetcodeRules: seq<Rule> := [
    Rule(149, "", ByOracle),
    Rule(150, "leet", ByOracle),
    Rule(151, " solved", ByOracle)
  ]

  /** `blogs` (server.js lines 154-159). */
  const BlogsRules: seq<Rule> := [
    Rule(155, "", ByOracle),
    Rule(156, "write", ByOracle),
    Rule(157, "latest ", ByOracle),
    Rule(158, "", ByOracle)
  ]

  /** `linkedin` (server.js lines 161-165). */
  const LinkedinRules: seq<Rule> := [
    Rule(162, "linkedin", ByOracle),
    Rule(163, "linkedin", ByOracle),
    Rule(164, "linkedin", ByOracle)
  ]

  /** `contact` (server.js lines 167-170). */
  const ContactRules: seq<Rule> := [
    Rule(168, "", ByOracle),
    Rule(169, "how ", ByOracle)
  ]

  /** `job_seeking` (server.js lines 172-176). */
  const JobSeekingRules: seq<Rule> := [
    Rule(173, "", ByOracle),
    Rule(174, "", ByOracle),
    Rule(175, "are you ", ByOracle)
  ]

  /** `resume` (server.js lines 178-181). */
  const ResumeRules: seq<Rule> := [
    Rule(179, "", ByOracle),
    Rule(180, "download ", ByOracle)
  ]

  /** `location` (server.js lines 183-186). */
  const LocationRules: seq<Rule> := [
    Rule(184, "", ByOracle),
    Rule(185, "where ", ByOracle)
  ]

  /** `portfolio_tech` (server.js lines 188-191). */
  const PortfolioTechRules: seq<Rule> := [
    Rule(189, "what stack ", ByOracle),
    Rule(190, "portfolio", ByOracle)
  ]

  /** `source_code` (server.js lines 193-196). */
  const SourceCodeRules: seq<Rule> := [
    Rule(194, "source code ", ByOracle),
    Rule(195, "can i see ", ByOracle)
  ]

  /** `favorite_frameworks` (server.js lines 198-201). */
  const FavoriteFrameworksRules: seq<Rule> := [
    Rule(199, "favorite ", ByOracle),
    Rule(200, "preferred ", ByOracle)
  ]

  /** `collaboration` (server.js lines 203-206). */
  const CollaborationRules: seq<Rule> := [
    Rule(204, "", ByOracle),
    Rule(205, "can i ", ByOracle)
  ]

  /** `learning_first` (server.js lines 208-211). */
  const LearningFirstRules: seq<Rule> := [
    Rule(209, "which ", ByOracle),
    Rule(210, "first ", ByOracle)
  ]

  /** `build_portfolio` (server.js lines 213-216). */
  const BuildPortfolioRules: seq<Rule> := [
    Rule(214, " build ", ByOracle),
    Rule(215, "create ", ByOracle)
  ]

  /** `resources` (server.js lines 218-222). */
  const ResourcesRules: seq<Rule> := [
    Rule(219, "resources ", ByOracle),
    Rule(220, "recommend ", ByOracle),
    Rule(221, "where ", ByOracle)
  ]

  /** `mentoring` (server.js lines 224-228). */
  const MentoringRules: seq<Rule> := [
    Rule(225, "do you ", ByOracle),
    Rule(226, "mentorship", ByOracle),
    Rule(227, "can you ", ByOracle)
  ]

  /** `freelance` (server.js lines 230-234). */
  const FreelanceRules: seq<Rule> := [
    Rule(231, "", ByOracle),
    Rule(232, "do you take ", ByOracle),
    Rule(233, "available for ", ByOracle)
  ]

  /** `experience` (server.js lines 236-240). */
  const ExperienceRules: seq<Rule> := [
    Rule(237, "how many years ", ByOracle),
    Rule(238, "years of experience", ByOracle),
    Rule(239, "experience with ", ByOracle)
  ]

  /** `pricing` (server.js lines 242-245). */
  const PricingRules: seq<Rule> := [
    Rule(243, "", ByOracle),
    Rule(244, "what ", ByOracle)
  ]

  /** `why_developer` (server.js lines 247-250). */
  const WhyDeveloperRules: seq<Rule> := [
    Rule(248, "why ", ByOracle),
    Rule(249, "why ", ByOracle)
  ]

  /** `learning_journey` (server.js lines 252-256). */
  const LearningJourneyRules: seq<Rule> := [
    Rule(253, "how did you ", ByOracle),
    Rule(254, "learning journey", ByOracle),
    Rule(255, "how ", ByOracle)
  ]

  /** `open_source` (server.js lines 258-261). */
  const OpenSourceRules: seq<Rule> := [
    Rule(259, "open source ", ByOracle),
    Rule(260, "contribute to ", ByOracle)
  ]

  /** `personal_info` (server.js lines 263-267). */
  const PersonalInfoRules: seq<Rule> := [
    Rule(264, "", ByOracle),
    Rule(265, "how old", ByOracle),
    Rule(266, "what", ByOracle)
  ]

  /** `inappropriate` (server.js lines 269-276). */
  const InappropriateRules: seq<Rule> := [
    Rule(270, "hack ", ByOracle),
    Rule(271, "homework", ByOracle),
    Rule(272, "", ByOracle),
    Rule(273, "api key", ByOracle),
    Rule(274, "password", ByOracle),
    Rule(275, "bank ", ByOracle)
  ]

  /**
   * The intent table, in definition order (server.js lines 34-277): the classifier
   * tries the intents, and within an intent the rules, in this order.
   */
  const INTENTS: seq<(Intent, seq<Rule>)> := [
    (Greeting, GreetingRules),
    (AboutBot, AboutBotRules),
    (Education, EducationRules),
    (College, CollegeRules),
    (Degree, DegreeRules),
    (Schooling, SchoolingRules),
    (Cgpa, CgpaRules),
    (AboutCreator, AboutCreatorRules),
    (TechStack, TechStackRules),
    (Skills, SkillsRules),
    (Projects, ProjectsRules),
    (Github, GithubRules),
    (Leetcode, LeetcodeRules),
    (Blogs, BlogsRules),
    (Linkedin, LinkedinRules),
    (Contact, ContactRules),
    (JobSeeking, JobSeekingRules),
    (Resume, ResumeRules),
    (Location, LocationRules),
    (PortfolioTech, PortfolioTechRules),
    (SourceCode, SourceCodeRules),
    (FavoriteFrameworks, FavoriteFrameworksRules),
    (Collaboration, CollaborationRules),
    (LearningFirst, LearningFirstRules),
    (BuildPortfolio, BuildPortfolioRules),
    (Resources, ResourcesRules),
    (Mentoring, MentoringRules),
    (Freelance, FreelanceRules),
    (Experience, ExperienceRules),
    (Pricing, PricingRules),
    (WhyDeveloper, WhyDeveloperRules),
    (LearningJourney, LearningJourneyRules),
    (OpenSource, OpenSourceRules),
    (PersonalInfo, PersonalInfoRules),
    (Inappropriate, InappropriateRules)
  ]
}
