# JinBo chat server — a Dafny model of its message pipeline

JinBo is a small Express server (`server.js`). It answers chat messages about its
creator, using a JSON knowledge base and live profile data fetched from GitHub,
LeetCode, Medium and a stored LinkedIn record. This project models the path a chat
message takes, and proves properties of that model.

A message sent to `POST /api/chat` is first checked: a missing or blank message is
answered `400`. If the profile cache is more than an hour old, it is refreshed. The
message is then handled in these steps:

1. It is normalized: trimmed, lower-cased, apostrophes unified, contractions split,
   noise characters replaced and whitespace collapsed.
2. It is classified against the ordered `INTENTS` table of regular expressions. The
   first intent with a rule that matches the normalized or the original text wins.
   If no rule matches, a context override for "profile" applies.
3. If the result is `default`, a keyword scorer gets a second try.
4. If that also gives `default`, the best hit of a fuzzy search over the knowledge
   base is used, when it passes a score gate and a term-overlap validation.
5. Otherwise, the answer for the intent is generated. Stored phrasings are picked
   at random, and profile intents are rendered from the cached statistics.

Modules, one per file:

| file | module | what it models |
|---|---|---|
| `wrappers.dfy` | `Wrappers` | `Option` |
| `text.dfy` | `Text` | JavaScript string operations the server uses: `trim`, `toLowerCase`, `indexOf`/`includes`, first-occurrence `replace`, number rendering |
| `normalizer.dfy` | `Normalizer` | `normalizeMessage` |
| `intents.dfy` | `Intents` | the intent names, the rule representation, the greeting and background rules |
| `classifier.dfy` | `Classifier` | the `INTENTS` table order and `classifyIntent` |
| `weights.dfy` | `WeightedScorer` | `weightedKeywords` and `resolveIntentByWeight` |
| `fuzzy.dfy` | `Fuzzy` | `fuzzySearchKB`'s gate and `validateFuzzyResult` |
| `profiledata.dfy` | `ProfileData` | the shaping of the GitHub, LeetCode, Medium and LinkedIn data |
| `knowledge.dfy` | `KnowledgeBase` | the knowledge base, `getRandomVariation` and `buildSearchIndex` |
| `livedata.dfy` | `LiveData` | the `cache` object, `initData` and the staleness check (a class) |
| `responses.dfy` | `Responses` | `generateResponse` |
| `chat.dfy` | `Chat` | the `/api/chat` handler |

The regular-expression engine is an input to the model. It is a function from a
table line and a text to a boolean. Two rules are written out in full, because
properties depend on them:

- the greeting rule (`server.js:35`);
- the education background rule with its negative lookahead (`server.js:67`).

The fuzzy-search library is an input too: its ranked, scored results. `Math.random`
is a number `draw`; the variation picked is `draw % length`. The four fetches arrive
as settled results, in the shape `Promise.allSettled` gives them.

Where the behaviour of the code and its documentation differ, the model follows the
code:

- `normalizeMessage` is not idempotent. Normalizing "he'd've" gives "he d've", and
  normalizing that again gives "he d ve".
- The keyword scorer accepts any positive score: a single keyword is enough.
- The "profile" override runs only after the whole table has been tried without a
  match.
- A message holding the whole word "profile" with no platform name after it is
  classified `education` by the background rule (`server.js:67`), before any later
  entry is tried. The override applies only when a platform name follows every such
  "profile".
- The `[GITHUB_REPOS]`, `[COMPANY_NAME]` and `[PROJECT_DETAILS]` placeholders are
  replaced at their first occurrence only.
- The `detectedIntents` checks after the loops (`server.js:403-410`) never fire,
  because that list is never filled.

## Model

| member | source | states |
|---|---|---|
| Text.Trim | server.js:374 | The trimmed text neither starts nor ends with whitespace. It is empty exactly when the input is all whitespace. It is the piece of the input right after its leading whitespace, and only whitespace follows it. |
| Text.TrimNoop | server.js:384 | Text without surrounding whitespace is its own trim, so the final `trim` only removes what collapsing left at the edges. |
| Text.LowerChar | server.js:375 | An upper-case ASCII letter becomes the letter 32 code points later, its lower-case form. Every other character is kept. |
| Text.Lower | server.js:375 | `toLowerCase` keeps the length and lower-cases each character as `LowerChar` does: the ASCII letters A–Z are mapped, and nothing else changes. |
| Text.LowerHasNoUpper | server.js:375 | After lower-casing, no upper-case ASCII letter remains. |
| Text.IndexOf | server.js:620-625 | `indexOf` gives an index where the pattern occurs, with no occurrence before it. It gives nothing exactly when the pattern occurs nowhere. |
| Text.Substitution | server.js:620-625 | A replacement text without `$` is inserted literally. |
| Text.ReplaceFirst | server.js:620-625 | A string `replace` whose pattern does not occur leaves the text unchanged. |
| Text.ReplaceFirstAt | server.js:620-625 | With a `$`-free replacement, exactly the first occurrence is swapped for the replacement. The text before and after it is kept. |
| Text.ReplaceFirstKeepsApart | server.js:620-626 | An occurrence of a text that cannot overlap the pattern survives any replacement, at its shifted index: in place before the replaced occurrence, moved by the change in length after it. |
| Text.ReplaceFirstKeepsLater | server.js:620-625 | A later occurrence that does not overlap the first one survives the replacement: `replace` with a string pattern is not global. |
| Text.NatToString | server.js:631-634 | A count renders as a non-empty string of decimal digits whose decimal value is the count, with no leading zero. It has one digit exactly for counts below ten. |
| Normalizer.UnifyChars | server.js:377 | After unifying apostrophes, no backtick or acute accent remains. Every character came from the input or is `'`. |
| Normalizer.WordRun | server.js:379 | The `\w+` run is the longest prefix made of word characters. |
| Normalizer.ContractionAt | server.js:379 | A contraction match lies inside the text and has an apostrophe at its position. |
| Normalizer.SplitChars | server.js:379 | Splitting contractions introduces no character other than a space. |
| Normalizer.NoiseChars | server.js:381 | After noise removal, every character is a kept character of the input, or a space. |
| Normalizer.CollapseFacts | server.js:383 | Collapsing leaves no two adjacent spaces and introduces no whitespace other than a space. It empties only empty text, and the result starts with a space exactly when the input starts with whitespace. |
| Normalizer.Normalize | server.js:372-385 | The normalized message is canonical: trimmed, without upper-case letters, backticks, acute accents or double spaces, and made only of characters the noise filter keeps. |
| Normalizer.LowerNoop | server.js:375 | Lower-casing leaves text without upper-case letters unchanged. |
| Normalizer.SplitNoop | server.js:379 | Text without an apostrophe has no contraction to split. |
| Normalizer.CollapseNoop | server.js:383 | Text of kept characters without double spaces is unchanged by collapsing. |
| Normalizer.NormalizeFixesCanonical | server.js:372-385 | A canonical message without an apostrophe normalizes to itself. |
| Normalizer.NormalizeIdempotentWithoutApostrophe | server.js:372-385 | Normalizing twice equals normalizing once whenever the first result has no apostrophe. |
| Normalizer.NormalizeIsSplit | server.js:372-385 | On a canonical message whose split form is canonical too, normalizing only splits contractions. |
| Normalizer.SplitHeDve | server.js:379 | One pass over "he'd've" splits only the first contraction: the regex resumes after the consumed suffix. |
| Normalizer.NormalizeNotIdempotent | server.js:372-385 | "he'd've" normalizes to "he d've", and that normalizes to "he d ve", so normalizing is not idempotent. |
| Intents.StartsWithWordIff | server.js:35 | The greeting rule fires exactly when the text starts with one of the greeting words, ignoring case, followed by a word boundary. |
| Intents.BackgroundFiresAt | server.js:67 | The background rule fires when it matches at any start position of the text. |
| Intents.WordThenNoPlatformAt | server.js:67 | A subject word with a word boundary after it, and no platform name ahead on its line, satisfies the rule's tail. |
| Classifier.AnyRuleFiresIff | server.js:395-399 | An entry fires exactly when one of its rules matches the normalized or the original text. |
| Classifier.FirstFiringIsFirst | server.js:394-400 | When entry `k` is the first entry with a firing rule, the scan returns its intent. |
| Classifier.FirstFiringSome | server.js:394-400 | Whatever the scan returns is the intent of the first entry with a firing rule. |
| Classifier.FirstFiringNone | server.js:394-400 | The scan finds nothing exactly when no entry has a firing rule. |
| Classifier.FirstFiringAtOrBefore | server.js:394-400 | An entry with a firing rule stops the scan at that entry or at an earlier one. |
| Classifier.AnyFires | server.js:395-399 | The inner loop reports whether some rule of one entry fires on either text. |
| Classifier.ScanTable | server.js:394-400 | The outer loop, with its early return, finds the intent of the first entry with a firing rule, or nothing. |
| Classifier.ClassifyIntent | server.js:388-421 | The nested loops with early return compute the classification: the first firing entry, or else the "profile" override. |
| Classifier.GreetingWins | server.js:35 | A message that starts with a greeting word is a greeting, whatever follows. |
| Classifier.HelloIsGreeting | server.js:35 | "Hello" is classified `greeting`. |
| Classifier.BackgroundOnProfileWord | server.js:67 | The whole word "profile" with no platform after it on its line makes the background rule fire. |
| Classifier.EducationFiresOnProfileWord | server.js:46-77 | The third table entry is `education`, and one of its rules fires on such a word. |
| Classifier.TableHead | server.js:34-277 | The table holds 35 entries, beginning with greeting, `about_bot` and education. |
| Classifier.ProfileWordIsEducationOrEarlier | server.js:34-77 | A message with such a "profile" is classified greeting, `about_bot` or education, never a later entry or the override. |
| Classifier.ProfileWordIsEducation | server.js:34-77 | Assume the regular-expression engine respects each rule's anchor, no greeting word starts the message, and no `about_bot` literal occurs. Then a message with such a "profile" is classified education. Under those conditions "show me his github profile" asks about education. The concrete message itself is not proved. |
| Classifier.OverrideNeedsPlatformAfterProfile | server.js:413-418 | The override is reached only if a platform name follows, on its line, every whole word "profile" of the normalized message. |
| WeightedScorer.Score | server.js:845 | A keyword list scores at most one point per keyword. |
| WeightedScorer.ScoreZeroIff | server.js:845 | A score is zero exactly when none of the keywords occurs in the message. |
| WeightedScorer.ScoreGrows | server.js:845 | Each keyword adds a point exactly when it occurs. |
| WeightedScorer.BestIndex | server.js:848 | The index chosen has the highest score, and every earlier index scores strictly less. This is the head of the stable descending sort. |
| WeightedScorer.KeywordScore | server.js:845 | The `reduce` over one keyword list computes that list's score. |
| WeightedScorer.ScoreEntries | server.js:843-846 | The loop gives one score per table entry, in table order, each the entry's keyword count. |
| WeightedScorer.ResolveIntentByWeight | server.js:840-850 | The loop fills the scores in table order and returns the best entry's intent, or `default` when its score is zero. |
| WeightedScorer.WeightedDefaultIff | server.js:834-850 | The scorer gives `default` exactly when no keyword of any entry occurs in the message. |
| WeightedScorer.WeightedIsFirstTop | server.js:840-850 | Otherwise the answer has a positive top score that no entry exceeds and every earlier entry falls short of. |
| WeightedScorer.ProfileTieIsLinkedin | server.js:834-850 | A message whose only keyword is "profile" ties `linkedin` and `education`, and the tie goes to `linkedin`. |
| Fuzzy.Round | server.js:343 | `Math.round` gives the integer nearest its argument, with halves rounded up. |
| Fuzzy.FuzzyHit | server.js:328-348 | There is a hit exactly when there is a best result with a score below 0.6. The hit carries that result's key, content and type, and its rounded confidence. |
| Fuzzy.HitConfidenceRange | server.js:339-343 | A hit's confidence lies between 40 and 100. |
| Fuzzy.ConfidenceAtLeast70Iff | server.js:343-366 | A confidence of at least 70 means exactly a score of at most 0.305. |
| Fuzzy.SplitWs | server.js:353 | Splitting on `\s+` gives at least one piece, and no piece holds whitespace. The pieces joined by single spaces are the text with every whitespace run replaced by one space (`Normalizer.CollapseSpaces`), so the cuts fall exactly at the runs. |
| Fuzzy.SplitWsKeepsText | server.js:353 | The pieces, joined, are the text without its whitespace. |
| Fuzzy.Utf16Length | server.js:354 | A word's `length` counts UTF-16 code units. A single character counts 2 exactly when it lies beyond U+FFFF, and 1 otherwise. A word's count equals its number of characters exactly when none lies beyond U+FFFF. |
| Fuzzy.Utf16LengthAppend | server.js:354 | Code units add up over concatenation, so with the one-character value they fix every word's `length`. |
| Fuzzy.LongWords | server.js:354 | Exactly the words longer than three code units are kept, each as often as it occurs among the words. |
| Fuzzy.LongWordsSnoc | server.js:354 | One more word is appended to the kept words when it is long, so the kept words are in the words' order. |
| Fuzzy.MatchedTerms | server.js:358-360 | The matched list keeps each occurring query term as often as the query repeats it, and drops every term that does not occur. |
| Fuzzy.MatchedTermsIff | server.js:358-360 | A term is matched exactly when it is a query term contained in the result text. |
| Fuzzy.Validate | server.js:350-370 | The matched terms are the in-order filter of the query terms by the lower-cased content, repeats included. The hit is valid exactly when at least 40% of a non-empty term list matched, or the confidence is at least 70. |
| Fuzzy.AllTermsFoundValid | server.js:350-370 | When every query term occurs in the content, all of them are matched, repeats included, and the hit is valid. |
| Fuzzy.RatioExact | server.js:363-366 | The integer test used by the model equals the ratio test `matched / terms >= 0.4`. |
| Fuzzy.QueryTermsShape | server.js:351-354 | Every query term is longer than three code units, lower-case and free of whitespace. |
| Fuzzy.NoTermsOnlyConfidence | server.js:363-366 | With no query term, the ratio is `NaN`, so only a confidence of at least 70 validates. |
| Fuzzy.NoOverlapRejected | server.js:358-366 | A hit sharing no term with the query is rejected unless its confidence is at least 70. |
| ProfileData.Tally | server.js:432-433 | Counting one more repository keeps the known languages and adds its language. |
| ProfileData.TallyCount | server.js:432-433 | The tally adds one to the counted language only. |
| ProfileData.TallyDistinct | server.js:432-433 | The tally never duplicates a language. |
| ProfileData.LanguageCountsCorrect | server.js:431-434 | Each language's count is the number of repositories using it. |
| ProfileData.LanguageCountsDistinct | server.js:431-434 | Every language appears once in the counts. |
| ProfileData.CountLanguages | server.js:431-434 | The loop over the repositories computes the language counts. |
| ProfileData.InsertDesc | server.js:437 | Insertion gives the old elements plus the new one, as a multiset. |
| ProfileData.InsertDescSorted | server.js:437 | Insertion into a descending list keeps it descending. |
| ProfileData.InsertDescStable | server.js:437 | Insertion places the new element after the elements with its own count. |
| ProfileData.SortDesc | server.js:437 | Sorting keeps the length and the multiset of elements, and gives a descending list. |
| ProfileData.SortDescStable | server.js:437 | The sort is stable: elements with equal counts keep their order. |
| ProfileData.TopLanguages | server.js:436-439 | At most three languages are kept, fewer only when fewer exist. |
| ProfileData.TopLanguagesAreTop | server.js:436-439 | Every kept language has at least the count of every dropped one. |
| ProfileData.TotalStarsAppend | server.js:441 | The star total of two lists is the sum of their totals. |
| ProfileData.ShapeGitHub | server.js:431-455 | The stored statistics copy the user's login, repository and follower counts. They list the first two repositories, and the star total counts all repositories. The languages are the top three of the language counts, joined with ", ". |
| ProfileData.SolvedCountFirst | server.js:491-494 | A difficulty's count is taken from the first entry with that difficulty. |
| ProfileData.SolvedCountMissing | server.js:491-494 | A missing difficulty counts 0. |
| ProfileData.ShapeLeetCode | server.js:487-495 | There are statistics exactly when the user was found. They carry that user's name and, for All, Easy, Medium and Hard, the count of the first entry with that difficulty, or 0. |
| ProfileData.ShapeMedium | server.js:512-520 | There are statistics exactly when the feed has items. Their posts are the first five items or fewer, in order, and a latest post exists exactly when the feed is not empty. |
| ProfileData.LinkedInActivity | server.js:531-552 | The stored LinkedIn record is used when present. Otherwise a record with the profile URL and no counts or post is built. |
| LiveData.SlotOf | server.js:568-571 | A slot holds a value exactly when its fetch was fulfilled with a value. |
| LiveData.Cache.constructor | server.js:28 | The cache starts with every slot empty and no fetch time. |
| LiveData.Cache.InitData | server.js:558-578 | Every slot is overwritten from its settled fetch, and the fetch time is recorded. No refresh is due again for an hour. |
| LiveData.Cache.RefreshIfStale | server.js:863-865 | A stale cache is refreshed and a fresh one left unchanged. Either way, the snapshot read is current and not stale. |
| KnowledgeBase.Lookup | server.js:592 | `KB.responses[key]` finds a value exactly when some stored response carries the key. The value found is that of the first entry with the key. |
| KnowledgeBase.PickVariation | server.js:581-586 | A missing value gives nothing. A single phrasing is returned as is. A list gives one of its own entries, and gives nothing only when it is empty. |
| KnowledgeBase.EveryVariationReachable | server.js:581-586 | Every phrasing of a list can be drawn. |
| KnowledgeBase.KeyWords | server.js:290 | A key's search keywords are the key with each underscore read as a space. |
| KnowledgeBase.PushResponse | server.js:283-293 | Indexing a response appends one entry per phrasing. |
| KnowledgeBase.PushPersonal | server.js:296-313 | Indexing a personal item appends exactly the entries the item defines: its text entry, or one entry per list item. |
| KnowledgeBase.BuildSearchIndex | server.js:279-323 | The loops build exactly the index the knowledge base defines: responses first, then personal data. |
| KnowledgeBase.ResponsePhrasingIndexed | server.js:283-293 | Every phrasing of every response is in the index, under its key and keywords. |
| KnowledgeBase.ResponseEntryFromKB | server.js:283-293 | Every response entry of the index comes from a stored phrasing, with its keywords derived from its key. |
| KnowledgeBase.PersonalEntryFromKB | server.js:296-313 | Every personal entry of the index comes from a stored personal item, with that item's key as its keywords. |
| KnowledgeBase.ResponseEntriesCount | server.js:283-293 | The index holds one response entry per stored phrasing. |
| Responses.OfValue | server.js:592 | A picked phrasing becomes the reply text. A missing one becomes the `undefined` reply. |
| Responses.ResponseKey | server.js:594-778 | Each plain intent reads the response stored under its own name, except for the five aliases (`skills` reads `tech_stack`, and so on). |
| Responses.LanguageOr | server.js:619 | A truthy language is shown as it is. "N/A" is shown exactly when the language is missing or empty, or is itself "N/A". |
| Responses.RepoLineShape | server.js:618-619 | A repository line starts with its 1-based number and ". ", shows the name and the language, and ends with ") - " and the URL. |
| Responses.RepoLines | server.js:617-620 | There is one line per listed repository, in order, and line `k` starts with the number `k + 1`, shows repository `k`'s name and language, and ends with its URL. |
| Responses.ProjectsWithoutPlaceholders | server.js:615-627 | A template without placeholders is answered unchanged. |
| Responses.ProjectsListRepoUrls | server.js:615-626 | With a `[GITHUB_REPOS]` placeholder and filled GitHub data, the `projects` reply contains the URL of every top repository. This needs repository fields without `$` and URLs without `[`. |
| Responses.ProjectsKeepsLaterCompany | server.js:625 | A second `[COMPANY_NAME]` that does not overlap the first is still in the `projects` reply: each placeholder is replaced at its first occurrence only. |
| Responses.RenderRepoBlocks | server.js:637-641 | The `forEach` over the top repositories renders their blocks. |
| Responses.RenderGithub | server.js:629-646 | The `github` reply is built step by step into the text the model defines. |
| Responses.RepoBlocksListUrls | server.js:637-641 | Every listed repository's URL appears in its block. |
| Responses.GithubCountsShown | server.js:632-633 | The counts section shows the repository count and the star total. |
| Responses.GithubReplyShape | server.js:629-646 | Without statistics, the reply is the profile link. With them, it starts with the title, shows the counts and ends with the full-profile link. |
| Responses.LeetcodeReplyShape | server.js:648-659 | Without statistics, the reply is the profile link built from the configured handle. With them, it shows the total, easy, medium and hard counts. Either way it ends with the profile URL. |
| Responses.RenderPostBlocks | server.js:664-666 | The `forEach` over the posts renders their blocks. |
| Responses.RenderBlogs | server.js:661-672 | The `blogs` reply is built step by step into the text the model defines. |
| Responses.PostBlocksListLinks | server.js:664-666 | Every post's link appears in its block. |
| Responses.BlogsReplyShape | server.js:661-672 | The `blogs` reply contains the Medium URL and every post link, and ends with the blog-frequency phrasing. A missing phrasing appears as "undefined". |
| Responses.LinkedinReplyShape | server.js:674-698 | Without a record, the reply is the profile link built from the configured handle followed by the networking line. Otherwise it contains the record's profile URL. Either way it ends with the networking line. |
| Responses.ZeroCountHidden | server.js:678-683 | Zero or missing counts, and a missing post, are left out of the `linkedin` reply. |
| Responses.FirstCategory | server.js:780-787 | No refusal category is chosen exactly when the message mentions none of them. |
| Responses.FirstOfFour | server.js:780-787 | The refusal categories are tried in order, and the first one mentioned is chosen. |
| Responses.InappropriateByFirstCategory | server.js:780-787 | The `inappropriate` reply is the phrasing of the first category mentioned. When no category is mentioned, it is `KB.responses.fallback` as stored, without picking a variation. |
| Responses.FindBachelor | server.js:807 | The record found is the first one whose level is the bachelor's degree. Nothing is found exactly when there is none. |
| Responses.CgpaShape | server.js:805-821 | The `cgpa` reply is the no-education text exactly when there is no bachelor's record. Otherwise it shows that record's CGPA. |
| Responses.GenerateResponse | server.js:589-832 | The `switch` computes the reply the model defines for every intent. |
| Responses.PlainIntentIsStoredPhrasing | server.js:594-778 | A plain intent's reply is one of the phrasings stored under its key, and is `undefined` when none is stored. |
| Responses.OnlyProjectsThrows | server.js:615-627 | Generation throws exactly for `projects` with no stored template: `replace` on `undefined`. |
| Chat.Rejection | server.js:857-861 | A message that does not pass the check is answered `400`, except a truthy non-string value: it has no `trim`, so the handler throws and answers `500` with `KB.responses.fallback`. |
| Chat.ChosenIntent | server.js:867-868 | The classifier's intent is kept unless it is `default`, in which case the keyword scorer decides. |
| Chat.ValidHit | server.js:875-881 | A hit is used exactly when the gate passes and validation accepts it. |
| Chat.AnswerFor | server.js:870-915 | The handler computes the outcome of the route the model defines: the fuzzy answer, or the generated reply. |
| Chat.Answer | server.js:867-915 | Classification, the keyword fallback and routing compute the handler's decision. |
| Chat.HandleChat | server.js:853-923 | A rejected message leaves the cache untouched. Otherwise a stale cache is refreshed first, and the answer is decided on the current slots. |
| Chat.FuzzyOnlyForValidatedHits | server.js:870-905 | The fuzzy answer is used exactly when both classification steps gave `default` and the best hit passed the gate and validation. Otherwise the intent found is generated. |
| Chat.FuzzyAnswerShape | server.js:882-900 | The fuzzy answer carries the hit's content, directly for a response entry, and ends with the confidence disclaimer. |
| Chat.ServerErrorOnlyForMissingProjects | server.js:907-922 | For an accepted message, the handler answers `500` only for `projects` with a missing template. Every other accepted message is answered. |

## Left out

- The HTTP layer (Express, CORS, JSON body parsing) is left out. `/api/refresh`, `/api/data` and `/health` (`server.js:926-935`) only expose the cache or call `initData`.
- Network fetches are left out: the GitHub REST calls, the LeetCode GraphQL query, the Medium RSS feed and axios. The shaping of their responses is modelled; the raw replies are inputs.
- The fuzzy-search library's scoring is an input: the ranked, scored result list.
- The regular-expression engine is an input, except for the greeting and background rules. Proofs that rely on a rule staying silent require that the engine respects the rule's literal anchor.
- Loading `knowledge-base.json` is left out, and so is the file's content: the knowledge base is an input.
- `Math.random` becomes the parameter `draw`.
- `Date.now` becomes the parameter `now`, in milliseconds.
- Console logging is left out.
- `test-bot.js` is not part of this model.
- Asynchrony is left out. The four fetches are modelled as already settled, and concurrent requests are not interleaved.
- Lower-casing is modelled for ASCII letters only.
- Floating-point numbers are modelled as reals: scores and ratios are exact.
- Fuzzy.Validate: the model does not produce the rounded `validationScore` field, which nothing reads.
- KnowledgeBase.PushPersonal: a personal list item is given as its `JSON.stringify` text, and serialization itself is left out.
- Knowledge-base values that are neither strings nor arrays are left out.
- The order in which JavaScript enumerates object keys is left out. Response keys are taken in stored order, and integer-like keys are not reordered.
- The `default:` branch of `generateResponse` (`server.js:827-828`) is left out. It is unreachable, because every intent of the table has its own case.
- The `detectedIntents` checks (`server.js:403-410`) are left out, because they can never fire.
- LiveData.Cache.InitData: `lastFetch` gets the time of the staleness check, `now`, not the time at which the fetches settle.
- KnowledgeBase.Lookup: the stored responses are a list, which may repeat a key, while a parsed JSON object cannot. `Lookup` takes the first entry with a key, and the search index lists every entry.
- Fuzzy.SplitWsKeepsText: states only that splitting loses nothing but whitespace. Where the cuts fall is stated by `Fuzzy.SplitWs`'s own contract.
- Responses.ResponseKey: the contract names the key only for non-alias intents; the five aliases are fixed in the definition.
