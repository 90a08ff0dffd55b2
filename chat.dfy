/**
 * The decision logic of the `/api/chat` handler (server.js): reject an empty
 * message, refresh a stale cache, classify (falling back to the keyword scorer),
 * and for an unclassified message try the fuzzy hit before the `default` response.
 * A `TypeError` anywhere in the handler becomes a 500 answer carrying the fallback.
 */
module Chat {
  import opened Wrappers
  import opened Text
  import opened Normalizer
  import opened Intents
  import opened Classifier
  import opened WeightedScorer
  import opened Fuzzy
  import opened LiveData
  import opened KnowledgeBase
  import opened Responses

  /** The `message` field of the request body: absent, a string, or another JSON value with its truthiness. */
  datatype Field = NoMessage | StrMessage(s: string) | OtherMessage(truthy: bool)

  /**
   * The handler's answer: 400 `Message required`; 200 with the reply and the debug
   * intent and fuzzy flag; or 500 with `KB.responses.fallback`.
   */
  datatype ChatResult =
    | BadRequest
    | Answered(response: Reply, intent: Intent, usedFuzzy: bool)
    | ServerError(fallback: Reply)

  /** The message passes `!message || !message.trim()`: a string with a non-space character. */
  predicate Accepted(body: Field) {
    body.StrMessage? && Trim(body.s) != ""
  }

  /**
   * The answer to a message that does not pass: falsy values and blank strings get
   * 400; a truthy non-string has no `trim`, so the call throws and the handler
   * answers 500.
   */
  function Rejection(kb: KB, body: Field): (r: ChatResult)
    requires !Accepted(body)
    ensures r.BadRequest? <==> !(body.OtherMessage? && body.truthy)
    ensures !r.BadRequest? ==> r == ServerError(Fallback(kb))
  {
    if body.OtherMessage? && body.truthy then ServerError(Fallback(kb)) else BadRequest
  }

  /** The intent the handler answers for: the classifier's, or the keyword scorer's when that is `default`. */
  function ChosenIntent(message: string, oracle: Oracle): (r: Intent)
    ensures Classification(message, oracle) != Default ==> r == Classification(message, oracle)
    ensures Classification(message, oracle) == Default ==> r == WeightedIntent(Normalize(message))
  {
    var first := Classification(message, oracle);
    if first == Default then WeightedIntent(Normalize(message)) else first
  }

  /** The disclaimer appended to a fuzzy answer. */
  function Disclaimer(confidence: int): string {
    "\n\n\U{26A0}\U{FE0F} *Note: This answer was extracted from my knowledge base with " + IntToString(confidence)
      + "% confidence and may not perfectly match your question. For more accurate info, please rephrase or contact Prateesh directly.*"
  }

  /** The answer built from a validated hit: a response entry as is, anything else introduced. */
  function FuzzyAnswer(hit: Hit): string {
    (if hit.kind == ResponseEntry then hit.content
     else "Based on your question, here's what I found:\n\n" + hit.content)
      + Disclaimer(hit.confidence)
  }

  /** Where the handler takes its answer from. */
  datatype Route = UseFuzzy(hit: Hit) | Generate(intent: Intent)

  /** The hit the handler accepts: the gated best result, if it passes validation. */
  function ValidHit(message: string, results: seq<Scored>): (r: Option<Hit>)
    ensures r.Some? <==> FuzzyHit(results).Some? && Validate(message, FuzzyHit(results).value).isValid
    ensures r.Some? ==> r == FuzzyHit(results)
  {
    match FuzzyHit(results)
    case Some(hit) => if Validate(message, hit).isValid then Some(hit) else None
    case None => None
  }

  /**
   * The handler's routing: a recognised intent is generated; an unrecognised one is
   * answered from a valid fuzzy hit, and otherwise by the `default` response.
   */
  function RouteOf(intent: Intent, message: string, results: seq<Scored>): Route {
    if intent != Default then Generate(intent)
    else
      match ValidHit(message, results)
      case Some(hit) => UseFuzzy(hit)
      case None => Generate(Default)
  }

  /** The answer for a route; generating a reply that throws gives the 500 answer. */
  function Outcome(kb: KB, snap: Snapshot, route: Route, message: string, draw: nat): ChatResult {
    match route
    case UseFuzzy(hit) => Answered(Text(FuzzyAnswer(hit)), Default, true)
    case Generate(intent) => Finish(kb, Response(kb, snap, intent, message, draw), intent)
  }

  /** A generated reply as the answer; a reply that threw gives the 500 answer. */
  function Finish(kb: KB, reply: Reply, intent: Intent): ChatResult {
    if reply.TypeError? then ServerError(Fallback(kb)) else Answered(reply, intent, false)
  }

  /**
   * The handler after the checks and the refresh, on the cache snapshot `snap`:
   * `results` is what the search library returns for the message, best first, and
   * `draw` the random draw of the response generator.
   */
  function Decide(kb: KB, snap: Snapshot, message: string, oracle: Oracle, results: seq<Scored>, draw: nat): ChatResult {
    Outcome(kb, snap, RouteOf(ChosenIntent(message, oracle), message, results), message, draw)
  }

  /** The handler once the intent is chosen: the fuzzy hit for `default`, else the generated reply. */
  method AnswerFor(kb: KB, snap: Snapshot, intent: Intent, message: string, results: seq<Scored>, draw: nat)
    returns (result: ChatResult)
    ensures result == Outcome(kb, snap, RouteOf(intent, message, results), message, draw)
  {
    var route := RouteOf(intent, message, results);
    match route
    case UseFuzzy(hit) =>
      result := Answered(Text(FuzzyAnswer(hit)), Default, true);
    case Generate(i) =>
      var reply := GenerateResponse(kb, snap, i, message, draw);
      result := Finish(kb, reply, i);
  }

  /** The handler from classification on, on the refreshed cache snapshot. */
  method Answer(kb: KB, snap: Snapshot, message: string, oracle: Oracle, results: seq<Scored>, draw: nat)
    returns (result: ChatResult)
    ensures result == Decide(kb, snap, message, oracle, results, draw)
  {
    var intent := ClassifyIntent(message, oracle);
    if intent == Default {
      intent := ResolveIntentByWeight(message);
    }
    assert intent == ChosenIntent(message, oracle);
    result := AnswerFor(kb, snap, intent, message, results, draw);
  }

  /**
   * `POST /api/chat`. A rejected message leaves the cache alone; otherwise the cache
   * is refreshed first when stale and the answer is decided on the refreshed slots.
   */
  method HandleChat(cache: Cache, kb: KB, body: Field,
                    gh: Settled<ProfileData.GitHubStats>, lc: Settled<ProfileData.LeetCodeStats>,
                    md: Settled<ProfileData.MediumStats>, li: Settled<ProfileData.LinkedInData>,
                    now: int, oracle: Oracle, results: seq<Scored>, draw: nat)
    returns (result: ChatResult)
    modifies cache
    ensures !Accepted(body) ==> result == Rejection(kb, body) && unchanged(cache)
    ensures Accepted(body) ==> result == Decide(kb, cache.Current(), body.s, oracle, results, draw)
    ensures Accepted(body) ==> !cache.NeedsRefresh(now)
    ensures Accepted(body) && old(cache.NeedsRefresh(now)) ==>
              cache.Current() == Snapshot(SlotOf(gh), SlotOf(lc), SlotOf(md), SlotOf(li)) && cache.lastFetch == Some(now)
    ensures Accepted(body) && !old(cache.NeedsRefresh(now)) ==> unchanged(cache)
  {
    if !body.StrMessage? || Trim(body.s) == "" {
      result := Rejection(kb, body);
      return;
    }
    var snap := cache.RefreshIfStale(gh, lc, md, li, now);
    assert snap == cache.Current();
    result := Answer(kb, snap, body.s, oracle, results, draw);
  }

  /**
   * The fuzzy answer is used exactly when neither the classifier nor the keyword
   * scorer found an intent and the search library's best hit passed both the score
   * gate and the validation; every other message is generated for the intent found,
   * or for `default`.
   */
  lemma FuzzyOnlyForValidatedHits(intent: Intent, message: string, results: seq<Scored>)
    ensures RouteOf(intent, message, results).UseFuzzy?
        <==> (intent == Default && FuzzyHit(results).Some? && Validate(message, FuzzyHit(results).value).isValid)
    ensures RouteOf(intent, message, results).UseFuzzy? ==> RouteOf(intent, message, results).hit == FuzzyHit(results).value
    ensures RouteOf(intent, message, results).Generate? ==> RouteOf(intent, message, results).intent == intent
  {
  }

  /**
   * A fuzzy answer carries the hit's content (as is for a response entry, after an
   * introduction otherwise) and ends with the disclaimer naming the hit's confidence.
   */
  lemma FuzzyAnswerShape(hit: Hit)
    ensures Contains(FuzzyAnswer(hit), hit.content)
    ensures hit.kind == ResponseEntry ==> StartsWith(FuzzyAnswer(hit), hit.content)
    ensures EndsWith(FuzzyAnswer(hit), Disclaimer(hit.confidence))
  {
    var lead := if hit.kind == ResponseEntry then "" else "Based on your question, here's what I found:\n\n";
    assert (if hit.kind == ResponseEntry then hit.content else lead + hit.content) == lead + hit.content;
    ContainsSelf(hit.content);
    ContainsAfter(lead, hit.content, hit.content);
    ContainsBefore(lead + hit.content, Disclaimer(hit.confidence), hit.content);
    EndsWithAppend(lead + hit.content, Disclaimer(hit.confidence));
    if hit.kind == ResponseEntry {
      assert lead + hit.content == hit.content;
      StartsWithAppend(hit.content, Disclaimer(hit.confidence));
    }
  }

  /**
   * The handler answers 500 for an accepted message only when it routes to
   * `projects` and the template is missing; every other route is answered.
   */
  lemma ServerErrorOnlyForMissingProjects(kb: KB, snap: Snapshot, route: Route, message: string, draw: nat)
    ensures Outcome(kb, snap, route, message, draw).ServerError?
        <==> route == Generate(Projects) && GetResp(kb, "projects_latest", draw).None?
    ensures !Outcome(kb, snap, route, message, draw).ServerError? ==> Outcome(kb, snap, route, message, draw).Answered?
  {
    if route.Generate? {
      OnlyProjectsThrows(kb, snap, route.intent, message, draw);
    }
  }
}
