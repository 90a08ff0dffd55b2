/**
 * `generateResponse` (server.js): the reply text for a classified intent. Most
 * intents answer with a variation of a stored response; the profile intents render
 * the cached live data, or a plain link when the cache slot is empty; `projects`
 * fills placeholders of a template; `inappropriate` picks a refusal by the words of
 * the message; `cgpa` renders the education records.
 */
module Responses {
  import opened Wrappers
  import opened Text
  import opened Intents
  import opened ProfileData
  import opened LiveData
  import opened KnowledgeBase

  /**
   * What `generateResponse` yields: a string; `undefined` (a missing response); the
   * raw stored list (`KB.responses.fallback` is not passed through the variation
   * picker); or a `TypeError` thrown when the `projects` template is missing.
   */
  datatype Reply = Text(text: string) | Missing | Phrases(options: seq<string>) | TypeError

  /** A `getResp` result as the reply. */
  function OfValue(v: Option<string>): (r: Reply)
    ensures r.Text? <==> v.Some?
    ensures r.Text? ==> r.text == v.value
    ensures !r.Text? ==> r.Missing?
  {
    match v
    case Some(s) => Text(s)
    case None => Missing
  }

  /** `KB.responses.fallback`, unpicked. */
  function Fallback(kb: KB): Reply {
    match Lookup(kb.responses, "fallback")
    case None => Missing
    case Some(One(s)) => Text(s)
    case Some(Many(xs)) => Phrases(xs)
  }

  /** The intents whose reply is composed rather than one stored response. */
  predicate Composed(i: Intent) {
    i.Projects? || i.Github? || i.Leetcode? || i.Blogs? || i.Linkedin? || i.Inappropriate? || i.Cgpa?
  }

  /**
   * The response key of each other intent: its own name, except the five intents
   * that borrow another intent's response.
   */
  function ResponseKey(i: Intent): (k: string)
    requires !Composed(i)
    ensures i !in {Skills, LearningFirst, Experience, ClientWork, LearningJourney} ==> k == Name(i)
  {
    match i
    case Skills => "tech_stack"
    case LearningFirst => "learning_first_language"
    case Experience => "experience_domains"
    case ClientWork => "collaboration"
    case LearningJourney => "background"
    case _ => Name(i)
  }

  // ----- profile links -----

  function GithubUrl(handle: string): string { "https://github.com/" + handle }
  function LeetcodeUrl(handle: string): string { "https://leetcode.com/u/" + handle }
  function MediumUrl(handle: string): string { "https://medium.com/" + handle }
  function LinkedinUrl(handle: string): string { "https://linkedin.com/in/" + handle }

  // ----- projects -----

  /** `r.language || 'N/A'`: a truthy language itself, otherwise "N/A". */
  function LanguageOr(language: Option<string>): (r: string)
    ensures r == "N/A" <==> language.None? || language.value == "" || language.value == "N/A"
    ensures language.Some? && language.value != "" ==> r == language.value
  {
    match language
    case Some(l) => if l != "" then l else "N/A"
    case None => "N/A"
  }

  /** One line of the `projects` repository list. */
  function RepoLine(i: nat, r: Repo): string {
    NatToString(i + 1) + ". " + r.name + " (" + LanguageOr(r.language) + ") - " + r.url
  }

  /** A line starts with its 1-based number and shows the name, the language and, at its end, the URL. */
  lemma RepoLineShape(i: nat, r: Repo)
    ensures StartsWith(RepoLine(i, r), NatToString(i + 1) + ". ")
    ensures Contains(RepoLine(i, r), r.name) && Contains(RepoLine(i, r), LanguageOr(r.language))
    ensures EndsWith(RepoLine(i, r), ") - " + r.url)
  {
    LineParts(NatToString(i + 1), r.name, LanguageOr(r.language), r.url);
  }

  lemma LineParts(n: string, name: string, l: string, url: string)
    ensures StartsWith(n + ". " + name + " (" + l + ") - " + url, n + ". ")
    ensures Contains(n + ". " + name + " (" + l + ") - " + url, name)
    ensures Contains(n + ". " + name + " (" + l + ") - " + url, l)
    ensures EndsWith(n + ". " + name + " (" + l + ") - " + url, ") - " + url)
  {
    StartsWithAppend(n + ". ", name);
    StartsWithExtend(n + ". " + name, n + ". ", " (");
    StartsWithExtend(n + ". " + name + " (", n + ". ", l);
    StartsWithExtend(n + ". " + name + " (" + l, n + ". ", ") - ");
    StartsWithExtend(n + ". " + name + " (" + l + ") - ", n + ". ", url);
    ContainsMiddle(n + ". ", name, " (");
    ContainsBefore(n + ". " + name + " (", l, name);
    ContainsBefore(n + ". " + name + " (" + l, ") - ", name);
    ContainsBefore(n + ". " + name + " (" + l + ") - ", url, name);
    ContainsMiddle(n + ". " + name + " (", l, ") - ");
    ContainsBefore(n + ". " + name + " (" + l + ") - ", url, l);
    var head := n + ". " + name + " (" + l;
    assert head + ") - " + url == head + (") - " + url);
    EndsWithAppend(head, ") - " + url);
  }

  /** The lines of the repository list, in order, numbered from 1. */
  function RepoLines(repos: seq<Repo>): (r: seq<string>)
    ensures |r| == |repos|
    ensures forall k :: 0 <= k < |r| ==>
      && StartsWith(r[k], NatToString(k + 1) + ". ")
      && Contains(r[k], repos[k].name) && Contains(r[k], LanguageOr(repos[k].language))
      && EndsWith(r[k], ") - " + repos[k].url)
  {
    var r := seq(|repos|, i requires 0 <= i < |repos| => RepoLine(i, repos[i]));
    assert forall k :: 0 <= k < |r| ==>
      && StartsWith(r[k], NatToString(k + 1) + ". ")
      && Contains(r[k], repos[k].name) && Contains(r[k], LanguageOr(repos[k].language))
      && EndsWith(r[k], ") - " + repos[k].url) by {
      forall k | 0 <= k < |r| {
        RepoLineShape(k, repos[k]);
      }
    }
    r
  }

  const ReposTag := "[GITHUB_REPOS]"
  const CompanyTag := "[COMPANY_NAME]"
  const DetailsTag := "[PROJECT_DETAILS]"

  /**
   * What replaces `[GITHUB_REPOS]`: the repository list whenever the GitHub slot is
   * filled (its `topRepos` is always an array), a link otherwise.
   */
  function ReposText(github: Option<GitHubStats>, handle: string): string {
    match github
    case Some(g) => Join(RepoLines(g.topRepos), "\n")
    case None => "Check GitHub: " + GithubUrl(handle)
  }

  /**
   * The `projects` template with `[GITHUB_REPOS]`, `[COMPANY_NAME]` and
   * `[PROJECT_DETAILS]` replaced, in that order, each at its first occurrence only.
   */
  function ProjectsText(template: string, github: Option<GitHubStats>, handle: string): string {
    var filled := ReplaceFirst(template, ReposTag, ReposText(github, handle));
    ReplaceFirst(ReplaceFirst(filled, CompanyTag, "his current company"), DetailsTag, "exciting projects")
  }

  /** A template without placeholders is returned unchanged. */
  lemma ProjectsWithoutPlaceholders(template: string, github: Option<GitHubStats>, handle: string)
    requires !Contains(template, ReposTag) && !Contains(template, CompanyTag)
    requires !Contains(template, DetailsTag)
    ensures ProjectsText(template, github, handle) == template
  {
  }

  /** No two of the placeholders can overlap. */
  lemma TagsApart()
    ensures |CompanyTag| == 14 && |ReposTag| >= 2 && |DetailsTag| >= 2
    ensures ReposTag[0] !in CompanyTag[1..] && CompanyTag[0] !in ReposTag[1..] && CompanyTag[1] != ReposTag[1]
    ensures DetailsTag[0] !in CompanyTag[1..] && CompanyTag[0] !in DetailsTag[1..] && CompanyTag[1] != DetailsTag[1]
  {
    assert CompanyTag[1..] == "COMPANY_NAME]";
    assert ReposTag[1..] == "GITHUB_REPOS]";
    assert DetailsTag[1..] == "PROJECT_DETAILS]";
  }

  /** Repository fields that `replace` copies literally and that cannot be mistaken for a placeholder. */
  predicate PlainRepo(r: Repo) {
    '$' !in r.name && '$' !in r.url && '[' !in r.url && (r.language.Some? ==> '$' !in r.language.value)
  }

  lemma RepoLineNoDollar(i: nat, r: Repo)
    requires PlainRepo(r)
    ensures '$' !in RepoLine(i, r)
  {
  }

  lemma ReposNoDollar(repos: seq<Repo>)
    requires forall i :: 0 <= i < |repos| ==> PlainRepo(repos[i])
    ensures '$' !in Join(RepoLines(repos), "\n")
  {
    if '$' in Join(RepoLines(repos), "\n") {
      JoinChars(RepoLines(repos), "\n", '$');
      var k :| 0 <= k < |repos| && '$' in RepoLines(repos)[k];
      RepoLineNoDollar(k, repos[k]);
    }
  }

  /** The repository list shows each URL after its line's `" - "`. */
  lemma ReposContainUrl(repos: seq<Repo>, k: nat)
    requires k < |repos|
    ensures Contains(Join(RepoLines(repos), "\n"), " - " + repos[k].url)
  {
    var lines := RepoLines(repos);
    var x := " - " + repos[k].url;
    EndsWithContains(lines[k], ") - " + repos[k].url);
    assert ") - " + repos[k].url == ")" + x;
    ContainsSuffixPart(lines[k], ")", x);
    JoinContainsPart(lines, "\n", k);
    ContainsTrans(Join(lines, "\n"), lines[k], x);
  }

  /** What follows `" - "` survives the `[COMPANY_NAME]` and `[PROJECT_DETAILS]` replacements. */
  lemma DashTextKept(s: string, url: string)
    requires Contains(s, " - " + url) && '[' !in url
    ensures Contains(ReplaceFirst(ReplaceFirst(s, CompanyTag, "his current company"), DetailsTag, "exciting projects"), url)
  {
    var x := " - " + url;
    assert x[1..] == "- " + url;
    KeptByReplace(s, CompanyTag, "his current company", x);
    var s2 := ReplaceFirst(s, CompanyTag, "his current company");
    KeptByReplace(s2, DetailsTag, "exciting projects", x);
    ContainsSuffixPart(ReplaceFirst(s2, DetailsTag, "exciting projects"), " - ", url);
  }

  /**
   * With a `[GITHUB_REPOS]` placeholder and plain repository fields, the `projects`
   * reply lists the URL of every top repository, whatever the other two
   * replacements do.
   */
  lemma ProjectsListRepoUrls(template: string, g: GitHubStats, handle: string, k: nat)
    requires Contains(template, ReposTag)
    requires forall i :: 0 <= i < |g.topRepos| ==> PlainRepo(g.topRepos[i])
    requires k < |g.topRepos|
    ensures Contains(ProjectsText(template, Some(g), handle), g.topRepos[k].url)
  {
    var url := g.topRepos[k].url;
    var repos := Join(RepoLines(g.topRepos), "\n");
    ReposContainUrl(g.topRepos, k);
    ReposNoDollar(g.topRepos);
    var i := IndexOf(template, ReposTag).value;
    ReplaceFirstAt(template, ReposTag, repos, i);
    ContainsWithin(template[..i], repos, template[i + |ReposTag|..], " - " + url);
    assert PlainRepo(g.topRepos[k]);
    DashTextKept(ReplaceFirst(template, ReposTag, repos), url);
  }

  /**
   * A second `[COMPANY_NAME]` that does not overlap the first survives in the
   * `projects` reply: each placeholder is replaced at its first occurrence only.
   */
  lemma ProjectsKeepsLaterCompany(template: string, github: Option<GitHubStats>, handle: string, j: nat)
    requires OccursAt(template, CompanyTag, j)
    requires IndexOf(template, CompanyTag).Some? && IndexOf(template, CompanyTag).value + |CompanyTag| <= j
    ensures Contains(ProjectsText(template, github, handle), CompanyTag)
  {
    var repos := ReposText(github, handle);
    var s1 := ReplaceFirst(template, ReposTag, repos);
    var b := LaterCompanyAfterRepos(template, repos, j);
    ReplaceFirstKeepsLater(s1, CompanyTag, "his current company", b);
    TagsApart();
    KeptByReplace(ReplaceFirst(s1, CompanyTag, "his current company"), DetailsTag, "exciting projects", CompanyTag);
  }

  /** Two apart `[COMPANY_NAME]`s stay apart, the later one after the first, once `[GITHUB_REPOS]` is replaced. */
  lemma LaterCompanyAfterRepos(template: string, repos: string, j: nat) returns (b: nat)
    requires OccursAt(template, CompanyTag, j)
    requires IndexOf(template, CompanyTag).Some? && IndexOf(template, CompanyTag).value + |CompanyTag| <= j
    ensures OccursAt(ReplaceFirst(template, ReposTag, repos), CompanyTag, b)
    ensures IndexOf(ReplaceFirst(template, ReposTag, repos), CompanyTag).Some?
    ensures IndexOf(ReplaceFirst(template, ReposTag, repos), CompanyTag).value + |CompanyTag| <= b
  {
    var s1 := ReplaceFirst(template, ReposTag, repos);
    var j1 := IndexOf(template, CompanyTag).value;
    TagsApart();
    ReplaceFirstKeepsTwoApart(template, ReposTag, repos, CompanyTag, j1, j);
    var a := ShiftedAt(template, ReposTag, repos, j1);
    b := ShiftedAt(template, ReposTag, repos, j);
    assert OccursAt(s1, CompanyTag, a);
    assert IndexOf(s1, CompanyTag).value <= a;
  }

  // ----- github -----

  /** The description line is shown only for a truthy (present, non-empty) description. */
  function DescriptionLine(description: Option<string>): string {
    if description.Some? && description.value != "" then "   " + description.value + "\n" else ""
  }

  /** The block of one repository in the `github` reply. */
  function RepoBlock(i: nat, r: Repo): string {
    NatToString(i + 1) + ". " + r.name + " (" + LanguageOr(r.language) + ")\n"
      + DescriptionLine(r.description) + "   " + r.url + "\n"
  }

  /** The blocks of the repositories, in order. */
  function RepoBlocks(repos: seq<Repo>): string {
    if repos == [] then ""
    else RepoBlocks(repos[..|repos| - 1]) + RepoBlock(|repos| - 1, repos[|repos| - 1])
  }

  lemma RepoBlocksStep(repos: seq<Repo>, i: nat)
    requires i < |repos|
    ensures RepoBlocks(repos[..i + 1]) == RepoBlocks(repos[..i]) + RepoBlock(i, repos[i])
  {
    assert repos[..i + 1][..i] == repos[..i];
  }

  /** The `forEach` over the top repositories, appending one block each. */
  method RenderRepoBlocks(repos: seq<Repo>) returns (blocks: string)
    ensures blocks == RepoBlocks(repos)
  {
    blocks := "";
    var i := 0;
    while i < |repos|
      invariant 0 <= i <= |repos|
      invariant blocks == RepoBlocks(repos[..i])
    {
      RepoBlocksStep(repos, i);
      blocks := blocks + RepoBlock(i, repos[i]);
      i := i + 1;
    }
    assert repos[..i] == repos;
  }

  function GithubTitle(username: string): string { "GitHub Stats for @" + username + ":" }
  function RepoCount(n: nat): string { NatToString(n) + " public repositories" }
  function StarCount(n: nat): string { NatToString(n) + " total stars" }

  /** The stats lines under the title. */
  function GithubCounts(g: GitHubStats): string {
    "\n\n"
      + "\U{1F4E6} " + RepoCount(g.repos) + "\n"
      + "\U{2B50} " + StarCount(g.stars) + "\n"
      + "\U{1F465} " + NatToString(g.followers) + " followers\n"
      + "\U{1F4BB} Top languages: " + g.languages + "\n\n"
      + "Latest repos:\n"
  }

  function GithubHeader(g: GitHubStats): string {
    GithubTitle(g.username) + GithubCounts(g)
  }

  function GithubText(github: Option<GitHubStats>, handle: string): string {
    match github
    case Some(g) => GithubHeader(g) + RepoBlocks(g.topRepos) + "\nFull profile: " + GithubUrl(g.username)
    case None => "Check out GitHub: " + GithubUrl(handle)
  }

  /** The `github` reply: the stats header, the repository blocks, the profile link. */
  method RenderGithub(github: Option<GitHubStats>, handle: string) returns (text: string)
    ensures text == GithubText(github, handle)
  {
    match github {
      case None =>
        text := "Check out GitHub: " + GithubUrl(handle);
      case Some(g) =>
        var blocks := RenderRepoBlocks(g.topRepos);
        text := GithubHeader(g) + blocks + "\nFull profile: " + GithubUrl(g.username);
    }
  }

  /** Every repository's address appears in the blocks. */
  lemma {:induction false} RepoBlocksListUrls(repos: seq<Repo>, k: nat)
    requires k < |repos|
    ensures Contains(RepoBlocks(repos), repos[k].url)
  {
    var n := |repos|;
    var front := RepoBlocks(repos[..n - 1]);
    var r := repos[n - 1];
    if k == n - 1 {
      var a := NatToString(k + 1) + ". " + r.name + " (" + LanguageOr(r.language) + ")\n" + DescriptionLine(r.description) + "   ";
      ContainsSelf(r.url);
      ContainsAfter(a, r.url, r.url);
      ContainsBefore(a + r.url, "\n", r.url);
      ContainsAfter(front, RepoBlock(k, r), r.url);
    } else {
      assert repos[..n - 1][k] == repos[k];
      RepoBlocksListUrls(repos[..n - 1], k);
      ContainsBefore(front, RepoBlock(n - 1, r), repos[k].url);
    }
  }

  /** Whatever the stats lines contain, the whole `github` reply contains. */
  lemma GithubCountsInReply(g: GitHubStats, handle: string, p: string)
    requires Contains(GithubCounts(g), p)
    ensures Contains(GithubText(Some(g), handle), p)
  {
    ContainsAfter(GithubTitle(g.username), GithubCounts(g), p);
    ContainsBefore(GithubHeader(g), RepoBlocks(g.topRepos), p);
    ContainsBefore(GithubHeader(g) + RepoBlocks(g.topRepos), "\nFull profile: ", p);
    ContainsBefore(GithubHeader(g) + RepoBlocks(g.topRepos) + "\nFull profile: ", GithubUrl(g.username), p);
  }

  /** The stats lines report the repository and star counts. */
  lemma GithubCountsShown(g: GitHubStats)
    ensures Contains(GithubCounts(g), RepoCount(g.repos))
    ensures Contains(GithubCounts(g), StarCount(g.stars))
  {
    var repos, stars := RepoCount(g.repos), StarCount(g.stars);
    var followers := "\U{1F465} " + NatToString(g.followers) + " followers\n";
    var languages := "\U{1F4BB} Top languages: " + g.languages + "\n\n";
    var s1 := "\n\n" + "\U{1F4E6} ";
    var s2 := s1 + repos;
    var s3 := s2 + "\n" + "\U{2B50} ";
    var s4 := s3 + stars;
    var s5 := s4 + "\n" + followers + languages;
    assert GithubCounts(g) == s5 + "Latest repos:\n";
    ContainsSelf(repos);
    ContainsAfter(s1, repos, repos);
    ContainsSelf(stars);
    ContainsAfter(s3, stars, stars);
    forall p | p == repos || p == stars
      ensures Contains(GithubCounts(g), p)
    {
      if p == repos {
        ContainsBefore(s2, "\n", p);
        ContainsBefore(s2 + "\n", "\U{2B50} ", p);
        ContainsBefore(s3, stars, p);
      }
      ContainsBefore(s4, "\n", p);
      ContainsBefore(s4 + "\n", followers, p);
      ContainsBefore(s4 + "\n" + followers, languages, p);
      ContainsBefore(s5, "Latest repos:\n", p);
    }
  }

  /**
   * With the slot filled, the `github` reply opens with the stats title, reports the
   * repository and star counts, lists the address of every top repository and ends
   * with the user's profile link; with the slot empty it is the profile link built
   * from the knowledge base's handle.
   */
  lemma GithubReplyShape(github: Option<GitHubStats>, handle: string)
    ensures github.None? ==> GithubText(github, handle) == "Check out GitHub: " + GithubUrl(handle)
    ensures github.Some? ==> StartsWith(GithubText(github, handle), GithubTitle(github.value.username))
    ensures github.Some? ==> Contains(GithubText(github, handle), RepoCount(github.value.repos))
    ensures github.Some? ==> Contains(GithubText(github, handle), StarCount(github.value.stars))
    ensures github.Some? ==> EndsWith(GithubText(github, handle), GithubUrl(github.value.username))
    ensures github.Some? ==> forall k :: 0 <= k < |github.value.topRepos| ==>
              Contains(GithubText(github, handle), github.value.topRepos[k].url)
  {
    if github.Some? {
      var g := github.value;
      GithubFilledShape(g, handle);
      forall k | 0 <= k < |g.topRepos|
        ensures Contains(GithubText(github, handle), g.topRepos[k].url)
      {
        GithubReplyListsUrl(g, handle, k);
      }
    }
  }

  lemma GithubFilledShape(g: GitHubStats, handle: string)
    ensures StartsWith(GithubText(Some(g), handle), GithubTitle(g.username))
    ensures Contains(GithubText(Some(g), handle), RepoCount(g.repos))
    ensures Contains(GithubText(Some(g), handle), StarCount(g.stars))
    ensures EndsWith(GithubText(Some(g), handle), GithubUrl(g.username))
  {
    GithubTitleFirst(g, handle);
    GithubCountsShown(g);
    GithubCountsInReply(g, handle, RepoCount(g.repos));
    GithubCountsInReply(g, handle, StarCount(g.stars));
    EndsWithAppend(GithubHeader(g) + RepoBlocks(g.topRepos) + "\nFull profile: ", GithubUrl(g.username));
  }

  lemma GithubTitleFirst(g: GitHubStats, handle: string)
    ensures StartsWith(GithubText(Some(g), handle), GithubTitle(g.username))
  {
    var title, header, blocks := GithubTitle(g.username), GithubHeader(g), RepoBlocks(g.topRepos);
    StartsWithAppend(title, GithubCounts(g));
    StartsWithExtend(header, title, blocks);
    StartsWithExtend(header + blocks, title, "\nFull profile: ");
    StartsWithExtend(header + blocks + "\nFull profile: ", title, GithubUrl(g.username));
  }

  lemma GithubReplyListsUrl(g: GitHubStats, handle: string, k: nat)
    requires k < |g.topRepos|
    ensures Contains(GithubText(Some(g), handle), g.topRepos[k].url)
  {
    RepoBlocksListUrls(g.topRepos, k);
    ContainsAfter(GithubHeader(g), RepoBlocks(g.topRepos), g.topRepos[k].url);
    ContainsBefore(GithubHeader(g) + RepoBlocks(g.topRepos), "\nFull profile: ", g.topRepos[k].url);
    ContainsBefore(GithubHeader(g) + RepoBlocks(g.topRepos) + "\nFull profile: ", GithubUrl(g.username), g.topRepos[k].url);
  }

  // ----- leetcode -----

  /** One solved-count line of the `leetcode` reply: its caption, the count and a line break. */
  function SolvedLine(caption: string, n: nat): string {
    caption + NatToString(n) + "\n"
  }

  function LeetcodeText(leetcode: Option<LeetCodeStats>, handle: string): string {
    match leetcode
    case Some(l) =>
      "LeetCode Stats for @" + l.username + ":\n\n"
        + SolvedLine("\U{2705} Total Solved: ", l.total)
        + SolvedLine("\U{1F7E2} Easy: ", l.easy)
        + SolvedLine("\U{1F7E1} Medium: ", l.medium)
        + SolvedLine("\U{1F534} Hard: ", l.hard) + "\n"
        + "Profile: " + LeetcodeUrl(l.username)
    case None => "LeetCode: " + LeetcodeUrl(handle)
  }

  /**
   * With the slot filled, the `leetcode` reply shows the total, easy, medium and hard
   * counts and ends with the cached user's profile link; with the slot empty it is the
   * profile link built from the knowledge base's handle.
   */
  lemma LeetcodeReplyShape(leetcode: Option<LeetCodeStats>, handle: string)
    ensures EndsWith(LeetcodeText(leetcode, handle), LeetcodeUrl(if leetcode.Some? then leetcode.value.username else handle))
    ensures leetcode.None? ==> LeetcodeText(leetcode, handle) == "LeetCode: " + LeetcodeUrl(handle)
    ensures leetcode.Some? ==>
              && Contains(LeetcodeText(leetcode, handle), SolvedLine("\U{2705} Total Solved: ", leetcode.value.total))
              && Contains(LeetcodeText(leetcode, handle), SolvedLine("\U{1F7E2} Easy: ", leetcode.value.easy))
              && Contains(LeetcodeText(leetcode, handle), SolvedLine("\U{1F7E1} Medium: ", leetcode.value.medium))
              && Contains(LeetcodeText(leetcode, handle), SolvedLine("\U{1F534} Hard: ", leetcode.value.hard))
  {
    match leetcode {
      case Some(l) =>
        var t := LeetcodeText(leetcode, handle);
        EndsWithAppend(t[..|t| - |LeetcodeUrl(l.username)|], LeetcodeUrl(l.username));
        var lines := [SolvedLine("\U{2705} Total Solved: ", l.total), SolvedLine("\U{1F7E2} Easy: ", l.easy),
                      SolvedLine("\U{1F7E1} Medium: ", l.medium), SolvedLine("\U{1F534} Hard: ", l.hard)];
        var s0 := "LeetCode Stats for @" + l.username + ":\n\n";
        var s1 := s0 + lines[0];
        var s2 := s1 + lines[1];
        var s3 := s2 + lines[2];
        var s4 := s3 + lines[3];
        assert t == s4 + "\n" + "Profile: " + LeetcodeUrl(l.username);
        forall k | 0 <= k < 4 ensures Contains(t, lines[k]) {
          ContainsSelf(lines[k]);
          if k == 0 {
            ContainsAfter(s0, lines[0], lines[0]);
          } else if k == 1 {
            ContainsAfter(s1, lines[1], lines[1]);
          } else if k == 2 {
            ContainsAfter(s2, lines[2], lines[2]);
          } else {
            ContainsAfter(s3, lines[3], lines[3]);
          }
          if k <= 0 { ContainsBefore(s1, lines[1], lines[k]); }
          if k <= 1 { ContainsBefore(s2, lines[2], lines[k]); }
          if k <= 2 { ContainsBefore(s3, lines[3], lines[k]); }
          ContainsBefore(s4, "\n", lines[k]);
          ContainsBefore(s4 + "\n", "Profile: ", lines[k]);
          ContainsBefore(s4 + "\n" + "Profile: ", LeetcodeUrl(l.username), lines[k]);
        }
      case None =>
        EndsWithAppend("LeetCode: ", LeetcodeUrl(handle));
    }
  }

  // ----- blogs -----

  function PostBlock(i: nat, p: Post): string {
    NatToString(i + 1) + ". " + p.title + "\n   " + p.link + "\n\n"
  }

  function PostBlocks(posts: seq<Post>): string {
    if posts == [] then ""
    else PostBlocks(posts[..|posts| - 1]) + PostBlock(|posts| - 1, posts[|posts| - 1])
  }

  lemma PostBlocksStep(posts: seq<Post>, i: nat)
    requires i < |posts|
    ensures PostBlocks(posts[..i + 1]) == PostBlocks(posts[..i]) + PostBlock(i, posts[i])
  {
    assert posts[..i + 1][..i] == posts[..i];
  }

  /** The `forEach` over the cached posts, appending one block each. */
  method RenderPostBlocks(posts: seq<Post>) returns (blocks: string)
    ensures blocks == PostBlocks(posts)
  {
    blocks := "";
    var i := 0;
    while i < |posts|
      invariant 0 <= i <= |posts|
      invariant blocks == PostBlocks(posts[..i])
    {
      PostBlocksStep(posts, i);
      blocks := blocks + PostBlock(i, posts[i]);
      i := i + 1;
    }
    assert posts[..i] == posts;
  }

  /** Whether the `blogs` reply lists posts: the slot is filled and has at least one. */
  predicate HasPosts(medium: Option<MediumStats>) {
    medium.Some? && |medium.value.posts| > 0
  }

  /** The `blogs` reply without its closing frequency sentence. */
  function BlogsBody(medium: Option<MediumStats>, handle: string): string {
    if HasPosts(medium) then "Latest blog posts:\n\n" + PostBlocks(medium.value.posts) + "Read more: " + MediumUrl(handle)
    else "Check out Medium: " + MediumUrl(handle)
  }

  /** The `blogs` reply: the body, then a blank line and a variation of `blog_frequency` (`undefined` when missing). */
  function BlogsText(medium: Option<MediumStats>, handle: string, frequency: Option<string>): string {
    BlogsBody(medium, handle) + ("\n\n" + Shown(frequency))
  }

  method RenderBlogs(medium: Option<MediumStats>, handle: string, frequency: Option<string>) returns (text: string)
    ensures text == BlogsText(medium, handle, frequency)
  {
    if medium.Some? && |medium.value.posts| > 0 {
      var blocks := RenderPostBlocks(medium.value.posts);
      text := "Latest blog posts:\n\n" + blocks + "Read more: " + MediumUrl(handle);
    } else {
      text := "Check out Medium: " + MediumUrl(handle);
    }
    text := text + ("\n\n" + Shown(frequency));
  }

  /** Every post's link appears in the blocks. */
  lemma {:induction false} PostBlocksListLinks(posts: seq<Post>, k: nat)
    requires k < |posts|
    ensures Contains(PostBlocks(posts), posts[k].link)
  {
    var n := |posts|;
    var front := PostBlocks(posts[..n - 1]);
    var p := posts[n - 1];
    if k == n - 1 {
      var a := NatToString(k + 1) + ". " + p.title + "\n   ";
      ContainsSelf(p.link);
      ContainsAfter(a, p.link, p.link);
      ContainsBefore(a + p.link, "\n\n", p.link);
      ContainsAfter(front, PostBlock(k, p), p.link);
    } else {
      assert posts[..n - 1][k] == posts[k];
      PostBlocksListLinks(posts[..n - 1], k);
      ContainsBefore(front, PostBlock(n - 1, p), posts[k].link);
    }
  }

  /**
   * The `blogs` reply always ends with the frequency sentence and links the Medium
   * profile of the handle; with cached posts it lists the link of every one of them,
   * and without it opens with the plain profile link.
   */
  lemma BlogsReplyShape(medium: Option<MediumStats>, handle: string, frequency: Option<string>)
    ensures EndsWith(BlogsText(medium, handle, frequency), "\n\n" + Shown(frequency))
    ensures Contains(BlogsText(medium, handle, frequency), MediumUrl(handle))
    ensures HasPosts(medium) ==> forall k :: 0 <= k < |medium.value.posts| ==>
              Contains(BlogsText(medium, handle, frequency), medium.value.posts[k].link)
    ensures !HasPosts(medium) ==> StartsWith(BlogsText(medium, handle, frequency), "Check out Medium: " + MediumUrl(handle))
  {
    var body := BlogsBody(medium, handle);
    var tail := "\n\n" + Shown(frequency);
    EndsWithAppend(body, tail);
    if HasPosts(medium) {
      var posts := medium.value.posts;
      var a := "Latest blog posts:\n\n" + PostBlocks(posts) + "Read more: ";
      ContainsSelf(MediumUrl(handle));
      ContainsAfter(a, MediumUrl(handle), MediumUrl(handle));
      ContainsBefore(body, tail, MediumUrl(handle));
      forall k | 0 <= k < |posts|
        ensures Contains(body + tail, posts[k].link)
      {
        PostBlocksListLinks(posts, k);
        ContainsAfter("Latest blog posts:\n\n", PostBlocks(posts), posts[k].link);
        ContainsBefore("Latest blog posts:\n\n" + PostBlocks(posts), "Read more: ", posts[k].link);
        ContainsBefore(a, MediumUrl(handle), posts[k].link);
        ContainsBefore(body, tail, posts[k].link);
      }
    } else {
      ContainsSelf(MediumUrl(handle));
      ContainsAfter("Check out Medium: ", MediumUrl(handle), MediumUrl(handle));
      ContainsBefore(body, tail, MediumUrl(handle));
      StartsWithAppend(body, tail);
    }
  }

  // ----- linkedin -----

  /** A count is shown only when truthy: known and not zero. */
  function CountLine(count: Option<nat>, prefix: string, suffix: string): string {
    if count.Some? && count.value > 0 then prefix + NatToString(count.value) + suffix else ""
  }

  function LatestPostText(post: Option<LinkedInPost>): string {
    match post
    case Some(p) =>
      "\U{1F4DD} Latest Post:\n"
        + "\"" + p.text + "\"\n\n"
        + "\U{2764}\U{FE0F} " + NatToString(p.likes) + " likes | "
        + "\U{1F4AC} " + NatToString(p.comments) + " comments | "
        + "\U{1F504} " + NatToString(p.shares) + " shares\n"
        + "\U{1F517} " + p.url + "\n\n"
    case None => ""
  }

  const Networking: string := "Connect for professional networking!"

  function LinkedinText(linkedin: Option<LinkedInData>, handle: string): string {
    match linkedin
    case Some(d) =>
      "LinkedIn Profile: " + d.profileUrl + "\n\n"
        + CountLine(d.connections, "\U{1F91D} ", "+ connections\n")
        + CountLine(d.followers, "\U{1F465} ", " followers\n\n")
        + LatestPostText(d.latestPost)
        + Networking
    case None => "LinkedIn: " + LinkedinUrl(handle) + "\n\n" + Networking
  }

  /**
   * The `linkedin` reply names the cached profile address, or the address built from
   * the knowledge base's handle, and always closes with the networking invitation.
   */
  lemma LinkedinReplyShape(linkedin: Option<LinkedInData>, handle: string)
    ensures Contains(LinkedinText(linkedin, handle), if linkedin.Some? then linkedin.value.profileUrl else LinkedinUrl(handle))
    ensures EndsWith(LinkedinText(linkedin, handle), Networking)
    ensures linkedin.None? ==> LinkedinText(linkedin, handle) == "LinkedIn: " + LinkedinUrl(handle) + "\n\n" + Networking
  {
    match linkedin {
      case Some(d) =>
        var rest := "\n\n" + CountLine(d.connections, "\U{1F91D} ", "+ connections\n")
          + CountLine(d.followers, "\U{1F465} ", " followers\n\n") + LatestPostText(d.latestPost);
        var t := LinkedinText(linkedin, handle);
        ContainsSelf(d.profileUrl);
        ContainsAfter("LinkedIn Profile: ", d.profileUrl, d.profileUrl);
        ContainsBefore("LinkedIn Profile: " + d.profileUrl, "\n\n", d.profileUrl);
        ContainsBefore("LinkedIn Profile: " + d.profileUrl + "\n\n", CountLine(d.connections, "\U{1F91D} ", "+ connections\n"), d.profileUrl);
        ContainsBefore("LinkedIn Profile: " + d.profileUrl + "\n\n" + CountLine(d.connections, "\U{1F91D} ", "+ connections\n"),
          CountLine(d.followers, "\U{1F465} ", " followers\n\n"), d.profileUrl);
        ContainsBefore("LinkedIn Profile: " + d.profileUrl + "\n\n" + CountLine(d.connections, "\U{1F91D} ", "+ connections\n")
          + CountLine(d.followers, "\U{1F465} ", " followers\n\n"), LatestPostText(d.latestPost), d.profileUrl);
        ContainsBefore(t[..|t| - |Networking|], Networking, d.profileUrl);
        EndsWithAppend(t[..|t| - |Networking|], Networking);
      case None =>
        ContainsSelf(LinkedinUrl(handle));
        ContainsAfter("LinkedIn: ", LinkedinUrl(handle), LinkedinUrl(handle));
        ContainsBefore("LinkedIn: " + LinkedinUrl(handle), "\n\n", LinkedinUrl(handle));
        ContainsBefore("LinkedIn: " + LinkedinUrl(handle) + "\n\n", Networking, LinkedinUrl(handle));
        EndsWithAppend("LinkedIn: " + LinkedinUrl(handle) + "\n\n", Networking);
    }
  }

  /** Absent and zero counts are both left out of the `linkedin` reply, as is a missing latest post. */
  lemma ZeroCountHidden(d: LinkedInData, handle: string)
    requires d.connections.None? || d.connections == Some(0)
    requires d.followers.None? || d.followers == Some(0)
    requires d.latestPost.None?
    ensures LinkedinText(Some(d), handle) == "LinkedIn Profile: " + d.profileUrl + "\n\n" + Networking
  {
  }

  // ----- inappropriate -----

  /**
   * The refusal categories in the order the server tests them: a category applies
   * when one of its words occurs in the message, ignoring ASCII case.
   */
  const RefusalCategories: seq<(seq<string>, string)> := [
    (["hack"], "inappropriate_hacking"),
    (["homework"], "homework"),
    (["date", "marry"], "dating"),
    (["api", "password", "bank"], "api_keys")
  ]

  predicate MentionsAnyOf(message: string, words: seq<string>) {
    exists w :: w in words && ContainsIgnoreCase(message, w)
  }

  /** The response key of the first category that applies, if any. */
  function FirstCategory(categories: seq<(seq<string>, string)>, message: string): (r: Option<string>)
    ensures r.None? <==> forall k :: 0 <= k < |categories| ==> !MentionsAnyOf(message, categories[k].0)
  {
    if categories == [] then None
    else if MentionsAnyOf(message, categories[0].0) then Some(categories[0].1)
    else
      var r := FirstCategory(categories[1..], message);
      assert forall k :: 1 <= k < |categories| ==> categories[k] == categories[1..][k - 1];
      r
  }

  /** The `inappropriate` branch as written: a chain of four case-insensitive tests, then the fallback. */
  function InappropriateReply(kb: KB, message: string, draw: nat): Reply {
    if ContainsIgnoreCase(message, "hack") then OfValue(GetResp(kb, "inappropriate_hacking", draw))
    else if ContainsIgnoreCase(message, "homework") then OfValue(GetResp(kb, "homework", draw))
    else if ContainsIgnoreCase(message, "date") || ContainsIgnoreCase(message, "marry") then OfValue(GetResp(kb, "dating", draw))
    else if ContainsIgnoreCase(message, "api") || ContainsIgnoreCase(message, "password") || ContainsIgnoreCase(message, "bank") then
      OfValue(GetResp(kb, "api_keys", draw))
    else Fallback(kb)
  }

  lemma MentionsOne(message: string, w: string)
    ensures MentionsAnyOf(message, [w]) <==> ContainsIgnoreCase(message, w)
  {
    if ContainsIgnoreCase(message, w) {
      assert w in [w];
    }
  }

  lemma MentionsTwo(message: string, w1: string, w2: string)
    ensures MentionsAnyOf(message, [w1, w2]) <==> ContainsIgnoreCase(message, w1) || ContainsIgnoreCase(message, w2)
  {
    if ContainsIgnoreCase(message, w1) {
      assert w1 in [w1, w2];
    }
    if ContainsIgnoreCase(message, w2) {
      assert w2 in [w1, w2];
    }
  }

  lemma MentionsThree(message: string, w1: string, w2: string, w3: string)
    ensures MentionsAnyOf(message, [w1, w2, w3])
        <==> ContainsIgnoreCase(message, w1) || ContainsIgnoreCase(message, w2) || ContainsIgnoreCase(message, w3)
  {
    if ContainsIgnoreCase(message, w1) {
      assert w1 in [w1, w2, w3];
    }
    if ContainsIgnoreCase(message, w2) {
      assert w2 in [w1, w2, w3];
    }
    if ContainsIgnoreCase(message, w3) {
      assert w3 in [w1, w2, w3];
    }
  }

  /** A table of four categories is searched in order. */
  lemma FirstOfFour(c0: (seq<string>, string), c1: (seq<string>, string), c2: (seq<string>, string),
                    c3: (seq<string>, string), message: string)
    ensures FirstCategory([c0, c1, c2, c3], message)
      == if MentionsAnyOf(message, c0.0) then Some(c0.1)
         else if MentionsAnyOf(message, c1.0) then Some(c1.1)
         else if MentionsAnyOf(message, c2.0) then Some(c2.1)
         else if MentionsAnyOf(message, c3.0) then Some(c3.1)
         else None
  {
    assert [c3][1..] == [];
    var last := FirstCategory([c3], message);
    assert last == if MentionsAnyOf(message, c3.0) then Some(c3.1) else None;
    assert [c2, c3][1..] == [c3];
    assert FirstCategory([c2, c3], message) == if MentionsAnyOf(message, c2.0) then Some(c2.1) else last;
    assert [c1, c2, c3][1..] == [c2, c3];
    assert [c0, c1, c2, c3][1..] == [c1, c2, c3];
  }

  /**
   * The chain answers with the first category, in table order, that the message
   * mentions, and with the fallback when it mentions none.
   */
  lemma InappropriateByFirstCategory(kb: KB, message: string, draw: nat)
    ensures InappropriateReply(kb, message, draw)
      == match FirstCategory(RefusalCategories, message)
         case Some(key) => OfValue(GetResp(kb, key, draw))
         case None => Fallback(kb)
  {
    FirstOfFour(RefusalCategories[0], RefusalCategories[1], RefusalCategories[2], RefusalCategories[3], message);
    MentionsOne(message, "hack");
    MentionsOne(message, "homework");
    MentionsTwo(message, "date", "marry");
    MentionsThree(message, "api", "password", "bank");
  }

  // ----- cgpa -----

  /** `KB.education || KB.personal.education || []`: an array, even empty, is truthy. */
  function EduRecords(kb: KB): seq<EduRecord> {
    if kb.education.Some? then kb.education.value
    else if kb.personalEducation.Some? then kb.personalEducation.value
    else []
  }

  const Bachelor: string := "Bachelor of Engineering"

  /** The index of the record `edu.find(e => e.level === "Bachelor of Engineering")` returns. */
  function FindBachelor(edu: seq<EduRecord>): (r: Option<nat>)
    ensures r.None? <==> forall i :: 0 <= i < |edu| ==> edu[i].level != Some(Bachelor)
    ensures r.Some? ==> r.value < |edu| && edu[r.value].level == Some(Bachelor)
    ensures r.Some? ==> forall j :: 0 <= j < r.value ==> edu[j].level != Some(Bachelor)
  {
    if edu == [] then None
    else if edu[0].level == Some(Bachelor) then Some(0)
    else
      var r := FindBachelor(edu[1..]);
      assert forall i :: 1 <= i < |edu| ==> edu[i] == edu[1..][i - 1];
      if r.Some? then Some(r.value + 1) else None
  }

  const NoEducation: string := "Education data not found in knowledge base."

  function GradeLines(edu: seq<EduRecord>): string {
    (if |edu| > 1 then "\U{1F4DA} 12th Grade: " + Shown(edu[1].percentage) + "% (2020)\n" else "")
      + (if |edu| > 2 then "\U{1F4D6} 10th Grade: " + Shown(edu[2].percentage) + "% (2018)" else "")
  }

  function CgpaText(edu: seq<EduRecord>): string {
    match FindBachelor(edu)
    case None => NoEducation
    case Some(b) =>
      "Academic Performance:\n\n" + "\U{1F393} B.E Computer Science: " + Shown(edu[b].cgpa) + " CGPA (2024)\n"
        + GradeLines(edu)
  }

  /**
   * The `cgpa` reply reports missing data exactly when no record is the bachelor's
   * degree; otherwise it shows the CGPA of the first such record.
   */
  lemma CgpaShape(edu: seq<EduRecord>)
    ensures CgpaText(edu) == NoEducation <==> forall i :: 0 <= i < |edu| ==> edu[i].level != Some(Bachelor)
    ensures FindBachelor(edu).Some? ==> Contains(CgpaText(edu), Shown(edu[FindBachelor(edu).value].cgpa))
  {
    if FindBachelor(edu).Some? {
      var cgpa := Shown(edu[FindBachelor(edu).value].cgpa);
      var a := "Academic Performance:\n\n" + "\U{1F393} B.E Computer Science: ";
      ContainsSelf(cgpa);
      ContainsAfter(a, cgpa, cgpa);
      ContainsBefore(a + cgpa, " CGPA (2024)\n", cgpa);
      ContainsBefore(a + cgpa + " CGPA (2024)\n", GradeLines(edu), cgpa);
      StartsWithAppend("Academic Performance:\n\n", "\U{1F393} B.E Computer Science: " + cgpa + " CGPA (2024)\n" + GradeLines(edu));
      assert CgpaText(edu)[0] == 'A';
    }
  }

  // ----- the switch -----

  /** `generateResponse(intent, message)` with `draw` the random draw of its `getResp` call. */
  function Response(kb: KB, snap: Snapshot, intent: Intent, message: string, draw: nat): Reply {
    match intent
    case Projects =>
      (match GetResp(kb, "projects_latest", draw)
       case None => TypeError
       case Some(t) => Text(ProjectsText(t, snap.github, kb.social.github)))
    case Github => Text(GithubText(snap.github, kb.social.github))
    case Leetcode => Text(LeetcodeText(snap.leetcode, kb.social.leetcode))
    case Blogs => Text(BlogsText(snap.medium, kb.social.medium, GetResp(kb, "blog_frequency", draw)))
    case Linkedin => Text(LinkedinText(snap.linkedin, kb.social.linkedin))
    case Inappropriate => InappropriateReply(kb, message, draw)
    case Cgpa => Text(CgpaText(EduRecords(kb)))
    case _ => OfValue(GetResp(kb, ResponseKey(intent), draw))
  }

  /** `generateResponse`, with its two `forEach` loops spelled out. */
  method GenerateResponse(kb: KB, snap: Snapshot, intent: Intent, message: string, draw: nat) returns (reply: Reply)
    ensures reply == Response(kb, snap, intent, message, draw)
  {
    match intent {
      case Github =>
        var text := RenderGithub(snap.github, kb.social.github);
        reply := Text(text);
      case Blogs =>
        var text := RenderBlogs(snap.medium, kb.social.medium, GetResp(kb, "blog_frequency", draw));
        reply := Text(text);
      case _ =>
        reply := Response(kb, snap, intent, message, draw);
    }
  }

  /**
   * A plain intent answers with a phrasing of the response stored under its key,
   * and with `undefined` when there is no such response or it has no phrasing.
   */
  lemma PlainIntentIsStoredPhrasing(kb: KB, snap: Snapshot, intent: Intent, message: string, draw: nat)
    requires !Composed(intent)
    ensures var v := Lookup(kb.responses, ResponseKey(intent));
      var r := Response(kb, snap, intent, message, draw);
      && (r.Text? <==> v.Some? && Phrasings(v.value) != [])
      && (r.Text? ==> r.text in Phrasings(v.value))
      && (!r.Text? ==> r.Missing?)
  {
    var v := Lookup(kb.responses, ResponseKey(intent));
    PlainResponse(kb, snap, intent, message, draw);
    PickedPhrasing(v, draw);
  }

  /** A plain intent's reply is the variation picked from its stored response. */
  lemma PlainResponse(kb: KB, snap: Snapshot, intent: Intent, message: string, draw: nat)
    requires !Composed(intent)
    ensures Response(kb, snap, intent, message, draw) == OfValue(PickVariation(Lookup(kb.responses, ResponseKey(intent)), draw))
  {
  }

  /** A variation is picked exactly when a phrasing is stored, and it is one of them. */
  lemma PickedPhrasing(v: Option<Variations>, draw: nat)
    ensures PickVariation(v, draw).Some? <==> v.Some? && Phrasings(v.value) != []
    ensures PickVariation(v, draw).Some? ==> PickVariation(v, draw).value in Phrasings(v.value)
  {
  }

  /** Only `projects` can throw, and only when its template is missing. */
  lemma OnlyProjectsThrows(kb: KB, snap: Snapshot, intent: Intent, message: string, draw: nat)
    ensures Response(kb, snap, intent, message, draw).TypeError?
        <==> intent == Projects && GetResp(kb, "projects_latest", draw).None?
  {
  }
}
