/**
 * The records the chat server keeps about its owner's public profiles, and the pure
 * shaping each fetch applies to what the remote service returned (server.js,
 * `fetchGitHub`, `fetchLeetCode`, `fetchMedium`, `fetchLinkedInActivity`). The HTTP
 * calls are not modelled: their decoded answers are the inputs here.
 */
module ProfileData {
  import opened Wrappers
  import opened Text

  // ----- GitHub -----

  /** A repository as the GitHub API lists it; `language` is `null` when GitHub detected none. */
  datatype Repo = Repo(name: string, description: Option<string>, url: string, stars: nat, language: Option<string>)

  /** The user record of the GitHub API. */
  datatype GitHubUser = GitHubUser(login: string, publicRepos: nat, followers: nat)

  /** What the cache keeps about GitHub. */
  datatype GitHubStats = GitHubStats(
    username: string, repos: nat, stars: nat, followers: nat, languages: string, topRepos: seq<Repo>)

  /** A language counts only when it is truthy: present and not the empty string. */
  predicate HasLanguage(r: Repo) {
    r.language.Some? && r.language.value != ""
  }

  /** The count recorded for `lang` in an association list, or 0. */
  function CountOf(counts: seq<(string, nat)>, lang: string): nat {
    if counts == [] then 0
    else if counts[0].0 == lang then counts[0].1
    else CountOf(counts[1..], lang)
  }

  /** The languages of an association list, in order. */
  function Keys(counts: seq<(string, nat)>): (r: seq<string>)
    ensures |r| == |counts|
    ensures forall i :: 0 <= i < |counts| ==> r[i] == counts[i].0
  {
    if counts == [] then [] else [counts[0].0] + Keys(counts[1..])
  }

  /** `languages[lang] = (languages[lang] || 0) + 1`: an existing key keeps its place, a new one goes last. */
  function Tally(counts: seq<(string, nat)>, lang: string): (r: seq<(string, nat)>)
    ensures forall m :: m in Keys(r) <==> m in Keys(counts) || m == lang
  {
    if counts == [] then [(lang, 1)]
    else if counts[0].0 == lang then [(lang, counts[0].1 + 1)] + counts[1..]
    else [counts[0]] + Tally(counts[1..], lang)
  }

  lemma {:induction false} TallyCount(counts: seq<(string, nat)>, lang: string, m: string)
    ensures CountOf(Tally(counts, lang), m) == CountOf(counts, m) + (if m == lang then 1 else 0)
  {
    if counts != [] && counts[0].0 != lang {
      TallyCount(counts[1..], lang, m);
    }
  }

  /** No language appears twice in an association list. */
  predicate DistinctKeys(counts: seq<(string, nat)>) {
    forall i, j :: 0 <= i < j < |counts| ==> counts[i].0 != counts[j].0
  }

  lemma {:induction false} TallyDistinct(counts: seq<(string, nat)>, lang: string)
    requires DistinctKeys(counts)
    ensures DistinctKeys(Tally(counts, lang))
  {
    var r := Tally(counts, lang);
    if counts == [] {
    } else if counts[0].0 == lang {
      forall i, j | 0 <= i < j < |r| ensures r[i].0 != r[j].0 {
        assert r[i].0 == counts[i].0 && r[j].0 == counts[j].0;
      }
    } else {
      var rest := Tally(counts[1..], lang);
      TallyDistinct(counts[1..], lang);
      forall j | 0 <= j < |rest| ensures rest[j].0 != counts[0].0 {
        assert rest[j].0 in Keys(rest);
        if rest[j].0 in Keys(counts[1..]) {
          var k :| 0 <= k < |counts[1..]| && Keys(counts[1..])[k] == rest[j].0;
          assert counts[k + 1].0 == rest[j].0;
        }
      }
      forall i, j | 0 <= i < j < |r| ensures r[i].0 != r[j].0 {
        assert r[j] == rest[j - 1];
        if i > 0 {
          assert r[i] == rest[i - 1];
        }
      }
    }
  }

  /** The language counts after tallying `repos` in order, keys in first-seen order. */
  function LanguageCounts(repos: seq<Repo>): seq<(string, nat)> {
    if repos == [] then []
    else
      var prev := LanguageCounts(repos[..|repos| - 1]);
      var last := repos[|repos| - 1];
      if HasLanguage(last) then Tally(prev, last.language.value) else prev
  }

  /** The number of repositories whose language is `lang`. */
  function Uses(repos: seq<Repo>, lang: string): nat {
    if repos == [] then 0
    else Uses(repos[..|repos| - 1], lang) + (if HasLanguage(repos[|repos| - 1]) && repos[|repos| - 1].language.value == lang then 1 else 0)
  }

  /** Each language's recorded count is the number of repositories written in it. */
  lemma {:induction false} LanguageCountsCorrect(repos: seq<Repo>, lang: string)
    ensures CountOf(LanguageCounts(repos), lang) == Uses(repos, lang)
  {
    if repos != [] {
      LanguageCountsCorrect(repos[..|repos| - 1], lang);
      var last := repos[|repos| - 1];
      if HasLanguage(last) {
        TallyCount(LanguageCounts(repos[..|repos| - 1]), last.language.value, lang);
      }
    }
  }

  /** No language is listed twice. */
  lemma {:induction false} LanguageCountsDistinct(repos: seq<Repo>)
    ensures DistinctKeys(LanguageCounts(repos))
  {
    if repos != [] {
      LanguageCountsDistinct(repos[..|repos| - 1]);
      var last := repos[|repos| - 1];
      if HasLanguage(last) {
        TallyDistinct(LanguageCounts(repos[..|repos| - 1]), last.language.value);
      }
    }
  }

  /** The `forEach` over the repositories that fills the `languages` dictionary. */
  method CountLanguages(repos: seq<Repo>) returns (counts: seq<(string, nat)>)
    ensures counts == LanguageCounts(repos)
  {
    counts := [];
    var i := 0;
    while i < |repos|
      invariant 0 <= i <= |repos|
      invariant counts == LanguageCounts(repos[..i])
    {
      assert repos[..i + 1][..i] == repos[..i];
      var r := repos[i];
      if r.language.Some? && r.language.value != "" {
        counts := Tally(counts, r.language.value);
      }
      i := i + 1;
    }
    assert repos[..i] == repos;
  }

  // ----- Ordering languages by count -----

  predicate SortedDesc(xs: seq<(string, nat)>) {
    forall i, j :: 0 <= i < j < |xs| ==> xs[i].1 >= xs[j].1
  }

  /** The entries of `xs` whose count is `c`, in order. */
  function WithCount(xs: seq<(string, nat)>, c: nat): seq<(string, nat)> {
    if xs == [] then []
    else (if xs[0].1 == c then [xs[0]] else []) + WithCount(xs[1..], c)
  }

  /** Inserts `e` after every entry whose count is at least its own. */
  function InsertDesc(e: (string, nat), xs: seq<(string, nat)>): (r: seq<(string, nat)>)
    ensures |r| == |xs| + 1
    ensures multiset(r) == multiset(xs) + multiset{e}
  {
    if xs == [] then [e]
    else if xs[0].1 >= e.1 then
      assert xs == [xs[0]] + xs[1..];
      [xs[0]] + InsertDesc(e, xs[1..])
    else [e] + xs
  }

  lemma {:induction false} InsertDescSorted(e: (string, nat), xs: seq<(string, nat)>)
    requires SortedDesc(xs)
    ensures SortedDesc(InsertDesc(e, xs))
  {
    if xs != [] && xs[0].1 >= e.1 {
      InsertDescSorted(e, xs[1..]);
      var r := InsertDesc(e, xs[1..]);
      forall x | x in r ensures x.1 <= xs[0].1 {
        assert x in multiset(r);
        if x != e {
          assert x in multiset(xs[1..]);
        }
      }
    }
  }

  lemma {:induction false} WithCountNone(xs: seq<(string, nat)>, c: nat)
    requires forall i :: 0 <= i < |xs| ==> xs[i].1 < c
    ensures WithCount(xs, c) == []
  {
    if xs != [] {
      WithCountNone(xs[1..], c);
    }
  }

  lemma {:induction false} WithCountAppend(xs: seq<(string, nat)>, e: (string, nat), c: nat)
    ensures WithCount(xs + [e], c) == WithCount(xs, c) + (if e.1 == c then [e] else [])
  {
    var t := if e.1 == c then [e] else [];
    if xs == [] {
      assert [] + [e] == [e];
      AppendEmpty(t);
    } else {
      assert (xs + [e])[0] == xs[0];
      assert (xs + [e])[1..] == xs[1..] + [e];
      WithCountAppend(xs[1..], e, c);
      AppendAssoc(if xs[0].1 == c then [xs[0]] else [], WithCount(xs[1..], c), t);
    }
  }

  /** Insertion keeps `e` behind every entry with the same count. */
  lemma {:induction false} InsertDescStable(e: (string, nat), xs: seq<(string, nat)>, c: nat)
    requires SortedDesc(xs)
    ensures WithCount(InsertDesc(e, xs), c) == WithCount(xs, c) + (if e.1 == c then [e] else [])
  {
    var t := if e.1 == c then [e] else [];
    if xs == [] {
      WithCountCons(e, [], c);
      AppendEmpty(t);
    } else if xs[0].1 >= e.1 {
      var r := InsertDesc(e, xs[1..]);
      assert InsertDesc(e, xs) == [xs[0]] + r;
      SortedTail(xs);
      InsertDescStable(e, xs[1..], c);
      WithCountCons(xs[0], r, c);
      WithCountCons(xs[0], xs[1..], c);
      ConsTail(xs);
      AppendAssoc(if xs[0].1 == c then [xs[0]] else [], WithCount(xs[1..], c), t);
    } else {
      assert InsertDesc(e, xs) == [e] + xs;
      WithCountCons(e, xs, c);
      if e.1 == c {
        WithCountNone(xs, c);
      }
      AppendEmpty(t);
      AppendEmpty(WithCount(xs, c));
    }
  }

  /** The entries with count `c` of `[x] + r`: `x` if it has that count, then those of `r`. */
  lemma WithCountCons(x: (string, nat), r: seq<(string, nat)>, c: nat)
    ensures WithCount([x] + r, c) == (if x.1 == c then [x] else []) + WithCount(r, c)
  {
    assert ([x] + r)[1..] == r;
  }

  lemma SortedTail(xs: seq<(string, nat)>)
    requires xs != [] && SortedDesc(xs)
    ensures SortedDesc(xs[1..])
  {
    forall i, j | 0 <= i < j < |xs| - 1 ensures xs[1..][i].1 >= xs[1..][j].1 {
      assert xs[1..][i] == xs[i + 1] && xs[1..][j] == xs[j + 1];
    }
  }

  /** A stable sort by descending count, as the engine's `Array.prototype.sort` is. */
  function SortDesc(xs: seq<(string, nat)>): (r: seq<(string, nat)>)
    ensures |r| == |xs|
    ensures multiset(r) == multiset(xs) && SortedDesc(r)
  {
    if xs == [] then []
    else
      var init := xs[..|xs| - 1];
      assert xs == init + [xs[|xs| - 1]];
      InsertDescSorted(xs[|xs| - 1], SortDesc(init));
      InsertDesc(xs[|xs| - 1], SortDesc(init))
  }

  /** Stability: the entries with any one count keep their original order. */
  lemma {:induction false} SortDescStable(xs: seq<(string, nat)>, c: nat)
    ensures WithCount(SortDesc(xs), c) == WithCount(xs, c)
  {
    if xs != [] {
      var init, e := xs[..|xs| - 1], xs[|xs| - 1];
      var sorted := SortDesc(init);
      assert SortDesc(xs) == InsertDesc(e, sorted);
      SortDescStable(init, c);
      InsertDescStable(e, sorted, c);
      InitLast(xs);
      WithCountAppend(init, e, c);
    }
  }

  /** The names of the (at most) three most used languages. */
  function TopLanguages(counts: seq<(string, nat)>): (r: seq<string>)
    ensures |r| == if |counts| < 3 then |counts| else 3
  {
    var sorted := SortDesc(counts);
    Keys(sorted[..if |sorted| < 3 then |sorted| else 3])
  }

  /** No language left out of the top three is used more than one that made it. */
  lemma TopLanguagesAreTop(counts: seq<(string, nat)>, i: nat, j: nat)
    requires i < |TopLanguages(counts)| && 3 <= j < |counts|
    ensures SortDesc(counts)[i].1 >= SortDesc(counts)[j].1
    ensures TopLanguages(counts)[i] == SortDesc(counts)[i].0
  {
  }

  /** The sum of the stars of the repositories. */
  function TotalStars(repos: seq<Repo>): nat {
    if repos == [] then 0 else repos[0].stars + TotalStars(repos[1..])
  }

  lemma {:induction false} TotalStarsAppend(a: seq<Repo>, b: seq<Repo>)
    ensures TotalStars(a + b) == TotalStars(a) + TotalStars(b)
  {
    if a != [] {
      assert (a + b)[1..] == a[1..] + b;
      TotalStarsAppend(a[1..], b);
    } else {
      assert a + b == b;
    }
  }

  /** The record `fetchGitHub` returns for a user and the repositories it listed. */
  function ShapeGitHub(user: GitHubUser, repos: seq<Repo>): (g: GitHubStats)
    ensures g.username == user.login && g.repos == user.publicRepos && g.followers == user.followers
    ensures g.stars == TotalStars(repos)
    ensures g.topRepos == repos[..if |repos| < 2 then |repos| else 2]
    ensures g.languages == Join(TopLanguages(LanguageCounts(repos)), ", ")
  {
    var counts := LanguageCounts(repos);
    GitHubStats(user.login, user.publicRepos, TotalStars(repos), user.followers,
                Join(TopLanguages(counts), ", "), repos[..if |repos| < 2 then |repos| else 2])
  }

  // ----- LeetCode -----

  /** One `acSubmissionNum` entry. */
  datatype Submission = Submission(difficulty: string, count: nat)

  /** The `matchedUser` of the LeetCode answer. */
  datatype LeetCodeUser = LeetCodeUser(username: string, stats: seq<Submission>)

  datatype LeetCodeStats = LeetCodeStats(username: string, total: nat, easy: nat, medium: nat, hard: nat)

  /** `stats.find(s => s.difficulty === d)?.count || 0`. */
  function SolvedCount(stats: seq<Submission>, d: string): nat {
    if stats == [] then 0
    else if stats[0].difficulty == d then stats[0].count
    else SolvedCount(stats[1..], d)
  }

  /** The count is that of the first entry with the difficulty. */
  lemma {:induction false} SolvedCountFirst(stats: seq<Submission>, d: string, i: nat)
    requires i < |stats| && stats[i].difficulty == d
    requires forall j :: 0 <= j < i ==> stats[j].difficulty != d
    ensures SolvedCount(stats, d) == stats[i].count
  {
    if i > 0 {
      SolvedCountFirst(stats[1..], d, i - 1);
    }
  }

  /** A missing difficulty counts 0. */
  lemma {:induction false} SolvedCountMissing(stats: seq<Submission>, d: string)
    requires forall j :: 0 <= j < |stats| ==> stats[j].difficulty != d
    ensures SolvedCount(stats, d) == 0
  {
    if stats != [] {
      SolvedCountMissing(stats[1..], d);
    }
  }

  /** `fetchLeetCode` after the request: nothing without a matched user. */
  function ShapeLeetCode(matched: Option<LeetCodeUser>): (r: Option<LeetCodeStats>)
    ensures r.Some? <==> matched.Some?
    ensures r.Some? ==> r.value.username == matched.value.username
    ensures r.Some? ==> r.value.total == SolvedCount(matched.value.stats, "All")
                        && r.value.easy == SolvedCount(matched.value.stats, "Easy")
                        && r.value.medium == SolvedCount(matched.value.stats, "Medium")
                        && r.value.hard == SolvedCount(matched.value.stats, "Hard")
  {
    match matched
    case None => None
    case Some(u) =>
      Some(LeetCodeStats(u.username, SolvedCount(u.stats, "All"), SolvedCount(u.stats, "Easy"),
                         SolvedCount(u.stats, "Medium"), SolvedCount(u.stats, "Hard")))
  }

  // ----- Medium -----

  /** An item of the RSS-to-JSON feed. */
  datatype FeedItem = FeedItem(title: string, link: string, pubDate: string)

  datatype Post = Post(title: string, link: string, date: string)

  datatype MediumStats = MediumStats(posts: seq<Post>, latest: Option<FeedItem>)

  function ToPost(item: FeedItem): Post {
    Post(item.title, item.link, item.pubDate)
  }

  /**
   * `fetchMedium` after the request: with a feed, its first five items as posts and
   * the first item (absent for an empty feed) as the latest.
   */
  function ShapeMedium(items: Option<seq<FeedItem>>): (r: Option<MediumStats>)
    ensures r.Some? <==> items.Some?
    ensures r.Some? ==> |r.value.posts| == (if |items.value| < 5 then |items.value| else 5)
    ensures r.Some? ==> forall i :: 0 <= i < |r.value.posts| ==> r.value.posts[i] == ToPost(items.value[i])
    ensures r.Some? ==> (r.value.latest.Some? <==> items.value != [])
  {
    match items
    case None => None
    case Some(xs) =>
      var n := if |xs| < 5 then |xs| else 5;
      Some(MediumStats(seq(n, i requires 0 <= i < n => ToPost(xs[i])), if xs == [] then None else Some(xs[0])))
  }

  // ----- LinkedIn -----

  datatype LinkedInPost = LinkedInPost(text: string, likes: nat, comments: nat, shares: nat, url: string)

  /**
   * LinkedIn data as kept in the knowledge base. The counts are `null` when unknown;
   * like 0, an absent count is falsy and is not shown.
   */
  datatype LinkedInData = LinkedInData(
    profileUrl: string, latestPost: Option<LinkedInPost>, connections: Option<nat>, followers: Option<nat>)

  /** `fetchLinkedInActivity`: the stored data if any, otherwise the bare profile link. */
  function LinkedInActivity(stored: Option<LinkedInData>, handle: string): (r: LinkedInData)
    ensures stored.Some? ==> r == stored.value
    ensures stored.None? ==> (r.profileUrl == "https://linkedin.com/in/" + handle
                              && r.latestPost.None? && r.connections.None? && r.followers.None?)
  {
    match stored
    case Some(d) => d
    case None => LinkedInData("https://linkedin.com/in/" + handle, None, None, None)
  }
}
