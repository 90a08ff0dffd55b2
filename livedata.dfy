/**
 * The module-level `cache` of server.js: one slot per profile service and the time
 * of the last fetch. `initData` overwrites every slot with what its fetch settled
 * to; the chat handler refreshes when the last fetch is missing or an hour old.
 */
module LiveData {
  import opened Wrappers
  import opened ProfileData

  /** What `Promise.allSettled` reports for one fetch: fulfilled with a value (possibly `null`) or rejected. */
  datatype Settled<T> = Fulfilled(value: Option<T>) | Rejected

  /** `status === 'fulfilled' ? value : null`. */
  function SlotOf<T>(s: Settled<T>): (r: Option<T>)
    ensures r.Some? <==> s.Fulfilled? && s.value.Some?
    ensures r.Some? ==> r == s.value
  {
    match s
    case Fulfilled(v) => v
    case Rejected => None
  }

  /** One hour, in milliseconds. */
  const RefreshInterval: int := 3600000

  /** The slots the response generator reads. */
  datatype Snapshot = Snapshot(
    github: Option<GitHubStats>, leetcode: Option<LeetCodeStats>,
    medium: Option<MediumStats>, linkedin: Option<LinkedInData>)

  class Cache {
    var github: Option<GitHubStats>
    var leetcode: Option<LeetCodeStats>
    var medium: Option<MediumStats>
    var linkedin: Option<LinkedInData>
    /** Milliseconds since the epoch of the last `initData`, or `null` before the first. */
    var lastFetch: Option<int>

    /** The initial `cache` object: every slot `null` (the LinkedIn slot is not even present). */
    constructor ()
      ensures github.None? && leetcode.None? && medium.None? && linkedin.None? && lastFetch.None?
    {
      github, leetcode, medium, linkedin := None, None, None, None;
      lastFetch := None;
    }

    /** `!cache.lastFetch || Date.now() - cache.lastFetch > 3600000`. */
    predicate NeedsRefresh(now: int)
      reads this
    {
      lastFetch.None? || now - lastFetch.value > RefreshInterval
    }

    function Current(): Snapshot
      reads this
    {
      Snapshot(github, leetcode, medium, linkedin)
    }

    /**
     * `initData`, after the four fetches settled: every slot is overwritten, a failed
     * fetch leaving `null`, and the fetch time is recorded. No refresh is due again
     * for an hour.
     */
    method InitData(gh: Settled<GitHubStats>, lc: Settled<LeetCodeStats>, md: Settled<MediumStats>,
                    li: Settled<LinkedInData>, now: int)
      modifies this
      ensures github == SlotOf(gh) && leetcode == SlotOf(lc) && medium == SlotOf(md) && linkedin == SlotOf(li)
      ensures lastFetch == Some(now)
      ensures forall t :: t <= now + RefreshInterval ==> !NeedsRefresh(t)
    {
      github := SlotOf(gh);
      leetcode := SlotOf(lc);
      medium := SlotOf(md);
      linkedin := SlotOf(li);
      lastFetch := Some(now);
    }

    /** The handler's check: refresh first when needed, then read the slots. */
    method RefreshIfStale(gh: Settled<GitHubStats>, lc: Settled<LeetCodeStats>, md: Settled<MediumStats>,
                          li: Settled<LinkedInData>, now: int) returns (snap: Snapshot)
      modifies this
      ensures old(NeedsRefresh(now)) ==> snap == Snapshot(SlotOf(gh), SlotOf(lc), SlotOf(md), SlotOf(li))
                                         && lastFetch == Some(now)
      ensures !old(NeedsRefresh(now)) ==> unchanged(this)
      ensures snap == Current() && !NeedsRefresh(now)
    {
      if NeedsRefresh(now) {
        InitData(gh, lc, md, li, now);
      }
      snap := Current();
    }
  }
}
