/**
 * The browser-side scan cache and scan history, two bounded lists kept in
 * persistent storage. The cache keeps at most one entry per URL, at most 20
 * entries, each valid for 24 hours, and drops an entry when it is read after
 * it expired; the history keeps at most 50 entries, newest first, one per URL.
 *
 * Storage is modelled as the two lists themselves; a key that was never
 * written behaves exactly like an empty list, so it is one. A stored value
 * that cannot be parsed is a flag: reading it takes the `catch` branch.
 * The clock is a parameter (`now`, milliseconds since the epoch).
 */
module CacheManager {
  import opened AccessibilityTypes

  const CacheDurationMs := 24 * 60 * 60 * 1000
  const CacheLimit := 20
  const HistoryLimit := 50

  datatype CachedScan<R> = CachedScan(url: string, results: R, timestamp: int, expiresAt: int)

  datatype HistoryEntry = HistoryEntry(url: string, timestamp: int, violations: nat)

  function CacheUrl<R>(e: CachedScan<R>): string { e.url }

  function HistoryUrl(e: HistoryEntry): string { e.url }

  /** `entries.filter(e => e.url !== url)` */
  function Without<T>(entries: seq<T>, urlOf: T -> string, url: string): (r: seq<T>)
    ensures |r| <= |entries|
    ensures forall k | 0 <= k < |r| :: urlOf(r[k]) != url && r[k] in entries
    decreases |entries|
  {
    if |entries| == 0 then []
    else if urlOf(entries[0]) == url then Without(entries[1..], urlOf, url)
    else [entries[0]] + Without(entries[1..], urlOf, url)
  }

  /** The filter drops exactly the entries for `url` and keeps the others in their order. */
  lemma {:induction false} WithoutExactly<T>(entries: seq<T>, urlOf: T -> string, url: string)
    ensures forall e :: e in Without(entries, urlOf, url) <==> e in entries && urlOf(e) != url
    ensures IsSubsequence(Without(entries, urlOf, url), entries)
    ensures (forall k | 0 <= k < |entries| :: urlOf(entries[k]) != url) ==> Without(entries, urlOf, url) == entries
    decreases |entries|
  {
    if |entries| > 0 {
      WithoutExactly(entries[1..], urlOf, url);
      assert entries == [entries[0]] + entries[1..];
    }
  }

  /** No two entries share a URL. */
  predicate DistinctUrls<T>(entries: seq<T>, urlOf: T -> string)
  {
    forall i, j | 0 <= i < j < |entries| :: urlOf(entries[i]) != urlOf(entries[j])
  }

  lemma {:induction false} WithoutKeepsDistinct<T>(entries: seq<T>, urlOf: T -> string, url: string)
    requires DistinctUrls(entries, urlOf)
    ensures DistinctUrls(Without(entries, urlOf, url), urlOf)
    decreases |entries|
  {
    if |entries| > 0 {
      WithoutKeepsDistinct(entries[1..], urlOf, url);
      WithoutExactly(entries[1..], urlOf, url);
      var rest := Without(entries[1..], urlOf, url);
      if urlOf(entries[0]) != url {
        forall j | 0 <= j < |rest| ensures urlOf(entries[0]) != urlOf(rest[j]) {
          var e := rest[j];
          var m :| 0 <= m < |entries[1..]| && entries[1..][m] == e;
          assert entries[m + 1] == e;
        }
      }
    }
  }

  /**
   * `s.slice(-n)`: the last `n` elements, or all of them when there are
   * fewer; `-0` is `0`, so `slice(-0)` keeps the whole list.
   */
  function LastN<T>(s: seq<T>, n: nat): (r: seq<T>)
    ensures |r| == if n == 0 || |s| < n then |s| else n
    ensures s == s[..|s| - |r|] + r
  {
    if n == 0 || |s| <= n then s else s[|s| - n..]
  }

  /** `s.slice(0, n)`: the first `n` elements, or all of them when there are fewer. */
  function FirstN<T>(s: seq<T>, n: nat): (r: seq<T>)
    ensures |r| == if |s| < n then |s| else n
    ensures s == r + s[|r|..]
  {
    if |s| <= n then s else s[..n]
  }

  /** `cached.find(c => c.url === url)`: the first entry for `url`. */
  function FindCached<R>(entries: seq<CachedScan<R>>, url: string): (r: Option<CachedScan<R>>)
    ensures r.None? <==> forall k | 0 <= k < |entries| :: entries[k].url != url
    ensures r.Some? ==> exists k | 0 <= k < |entries| ::
      entries[k] == r.value && r.value.url == url && forall j | 0 <= j < k :: entries[j].url != url
    decreases |entries|
  {
    if |entries| == 0 then None
    else if entries[0].url == url then Some(entries[0])
    else FindCached(entries[1..], url)
  }

  /** What `getCached(url)` returns from a readable cache at time `now`. */
  function CacheRead<R>(entries: seq<CachedScan<R>>, url: string, now: int): (r: Option<R>)
    ensures (forall k | 0 <= k < |entries| :: entries[k].url != url) ==> r.None?
    ensures r.Some? ==> exists k | 0 <= k < |entries| ::
      entries[k].url == url && entries[k].results == r.value && now <= entries[k].expiresAt
  {
    match FindCached(entries, url)
    case None => None
    case Some(item) => if now > item.expiresAt then None else Some(item.results)
  }

  /** The cache after `getCached(url)` at time `now`: an expired entry's URL is removed. */
  function CacheAfterRead<R>(entries: seq<CachedScan<R>>, url: string, now: int): (r: seq<CachedScan<R>>)
    ensures r == entries || r == Without(entries, CacheUrl, url)
    ensures CacheRead(entries, url, now).Some? ==> r == entries
    ensures |r| <= |entries|
  {
    match FindCached(entries, url)
    case None => entries
    case Some(item) => if now > item.expiresAt then Without(entries, CacheUrl, url) else entries
  }

  /** The cache after `setCached(url, results)` at time `now`. */
  function CacheAfterSet<R>(entries: seq<CachedScan<R>>, url: string, results: R, now: int): seq<CachedScan<R>>
  {
    LastN(Without(entries, CacheUrl, url) + [CachedScan(url, results, now, now + CacheDurationMs)], CacheLimit)
  }

  /** The history after `addToHistory(url, count)` at time `now`. */
  function HistoryAfterAdd(entries: seq<HistoryEntry>, url: string, count: nat, now: int): (r: seq<HistoryEntry>)
    ensures 1 <= |r| <= HistoryLimit
    ensures r[0] == HistoryEntry(url, now, count)
  {
    FirstN([HistoryEntry(url, now, count)] + Without(entries, HistoryUrl, url), HistoryLimit)
  }

  /** Storage as seen by this page: the two lists and whether each stored value is unreadable. */
  class ScanStore<R> {
    var cache: seq<CachedScan<R>>
    var cacheUnreadable: bool
    var history: seq<HistoryEntry>
    var historyUnreadable: bool

    /** Both lists are within their bounds and hold one entry per URL. */
    predicate WellFormed()
      reads this
    {
      && |cache| <= CacheLimit && DistinctUrls(cache, CacheUrl)
      && |history| <= HistoryLimit && DistinctUrls(history, HistoryUrl)
    }

    /** The storage contents found when the page loads. */
    constructor (cache0: seq<CachedScan<R>>, cacheUnreadable0: bool, history0: seq<HistoryEntry>, historyUnreadable0: bool)
      ensures cache == cache0 && cacheUnreadable == cacheUnreadable0
      ensures history == history0 && historyUnreadable == historyUnreadable0
    {
      cache := cache0;
      cacheUnreadable := cacheUnreadable0;
      history := history0;
      historyUnreadable := historyUnreadable0;
    }

    /** `getCached`: the stored results for `url` unless missing or expired; an expired entry is deleted. */
    method GetCached(url: string, now: int) returns (r: Option<R>)
      modifies this
      ensures r == if old(cacheUnreadable) then None else CacheRead(old(cache), url, now)
      ensures cache == if old(cacheUnreadable) then old(cache) else CacheAfterRead(old(cache), url, now)
      ensures cacheUnreadable == old(cacheUnreadable)
      ensures history == old(history) && historyUnreadable == old(historyUnreadable)
      ensures old(WellFormed()) ==> WellFormed()
    {
      if cacheUnreadable {
        // JSON.parse throws: the catch branch
        return None;
      }
      var item := FindCached(cache, url);
      if item.None? {
        return None;
      }
      if now > item.value.expiresAt {
        RemoveCached(url);
        return None;
      }
      return Some(item.value.results);
    }

    /** `setCached`: replace any entry for `url` by a fresh one at the end, keep the last 20. */
    method SetCached(url: string, results: R, now: int)
      modifies this
      ensures cache == if old(cacheUnreadable) then old(cache) else CacheAfterSet(old(cache), url, results, now)
      ensures cacheUnreadable == old(cacheUnreadable)
      ensures history == old(history) && historyUnreadable == old(historyUnreadable)
      ensures old(WellFormed()) ==> WellFormed()
    {
      if cacheUnreadable {
        return;
      }
      var entry := CachedScan(url, results, now, now + CacheDurationMs);
      var pushed := Without(cache, CacheUrl, url) + [entry];
      var limited := LastN(pushed, CacheLimit);
      if old(WellFormed()) {
        SetKeepsDistinct(cache, url, results, now);
      }
      cache := limited;
    }

    /** `removeCached`: drop every entry for `url`. */
    method RemoveCached(url: string)
      modifies this
      ensures cache == if old(cacheUnreadable) then old(cache) else Without(old(cache), CacheUrl, url)
      ensures cacheUnreadable == old(cacheUnreadable)
      ensures history == old(history) && historyUnreadable == old(historyUnreadable)
      ensures old(WellFormed()) ==> WellFormed()
    {
      if cacheUnreadable {
        return;
      }
      if WellFormed() {
        WithoutKeepsDistinct(cache, CacheUrl, url);
      }
      cache := Without(cache, CacheUrl, url);
    }

    /** `clearCache`: the stored cache is removed. */
    method ClearCache()
      modifies this
      ensures cache == [] && !cacheUnreadable
      ensures history == old(history) && historyUnreadable == old(historyUnreadable)
      ensures old(WellFormed()) ==> WellFormed()
    {
      cache := [];
      cacheUnreadable := false;
    }

    /** `getHistory`: the stored history, or [] when it cannot be read. */
    method GetHistory() returns (h: seq<HistoryEntry>)
      ensures h == if historyUnreadable then [] else history
      ensures |h| <= |history|
    {
      if historyUnreadable {
        return [];
      }
      return history;
    }

    /** `addToHistory`: the new entry goes first, any older entry for `url` goes, at most 50 are kept. */
    method AddToHistory(url: string, count: nat, now: int)
      modifies this
      ensures history == HistoryAfterAdd(if old(historyUnreadable) then [] else old(history), url, count, now)
      ensures !historyUnreadable
      ensures cache == old(cache) && cacheUnreadable == old(cacheUnreadable)
      ensures old(WellFormed()) ==> WellFormed()
    {
      var h := GetHistory();
      var filtered := Without(h, HistoryUrl, url);
      filtered := [HistoryEntry(url, now, count)] + filtered;
      var limited := FirstN(filtered, HistoryLimit);
      if old(WellFormed()) {
        AddKeepsDistinct(h, url, count, now);
      }
      history := limited;
      historyUnreadable := false;
    }

    /** `clearHistory`: the stored history is removed. */
    method ClearHistory()
      modifies this
      ensures history == [] && !historyUnreadable
      ensures cache == old(cache) && cacheUnreadable == old(cacheUnreadable)
      ensures old(WellFormed()) ==> WellFormed()
    {
      history := [];
      historyUnreadable := false;
    }
  }

  // ---------------------------------------------------------------------
  // Properties of the cache

  /** Reading a URL nobody stored gives null and changes nothing. */
  lemma ReadMissing<R>(entries: seq<CachedScan<R>>, url: string, now: int)
    requires forall k | 0 <= k < |entries| :: entries[k].url != url
    ensures CacheRead(entries, url, now) == None
    ensures CacheAfterRead(entries, url, now) == entries
  {
  }

  /** Reading the first entry for a URL up to its expiry gives its results and changes nothing. */
  lemma ReadFresh<R>(entries: seq<CachedScan<R>>, k: nat, now: int)
    requires k < |entries| && now <= entries[k].expiresAt
    requires forall j | 0 <= j < k :: entries[j].url != entries[k].url
    ensures CacheRead(entries, entries[k].url, now) == Some(entries[k].results)
    ensures CacheAfterRead(entries, entries[k].url, now) == entries
  {
    var item := FindCached(entries, entries[k].url);
    var i :| 0 <= i < |entries| && entries[i] == item.value && item.value.url == entries[k].url
      && forall j | 0 <= j < i :: entries[j].url != entries[k].url;
    assert i == k;
  }

  /** Reading strictly after expiry gives null and removes every entry for that URL, keeping the rest in order. */
  lemma ReadExpired<R>(entries: seq<CachedScan<R>>, url: string, now: int)
    requires FindCached(entries, url).Some? && now > FindCached(entries, url).value.expiresAt
    ensures CacheRead(entries, url, now) == None
    ensures CacheAfterRead(entries, url, now) == Without(entries, CacheUrl, url)
    ensures forall e :: e in CacheAfterRead(entries, url, now) <==> e in entries && e.url != url
    ensures IsSubsequence(CacheAfterRead(entries, url, now), entries)
  {
    WithoutExactly(entries, CacheUrl, url);
  }

  /**
   * After `setCached(url, r)` at `now` exactly one entry has that URL, it is
   * the last one and expires a day later; the cache has at most 20 entries,
   * and the ones before it are the last of the old entries for other URLs.
   */
  lemma SetCachedShape<R>(entries: seq<CachedScan<R>>, url: string, results: R, now: int)
    ensures var after := CacheAfterSet(entries, url, results, now);
      && 1 <= |after| <= CacheLimit
      && after[|after| - 1] == CachedScan(url, results, now, now + 86400000)
      && (forall k | 0 <= k < |after| - 1 :: after[k].url != url)
      && var others := Without(entries, CacheUrl, url);
         |after| == (if |others| + 1 < CacheLimit then |others| + 1 else CacheLimit)
         && after[..|after| - 1] == others[|others| - (|after| - 1)..]
  {
    var others := Without(entries, CacheUrl, url);
    var entry := CachedScan(url, results, now, now + CacheDurationMs);
    var all := others + [entry];
    var after := CacheAfterSet(entries, url, results, now);
    assert after == LastN(all, CacheLimit);
    assert all == all[..|all| - |after|] + after;
    assert after[..|after| - 1] == all[|all| - |after|..|all| - 1];
    assert all[..|all| - 1] == others;
    forall k | 0 <= k < |after| - 1 ensures after[k].url != url {
      assert after[k] == others[|others| - (|after| - 1) + k];
    }
  }

  /** A stored scan is read back until it expires. */
  lemma SetThenRead<R>(entries: seq<CachedScan<R>>, url: string, results: R, now: int, later: int)
    requires later <= now + CacheDurationMs
    ensures CacheRead(CacheAfterSet(entries, url, results, now), url, later) == Some(results)
  {
    SetCachedShape(entries, url, results, now);
    var after := CacheAfterSet(entries, url, results, now);
    ReadFresh(after, |after| - 1, later);
  }

  /** A stored scan read strictly after its expiry is gone, and so is its entry. */
  lemma SetThenReadExpired<R>(entries: seq<CachedScan<R>>, url: string, results: R, now: int, later: int)
    requires later > now + CacheDurationMs
    ensures CacheRead(CacheAfterSet(entries, url, results, now), url, later) == None
    ensures forall e :: e in CacheAfterRead(CacheAfterSet(entries, url, results, now), url, later) ==> e.url != url
  {
    SetCachedShape(entries, url, results, now);
    var after := CacheAfterSet(entries, url, results, now);
    var item := FindCached(after, url);
    var i :| 0 <= i < |after| && after[i] == item.value && item.value.url == url;
    assert i == |after| - 1;
    ReadExpired(after, url, later);
  }

  /** Storing keeps one entry per URL. */
  lemma SetKeepsDistinct<R>(entries: seq<CachedScan<R>>, url: string, results: R, now: int)
    requires DistinctUrls(entries, CacheUrl)
    ensures DistinctUrls(CacheAfterSet(entries, url, results, now), CacheUrl)
    ensures |CacheAfterSet(entries, url, results, now)| <= CacheLimit
  {
    WithoutKeepsDistinct(entries, CacheUrl, url);
    var others := Without(entries, CacheUrl, url);
    var entry := CachedScan(url, results, now, now + CacheDurationMs);
    AppendFreshKeepsDistinct(others, entry, CacheUrl);
    LastNKeepsDistinct(others + [entry], CacheLimit, CacheUrl);
  }

  /** Appending an entry whose URL is new keeps one entry per URL. */
  lemma AppendFreshKeepsDistinct<T>(entries: seq<T>, entry: T, urlOf: T -> string)
    requires DistinctUrls(entries, urlOf)
    requires forall k | 0 <= k < |entries| :: urlOf(entries[k]) != urlOf(entry)
    ensures DistinctUrls(entries + [entry], urlOf)
  {
    var all := entries + [entry];
    forall i, j | 0 <= i < j < |all| ensures urlOf(all[i]) != urlOf(all[j]) {
      assert all[i] == entries[i];
      if j < |entries| {
        assert all[j] == entries[j];
      }
    }
  }

  /** Keeping the last `n` entries keeps one entry per URL. */
  lemma LastNKeepsDistinct<T>(entries: seq<T>, n: nat, urlOf: T -> string)
    requires DistinctUrls(entries, urlOf)
    ensures DistinctUrls(LastN(entries, n), urlOf)
  {
    var after := LastN(entries, n);
    var d := |entries| - |after|;
    forall i, j | 0 <= i < j < |after| ensures urlOf(after[i]) != urlOf(after[j]) {
      assert after[i] == entries[d + i] && after[j] == entries[d + j];
    }
  }

  /**
   * After `addToHistory(url, n)` at `now` the head is the new entry, no other
   * entry has that URL, the others are the old entries for other URLs in
   * their order, and there are at most 50.
   */
  lemma AddToHistoryShape(entries: seq<HistoryEntry>, url: string, count: nat, now: int)
    ensures var after := HistoryAfterAdd(entries, url, count, now);
      && 1 <= |after| <= HistoryLimit
      && after[0] == HistoryEntry(url, now, count)
      && (forall k | 1 <= k < |after| :: after[k].url != url)
      && var others := Without(entries, HistoryUrl, url);
         after[1..] == others[..|after| - 1]
  {
    var others := Without(entries, HistoryUrl, url);
    var all := [HistoryEntry(url, now, count)] + others;
    var after := HistoryAfterAdd(entries, url, count, now);
    assert all == after + all[|after|..];
    assert after[1..] == all[1..|after|];
    assert all[1..] == others;
    forall k | 1 <= k < |after| ensures after[k].url != url {
      assert after[k] == others[k - 1];
    }
  }

  /** Adding to the history keeps one entry per URL. */
  lemma AddKeepsDistinct(entries: seq<HistoryEntry>, url: string, count: nat, now: int)
    requires DistinctUrls(entries, HistoryUrl)
    ensures DistinctUrls(HistoryAfterAdd(entries, url, count, now), HistoryUrl)
    ensures |HistoryAfterAdd(entries, url, count, now)| <= HistoryLimit
  {
    WithoutKeepsDistinct(entries, HistoryUrl, url);
    AddToHistoryShape(entries, url, count, now);
    var others := Without(entries, HistoryUrl, url);
    var after := HistoryAfterAdd(entries, url, count, now);
    forall i, j | 0 <= i < j < |after| ensures HistoryUrl(after[i]) != HistoryUrl(after[j]) {
      if i > 0 {
        assert after[i] == others[i - 1] && after[j] == others[j - 1];
      }
    }
  }

  /** After `clearCache` every read is null and leaves the cache empty. */
  lemma ClearedStoreReadsEmpty<R>(url: string, now: int)
    ensures CacheRead<R>([], url, now) == None
    ensures CacheAfterRead<R>([], url, now) == []
  {
  }
}
