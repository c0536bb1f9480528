/**
 * The home page's logic: filtering the shown violations by impact, the
 * summary card figures, the name of an exported report, and the order of
 * work when a URL is analysed (cache first, then the server, then the cache
 * and history are updated). Rendering is not modelled; the page state is a
 * class whose fields are the state hooks the logic touches.
 */
module HomePage {
  import opened AccessibilityTypes
  import opened Text
  import opened AnalyzeRoute
  import opened CacheManager
  import opened ExportUtils

  /** The impact filter: "all" or one impact. */
  datatype Filter = All | Only(impact: Impact)

  /** `results?.violations`: only a report carries violations. */
  function ShownViolations(results: Option<Reply>): Option<seq<Issue>>
  {
    if results.Some? && results.value.Report? then Some(results.value.report.violations) else None
  }

  /** `filteredViolations` */
  function FilteredViolations(results: Option<Reply>, filter: Filter): (shown: seq<Issue>)
    ensures ShownViolations(results).None? ==> shown == []
    ensures ShownViolations(results).Some? ==> |shown| <= |ShownViolations(results).value|
    ensures forall k | 0 <= k < |shown| :: ShownViolations(results).Some? && shown[k] in ShownViolations(results).value
  {
    match ShownViolations(results)
    case None => []
    case Some(vs) => if filter.All? then vs else WithImpact(vs, filter.impact)
  }

  /** The figure on a severity card: `results.violations?.filter(v => v.impact === i).length || 0`. */
  function SeverityCardCount(results: Option<Reply>, i: Impact): (count: nat)
    ensures count <= TotalCardCount(results)
    ensures ShownViolations(results).None? ==> count == 0
  {
    match ShownViolations(results)
    case None => 0
    case Some(vs) => CountImpact(vs, i)
  }

  /** The figure on the total card: `results.violations?.length || 0`. */
  function TotalCardCount(results: Option<Reply>): (count: nat)
    ensures ShownViolations(results).None? ==> count == 0
    ensures ShownViolations(results).Some? ==> count == |ShownViolations(results).value|
  {
    match ShownViolations(results)
    case None => 0
    case Some(vs) => |vs|
  }

  /**
   * With "all" every violation is shown; with one impact exactly the
   * violations of that impact are shown, in their order; with no report
   * nothing is shown. The shown list is always a subsequence of the report's.
   */
  lemma FilteredViolationsSpec(results: Option<Reply>, filter: Filter)
    ensures ShownViolations(results).None? ==> FilteredViolations(results, filter) == []
    ensures ShownViolations(results).Some? && filter.All? ==>
      FilteredViolations(results, filter) == ShownViolations(results).value
    ensures ShownViolations(results).Some? && filter.Only? ==>
      forall v :: v in FilteredViolations(results, filter) <==> v in ShownViolations(results).value && v.impact == filter.impact
    ensures ShownViolations(results).Some? ==> IsSubsequence(FilteredViolations(results, filter), ShownViolations(results).value)
  {
    match ShownViolations(results)
    case None =>
    case Some(vs) =>
      if filter.All? {
        SubsequenceOfItself(vs);
      } else {
        WithImpactExactly(vs, filter.impact);
      }
  }

  lemma {:induction false} SubsequenceOfItself<T>(s: seq<T>)
    ensures IsSubsequence(s, s)
    decreases |s|
  {
    if |s| > 0 {
      SubsequenceOfItself(s[1..]);
    }
  }

  /** Each card shows the length of the list its filter would show, and the severity cards add up to the total card. */
  lemma CardsCountFilteredViolations(results: Option<Reply>)
    ensures TotalCardCount(results) == |FilteredViolations(results, All)|
    ensures forall i: Impact :: SeverityCardCount(results, i) == |FilteredViolations(results, Only(i))|
    ensures SeverityCardCount(results, Critical) + SeverityCardCount(results, Serious)
      + SeverityCardCount(results, Moderate) + SeverityCardCount(results, Minor) == TotalCardCount(results)
  {
    if ShownViolations(results).Some? {
      CountsCoverAll(ShownViolations(results).value);
    }
  }

  // ---------------------------------------------------------------------
  // Export file name

  /** The regular expression `https?:\/\/` matches at index `i`. */
  predicate SchemeAt(s: string, i: nat)
  {
    MatchesAt(s, "https://", i) || MatchesAt(s, "http://", i)
  }

  /** The length of the match at `i`: the longer alternative is tried first. */
  function SchemeLength(s: string, i: nat): nat
  {
    if MatchesAt(s, "https://", i) then 8 else 7
  }

  /** `s.replace(/https?:\/\//, "")`: the leftmost match, wherever it is, is removed; at most one. */
  function StripScheme(s: string): (r: string)
    ensures |r| == |s| || |r| + 7 == |s| || |r| + 8 == |s|
    decreases |s|
  {
    if |s| == 0 then s
    else if StartsWith(s, "https://") then s[8..]
    else if StartsWith(s, "http://") then s[7..]
    else [s[0]] + StripScheme(s[1..])
  }

  /** A match at `i` in the tail of `s` is a match at `i + 1` in `s`, of the same length. */
  lemma SchemeAtTail(s: string, i: nat)
    requires |s| > 0
    ensures SchemeAt(s[1..], i) <==> SchemeAt(s, i + 1)
    ensures SchemeAt(s[1..], i) ==> SchemeLength(s[1..], i) == SchemeLength(s, i + 1)
  {
    assert MatchesAt(s[1..], "https://", i) <==> MatchesAt(s, "https://", i + 1) by {
      if i + 8 <= |s[1..]| {
        assert s[1..][i..i + 8] == s[i + 1..i + 1 + 8];
      }
    }
    assert MatchesAt(s[1..], "http://", i) <==> MatchesAt(s, "http://", i + 1) by {
      if i + 7 <= |s[1..]| {
        assert s[1..][i..i + 7] == s[i + 1..i + 1 + 7];
      }
    }
  }

  /** `http://` or `https://` at the very start is what `StartsWith` sees. */
  lemma SchemeAtStart(s: string)
    ensures SchemeAt(s, 0) <==> StartsWith(s, "https://") || StartsWith(s, "http://")
    ensures StartsWith(s, "https://") ==> SchemeLength(s, 0) == 8
    ensures !StartsWith(s, "https://") ==> SchemeLength(s, 0) == 7
  {
  }

  /** Reference reading of the regex replacement, first half: without any match the text is unchanged. */
  lemma {:induction false} StripSchemeWithoutMatch(s: string)
    requires forall j: nat | j <= |s| :: !SchemeAt(s, j)
    ensures StripScheme(s) == s
    decreases |s|
  {
    if |s| > 0 {
      SchemeAtStart(s);
      forall j: nat | j <= |s[1..]| ensures !SchemeAt(s[1..], j) {
        SchemeAtTail(s, j);
      }
      StripSchemeWithoutMatch(s[1..]);
    }
  }

  /** Second half: the match at the leftmost index where one starts is cut out, and nothing else changes. */
  lemma {:induction false} StripSchemeAtFirstMatch(s: string, i: nat)
    requires i <= |s| && SchemeAt(s, i)
    requires forall j: nat | j < i :: !SchemeAt(s, j)
    ensures i + SchemeLength(s, i) <= |s|
    ensures StripScheme(s) == s[..i] + s[i + SchemeLength(s, i)..]
    decreases i
  {
    SchemeAtStart(s);
    if i > 0 {
      SchemeAtTail(s, i - 1);
      forall j: nat | j < i - 1 ensures !SchemeAt(s[1..], j) {
        SchemeAtTail(s, j);
      }
      StripSchemeAtFirstMatch(s[1..], i - 1);
      assert s[1..][..i - 1] == s[1..i];
      assert s[1..][i - 1 + SchemeLength(s, i)..] == s[i + SchemeLength(s, i)..];
      assert s[..i] == [s[0]] + s[1..i];
    } else {
      assert s[..0] == [];
    }
  }

  const ReportPrefix := "accessibility-report-"

  /** The filename `handleExport` derives from the report's URL. */
  function ExportFilename(url: string): (name: string)
    ensures '/' !in name
  {
    ReportPrefix + ReplaceChar(StripScheme(url), '/', '-')
  }

  /** The derived filename starts with the report prefix and contains no '/'. */
  lemma ExportFilenameHasNoSlash(url: string)
    ensures StartsWith(ExportFilename(url), ReportPrefix)
    ensures '/' !in ExportFilename(url)
    ensures |ExportFilename(url)| == |ReportPrefix| + |StripScheme(url)|
  {
    var name := ExportFilename(url);
    assert name[..|ReportPrefix|] == ReportPrefix;
  }

  /** `handleExport(format)`: the download name, or none when there are no results. */
  function ExportDownloadName(results: Option<Reply>, kind: ExportKind, now: nat): (name: Option<string>)
    requires results.None? || results.value.Report?
    ensures name.Some? <==> results.Some?
  {
    if results.None? then None
    else Some(DownloadName(Some(ExportFilename(results.value.report.url)), now, kind))
  }

  /** An exported report's file name has no '/', whatever the URL: it names a file, not a path. */
  lemma ExportDownloadNameIsFileName(report: AnalyzeReport, kind: ExportKind, now: nat)
    ensures var name := ExportDownloadName(Some(Report(report)), kind, now);
      && name.Some?
      && StartsWith(name.value, ReportPrefix)
      && '/' !in name.value
  {
    var base := ExportFilename(report.url);
    ExportFilenameHasNoSlash(report.url);
    DownloadNameParts(Some(base), now, kind);
    var name := DownloadName(Some(base), now, kind);
    var digits := NatToString(now);
    assert name == base + ("-" + digits + Extension(kind));
    assert '/' !in "-" + digits + Extension(kind) by {
      forall k | 0 <= k < |digits| ensures digits[k] != '/' {
        assert IsDigit(digits[k]);
      }
      match kind
      case Json =>
      case Csv =>
      case Html =>
    }
    assert name[..|ReportPrefix|] == base[..|ReportPrefix|];
  }

  // ---------------------------------------------------------------------
  // Analysing a URL

  /** What the call to the analysis route delivers: a parsed body, or nothing usable (the request or `json()` threw). */
  datatype ServerAnswer = Delivered(reply: Reply) | Unusable

  const AnalyzeFailedAlert := "Failed to analyze URL. Please try again."

  /** The page state the analysis logic reads and writes. */
  class Home {
    var isLoading: bool
    var results: Option<Reply>
    var selectedIssue: Option<Issue>
    var filter: Filter
    var alerts: seq<string>
    const store: ScanStore<Reply>

    constructor (store: ScanStore<Reply>)
      ensures !isLoading && results == None && selectedIssue == None && filter == All && alerts == []
      ensures this.store == store
    {
      isLoading := false;
      results := None;
      selectedIssue := None;
      filter := All;
      alerts := [];
      this.store := store;
    }

    /**
     * `handleAnalyze(url)`. `now` is the clock when the cache is read,
     * `later` when the answer has arrived. A cache hit is shown without a
     * request; otherwise the answer is shown, and a report is stored in the
     * cache and in the history with its number of violations.
     */
    method HandleAnalyze(url: string, answer: ServerAnswer, now: int, later: int) returns (requested: bool)
      modifies this, store
      ensures !isLoading && selectedIssue == None && filter == All
      ensures var hit := if old(store.cacheUnreadable) then None else CacheRead(old(store.cache), url, now);
        var afterRead := if old(store.cacheUnreadable) then old(store.cache) else CacheAfterRead(old(store.cache), url, now);
        && (hit.Some? ==>
              && !requested && results == hit && alerts == old(alerts)
              && store.cache == afterRead && store.history == old(store.history)
              && store.historyUnreadable == old(store.historyUnreadable))
        && (hit.None? && answer.Delivered? && answer.reply.Report? ==>
              && requested && results == Some(answer.reply) && alerts == old(alerts)
              && store.cache == (if old(store.cacheUnreadable) then afterRead else CacheAfterSet(afterRead, url, answer.reply, later))
              && store.history == HistoryAfterAdd(if old(store.historyUnreadable) then [] else old(store.history),
                                                  url, |answer.reply.report.violations|, later)
              && !store.historyUnreadable)
        && (hit.None? && answer.Delivered? && !answer.reply.Report? ==>
              && requested && results == Some(answer.reply) && alerts == old(alerts)
              && store.cache == afterRead && store.history == old(store.history)
              && store.historyUnreadable == old(store.historyUnreadable))
        && (hit.None? && answer.Unusable? ==>
              && requested && results == None && alerts == old(alerts) + [AnalyzeFailedAlert]
              && store.cache == afterRead && store.history == old(store.history)
              && store.historyUnreadable == old(store.historyUnreadable))
      ensures store.cacheUnreadable == old(store.cacheUnreadable)
      ensures old(store.WellFormed()) ==> store.WellFormed()
    {
      isLoading := true;
      results := None;
      selectedIssue := None;
      filter := All;

      var cached := store.GetCached(url, now);
      if cached.Some? {
        results := cached;
        isLoading := false;
        return false;
      }

      requested := true;
      match answer {
        case Unusable =>
          alerts := alerts + [AnalyzeFailedAlert];
        case Delivered(data) =>
          results := Some(data);
          if data.Report? {
            store.SetCached(url, data, later);
            store.AddToHistory(url, |data.report.violations|, later);
          }
      }
      isLoading := false;
    }
  }
}
