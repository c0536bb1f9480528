# Web Accessibility Checker: a verified model of its core

Web Accessibility Checker audits a web page against WCAG rules.

- A server route (`POST /api/analyze`) fetches the page and runs the axe-core engine on it. It answers with a normalised report, or with an error and a hint.
- The browser page keeps a 24-hour cache of reports and a short scan history in local storage.
- The page filters violations by impact and exports reports as JSON, CSV or HTML, or to the clipboard.
- The page suggests a fix for each rule, taken from a fixed table with a generic fallback.

This Dafny project models that logic and proves what it promises. There is one module per source file:

| Dafny file | module | models |
|---|---|---|
| `types.dfy` | `AccessibilityTypes` | `types/accessibility.ts`: issues with four impacts, nodes, solutions, impact filtering and counting |
| `text.dfy` | `Text` | the JavaScript string operations the code uses: `startsWith`, `includes`, `join`, `split`, one-character global `replace`, and number-to-decimal rendering |
| `analyze.dfy` | `AnalyzeRoute` | `app/api/analyze/route.ts`: the `POST` handler as an imperative method, proved equal to a stage-by-stage reference function |
| `cache.dfy` | `CacheManager` | `lib/cache-manager.ts`: class `ScanStore` with the cache and history lists as fields and one method per operation |
| `export.dfy` | `ExportUtils` | `lib/export-utils.ts`: the CSV text, the HTML stat cards, the clipboard summary and the download names |
| `solution.dfy` | `SolutionProvider` | `lib/solution-provider.ts`: `getSolution`, with its table, its fallback and the wcag tag filter |
| `page.dfy` | `HomePage` | `app/page.tsx`: the impact filter, the card figures, the export filename, and `handleAnalyze` on class `Home` |

How the outside world becomes parameters:

- **Server route.** What the fetch, the page body and the axe engine produce are parameters: `FetchOutcome` and `AuditOutcome`. The two Railway environment variables are an `Environment` value, and the server clock's ISO time stamp is a `timestamp` string.
- **Cache.** Local storage is the `ScanStore` fields. A key that was never written reads like an empty list, so it is one. A stored value that cannot be parsed is a per-list flag, and the `catch` branches follow from it. `Date.now()` is a `now` parameter.
- **Solutions.** Each entry's regular-expression rewrite of the offending markup is an abstract function parameter, `rewrite(id, html)`.

## Model

| member | source | states |
|---|---|---|
| `AccessibilityTypes.ImpactName` | types/accessibility.ts:3 | each of the four impacts has a name that `ParseImpact` reads back as that impact |
| `AccessibilityTypes.WithImpact` | app/page.tsx:109-111 | the filtered list is no longer than the input and holds only input violations of the given impact |
| `AccessibilityTypes.WithImpactExactly` | lib/export-utils.ts:142 | a violation survives the impact filter exactly when it is in the list and has that impact; the survivors keep their order (a subsequence) |
| `AccessibilityTypes.CountImpact` | lib/export-utils.ts:142-160 | `filter(v => v.impact === i).length` is at most the number of violations, and it is 0 exactly when no violation has that impact |
| `AccessibilityTypes.CountsCoverAll` | types/accessibility.ts:3 | because there are exactly four impacts, the four per-impact counts add up to the number of violations |
| `Text.Split` | lib/export-utils.ts:39 | no source call: the reference inverse of the `join` on this line, which reads a text back into its pieces; it always gives at least one piece, and no piece contains the separator |
| `Text.StartsWith` | lib/solution-provider.ts:342 | `startsWith`: the definition; `StartsWithPointwise` states it |
| `Text.StartsWithPointwise` | lib/solution-provider.ts:342 | a text starts with a prefix exactly when the prefix is no longer than the text and they agree at every index of the prefix |
| `Text.Includes` | app/api/analyze/route.ts:135-141 | `includes`: the definition, a case-sensitive match at some index; `IncludesPrefix` states its basic properties |
| `Text.IncludesPrefix` | app/api/analyze/route.ts:135-141 | a pattern found in a text is no longer than it, and every prefix of a text is found in it |
| `Text.Join` | lib/export-utils.ts:37-39 | `join` of no parts is "", and otherwise the joined text starts with the first part |
| `Text.SplitJoin` | lib/export-utils.ts:36-39 | splitting undoes joining when no part contains the separator |
| `Text.JoinLacks` | lib/export-utils.ts:38 | a character that is in neither the parts nor the separator is not in the joined text |
| `Text.ReplaceChar` | lib/export-utils.ts:31 | a global one-character replace keeps the length, changes exactly the matching characters, leaves none of them, and adds no other character |
| `Text.NatToString` | lib/export-utils.ts:9 | the decimal text of a number is non-empty, all digits, and has no leading zero |
| `Text.ParseNatToString` | lib/export-utils.ts:32 | no source call: `ParseNat` is the reference inverse of the number rendering on this line, and the decimal text of a number reads back as that number |
| `Text.NatToStringInjective` | lib/export-utils.ts:9 | different numbers render as different texts |
| `Text.NotIncludedAcross` | app/api/analyze/route.ts:135 | a pattern absent from both halves is absent from their concatenation when the last character of the first half is not in it |
| `AnalyzeRoute.AcceptedUrl` | app/api/analyze/route.ts:13 | the handler goes on exactly when `url` is a non-empty string, and it goes on with that string |
| `AnalyzeRoute.FetchTimeoutMs` | app/api/analyze/route.ts:23-24 | the deadline is 45000 ms exactly when either Railway variable is set and non-empty; otherwise it is 7000 ms |
| `AnalyzeRoute.TimeoutError` | app/api/analyze/route.ts:44-46 | the 45-second message on Railway and the 7-second message elsewhere; either one contains "timeout" and not "fetch" |
| `AnalyzeRoute.IssuedRequest` | app/api/analyze/route.ts:31-40 | the handler fetches exactly when the body parsed and the url was accepted, with that non-empty url and the platform's deadline |
| `AnalyzeRoute.ClearScreenshots` | app/api/analyze/route.ts:106-109 | the same nodes in the same order, each with only `screenshot` changed, to null |
| `AnalyzeRoute.WithoutScreenshots` | app/api/analyze/route.ts:104-110 | the same violations in the same order, each with only its nodes changed, and those keep their number and order |
| `AnalyzeRoute.Download` | app/api/analyze/route.ts:29-60 | the fetch stage yields the page text exactly when the response is ok with a non-empty body; a timeout throws the platform's timeout message, and any other rejection is rethrown as it is |
| `AnalyzeRoute.Normalize` | app/api/analyze/route.ts:104-123 | the success body keeps the number of violations, with no screenshots; `passes` and `incomplete` are the engine's array lengths; `url` is the engine's url, or the request url when that is empty |
| `AnalyzeRoute.Audit` | app/api/analyze/route.ts:62-101 | the audit stage yields a report exactly when the engine ran; a missing engine throws "Failed to load axe-core library", and what the engine throws is rethrown |
| `AnalyzeRoute.Details` | app/api/analyze/route.ts:135-143 | the hint is one of the three hints or "", and it is "" exactly when the message contains none of "fetch", "timeout" and "no content" |
| `AnalyzeRoute.FailureReply` | app/api/analyze/route.ts:124-153 | the catch block always answers 500 with the handler's timestamp; an `Error` gives its message and the hint for it; any other thrown value gives "Failed to analyze URL" with hint "" |
| `AnalyzeRoute.Analyze` | app/api/analyze/route.ts:8-155 | the reference reply: 400 "Invalid URL provided" exactly for a parsed body whose url is rejected; 200 exactly when the url is accepted, the page downloads and the engine runs; every other outcome is a 500 |
| `AnalyzeRoute.Post` | app/api/analyze/route.ts:8-155 | the step-by-step handler returns the reference reply `Analyze`; it issues a fetch exactly when the body parsed and the url was accepted, with that URL and the platform's deadline |
| `AnalyzeRoute.RejectsExactlyInvalidUrls` | app/api/analyze/route.ts:13-18 | status 400 comes exactly from a missing, non-string or empty url, always with "Invalid URL provided"; no fetch is issued then |
| `AnalyzeRoute.DetailsFirstMatch` | app/api/analyze/route.ts:135-143 | the hint is decided by the first of "fetch", "timeout" and "no content" that the message contains, case-sensitively, and is "" when none occurs (both directions of each case) |
| `AnalyzeRoute.RailwayTimeoutErrorKeywords` | app/api/analyze/route.ts:45 | the 45-second timeout message contains "timeout" and does not contain "fetch" |
| `AnalyzeRoute.DefaultTimeoutErrorKeywords` | app/api/analyze/route.ts:46 | the 7-second timeout message contains "timeout" and does not contain "fetch" |
| `AnalyzeRoute.TimeoutMessagesGetSlowHint` | app/api/analyze/route.ts:135-140 | on either platform the rethrown timeout message lacks "fetch" and gets the too-long hint, not the network hint |
| `AnalyzeRoute.NotOkResponseFails` | app/api/analyze/route.ts:52-54 | a response that is not ok gives a 500 with "Failed to fetch URL: " plus the status text and the network hint |
| `AnalyzeRoute.EmptyPageFails` | app/api/analyze/route.ts:58-60 | an empty body gives a 500 with "Page has no content" and the empty-page hint |
| `AnalyzeRoute.MissingEngineFails` | app/api/analyze/route.ts:88-90 | a page whose engine never loads gives a 500 with "Failed to load axe-core library" and no hint |
| `AnalyzeRoute.TimedOutFetchFails` | app/api/analyze/route.ts:42-48 | a fetch that times out gives a 500 with the platform's timeout message and the too-long hint |
| `AnalyzeRoute.CaughtFailureReply` | app/api/analyze/route.ts:124-153 | every caught failure is a 500; the error is the thrown message, or "Failed to analyze URL" for a thrown value that is not an `Error`, and then the hint is "" |
| `AnalyzeRoute.AuditedPageReports` | app/api/analyze/route.ts:104-123 | an audited page gives a 200 report whose violations are the engine's, in order, each node being the engine's node with `screenshot` set to null; `passes` and `incomplete` are the lengths of the engine's arrays; `url` is the engine's url, or the request url when the engine's is empty |
| `AnalyzeRoute.ScreenshotsCleared` | app/api/analyze/route.ts:106-109 | after normalisation no node has a screenshot, and every other node field is the engine's |
| `AnalyzeRoute.WithoutScreenshotsIdempotent` | app/api/analyze/route.ts:104-110 | normalising an already normalised list changes nothing |
| `CacheManager.Without` | lib/cache-manager.ts:70 | the URL filter leaves no entry with that URL and only entries of the input |
| `CacheManager.WithoutExactly` | lib/cache-manager.ts:70 | the filter drops exactly the entries with that URL, keeps the rest in their order, and changes nothing when no entry has the URL |
| `CacheManager.WithoutKeepsDistinct` | lib/cache-manager.ts:44 | filtering keeps one entry per URL |
| `CacheManager.LastN` | lib/cache-manager.ts:55 | `slice(-n)` for n ≥ 1 gives the last `min(n, length)` entries, and `slice(-0)` the whole list; always a suffix of the list |
| `CacheManager.FirstN` | lib/cache-manager.ts:114 | `slice(0, n)` gives the first `min(n, length)` entries, a prefix of the list |
| `CacheManager.FindCached` | lib/cache-manager.ts:20 | the lookup returns nothing exactly when no entry has the URL, and otherwise returns the first entry that has it |
| `CacheManager.CacheRead` | lib/cache-manager.ts:14-35 | what `getCached` returns from a readable cache: null when no entry has the URL; otherwise the results come from an entry for that URL that has not expired |
| `CacheManager.CacheAfterRead` | lib/cache-manager.ts:14-35 | `getCached` either leaves the cache as it is or removes the URL's entries, it leaves the cache as it is whenever it returns results, and it never adds entries |
| `CacheManager.CacheAfterSet` | lib/cache-manager.ts:38-61 | the cache after `setCached`: filter out the URL, push the new entry, keep the last 20; its properties are stated by `SetCachedShape`, `SetThenRead` and `SetKeepsDistinct` |
| `CacheManager.HistoryAfterAdd` | lib/cache-manager.ts:99-120 | the history after `addToHistory` is non-empty, holds at most 50 entries, and starts with `{url, timestamp: now, violations: count}` |
| `CacheManager.ScanStore.GetCached` | lib/cache-manager.ts:14-35 | returns the reference read `CacheRead`, and leaves the reference state `CacheAfterRead`; an unparsable cache reads as null and is left alone; the history is untouched; the bounds and URL uniqueness are preserved |
| `CacheManager.ScanStore.SetCached` | lib/cache-manager.ts:38-61 | the new cache is `CacheAfterSet` of the old one, or the old one when it cannot be parsed; the history is untouched; the bounds and URL uniqueness are preserved |
| `CacheManager.ScanStore.RemoveCached` | lib/cache-manager.ts:64-76 | the cache loses exactly the URL's entries, or stays as it is when it cannot be parsed; the history is untouched |
| `CacheManager.ScanStore.ClearCache` | lib/cache-manager.ts:79-85 | the cache becomes empty and readable; the history is untouched |
| `CacheManager.ScanStore.GetHistory` | lib/cache-manager.ts:88-96 | returns the stored history, or [] when it cannot be parsed; it changes nothing |
| `CacheManager.ScanStore.AddToHistory` | lib/cache-manager.ts:99-120 | the new history is `HistoryAfterAdd` of the old history, with an unparsable history taken as []; the cache is untouched; the bounds and URL uniqueness are preserved |
| `CacheManager.ScanStore.ClearHistory` | lib/cache-manager.ts:123-129 | the history becomes empty and readable; the cache is untouched |
| `CacheManager.ReadMissing` | lib/cache-manager.ts:20-22 | reading a URL that no entry has gives null and changes nothing |
| `CacheManager.ReadFresh` | lib/cache-manager.ts:25-30 | reading the first entry for a URL at or before its expiry gives its results and changes nothing |
| `CacheManager.ReadExpired` | lib/cache-manager.ts:25-28 | reading strictly after expiry gives null and removes every entry for that URL, keeping the others in their order |
| `CacheManager.SetCachedShape` | lib/cache-manager.ts:44-57 | after `setCached` exactly one entry has the URL; it is the last one and expires 86400000 ms after `now`; there are at most 20 entries; the ones before it are the last of the old entries for other URLs, in order |
| `CacheManager.SetThenRead` | lib/cache-manager.ts:25-30 | a stored result is read back until its expiry |
| `CacheManager.SetThenReadExpired` | lib/cache-manager.ts:25-28 | a stored result read after its expiry is null, and no entry for its URL remains |
| `CacheManager.SetKeepsDistinct` | lib/cache-manager.ts:44-55 | storing keeps at most 20 entries and one entry per URL |
| `CacheManager.AppendFreshKeepsDistinct` | lib/cache-manager.ts:47 | appending an entry with a new URL keeps one entry per URL |
| `CacheManager.LastNKeepsDistinct` | lib/cache-manager.ts:55 | truncating to the last entries keeps one entry per URL |
| `CacheManager.AddToHistoryShape` | lib/cache-manager.ts:101-116 | after `addToHistory` the head is `{url, now, count}`, no other entry has the URL, the others are the old entries for other URLs in their order, and there are at most 50 |
| `CacheManager.AddKeepsDistinct` | lib/cache-manager.ts:104-114 | adding to the history keeps at most 50 entries and one entry per URL |
| `CacheManager.ClearedStoreReadsEmpty` | lib/cache-manager.ts:79-81 | an empty cache reads as null for every URL and stays empty |
| `ExportUtils.DownloadNameParts` | lib/export-utils.ts:45 | a download name reads back as the filename (default "accessibility-report"), a dash, the decimal `Date.now()` and the extension |
| `ExportUtils.DownloadNamesDiffer` | lib/export-utils.ts:9 | with the same filename, downloads at different times or in different formats get different names |
| `ExportUtils.DownloadName` | lib/export-utils.ts:9 | the download name starts with the filename, or "accessibility-report" when none is given, followed by a dash |
| `ExportUtils.CsvCells` | lib/export-utils.ts:28-34 | a row has one cell per header; the Description cell has no ','; the Elements Affected cell is all digits and reads back as the node count |
| `ExportUtils.QuoteAll` | lib/export-utils.ts:38 | quoting gives back one cell per cell |
| `ExportUtils.Quote` | lib/export-utils.ts:38 | a quoted cell is the cell with one '"' on each side, and nothing else added |
| `ExportUtils.CsvRow` | lib/export-utils.ts:28-38 | a violation's row: its quoted cells joined with ','; `CsvRowSplits` and `CsvRowHasNoNewline` state what it holds |
| `ExportUtils.CsvContent` | lib/export-utils.ts:36-39 | the CSV text: the header and rows joined with '\n'; `CsvStartsWithHeader` and `CsvSplitsIntoLines` state what it holds |
| `ExportUtils.CsvLines` | lib/export-utils.ts:36-39 | the CSV has one line per violation plus the header line |
| `ExportUtils.HeaderLineIsJoined` | lib/export-utils.ts:21-27 | the header line is exactly `Impact,Issue,Description,Elements Affected,Help URL` |
| `ExportUtils.CsvStartsWithHeader` | lib/export-utils.ts:36-39 | the CSV text starts with the header line, followed by a line break when there are violations |
| `ExportUtils.CsvRowSplits` | lib/export-utils.ts:28-38 | when help and help URL have no comma, splitting a row at ',' gives back its five quoted cells |
| `ExportUtils.CsvRowHasNoNewline` | lib/export-utils.ts:38 | a row has no line break when its violation's text fields have none |
| `ExportUtils.CsvSplitsIntoLines` | lib/export-utils.ts:36-39 | when no field has a line break, splitting the CSV text at '\n' gives the header line, then each violation's row in input order |
| `ExportUtils.HtmlStatCards` | lib/export-utils.ts:134-166 | the HTML report shows exactly six stat cards; `HtmlStatCardsCount` states their figures |
| `ExportUtils.HtmlStatCardsCount` | lib/export-utils.ts:135-166 | the six HTML stat cards show the total, the count of each impact and the passes; the four impact counts add up to the total |
| `ExportUtils.CountLineReadsBack` | lib/export-utils.ts:213-225 | a `- Label: n` summary line reads back as its label and its number |
| `ExportUtils.CountLine` | lib/export-utils.ts:213-225 | a `- Label: n` line starts with "- " and is longer than its label plus the four characters around it; `CountLineReadsBack` reads it back |
| `ExportUtils.ClipboardSummaryLines` | lib/export-utils.ts:212-225 | the summary and severity blocks of the clipboard text are ten lines; `ClipboardSummaryCounts` states their figures |
| `ExportUtils.ClipboardSummaryCounts` | lib/export-utils.ts:212-225 | the clipboard summary gives `violations.length`, `passes` and `incomplete`, and per impact the same figures as the HTML cards; the impact counts add up to the total |
| `SolutionProvider.ActualHtml` | lib/solution-provider.ts:8 | the markup is the first node's html, or "" when there is no issue or the issue has no nodes |
| `SolutionProvider.LookupRule` | lib/solution-provider.ts:11-329 | a key finds a table entry only under that entry's own id, and finds none when no entry has that id |
| `SolutionProvider.LookupFindsEveryRule` | lib/solution-provider.ts:11-329 | every one of the sixteen entries is found under its id |
| `SolutionProvider.WcagTags` | lib/solution-provider.ts:342 | the kept tags all start with "wcag" and come from the issue |
| `SolutionProvider.WcagTagsExactly` | lib/solution-provider.ts:342 | a tag is kept exactly when it starts with "wcag", and the kept tags keep their order |
| `SolutionProvider.Table` | lib/solution-provider.ts:11-329 | every entry cites at least one WCAG criterion, and an entry that never adapts the issue's markup has no note to append |
| `SolutionProvider.FromAdvice` | lib/solution-provider.ts:17-32 | every table entry's solution: the entry's title, description and criteria; its stock example for a fixed entry or an issue without markup; otherwise the markup as `before` |
| `SolutionProvider.Fallback` | lib/solution-provider.ts:331-344 | the fallback title starts with "Fix: "; without an issue there are no criteria and the example is the two stock comments; every criterion is one of the issue's tags |
| `SolutionProvider.GetSolution` | lib/solution-provider.ts:331-344 | a known id takes its entry's title and criteria; an unknown id gets a title that starts with "Fix: " |
| `SolutionProvider.KnownIdIgnoresIssueText` | lib/solution-provider.ts:11-329 | a known id gets its entry's title, description and WCAG criteria whatever the issue and the rewrite are |
| `SolutionProvider.ImageAltCriteria` | lib/solution-provider.ts:50 | "image-alt" gives the criteria ["1.1.1 Non-text Content"] |
| `SolutionProvider.ColorContrastCriteria` | lib/solution-provider.ts:34 | "color-contrast" gives ["1.4.3 Contrast (Minimum)", "1.4.6 Contrast (Enhanced)"] |
| `SolutionProvider.FixedEntriesIgnoreIssue` | lib/solution-provider.ts:132-300 | the entries at lines 132-192, 216-231 and 289-300: for "html-has-lang", "landmark-one-main", "region", "page-has-heading-one" and "meta-viewport" the whole solution is independent of the issue, and the code example is the entry's stock one |
| `SolutionProvider.AdaptingEntryShowsMarkup` | lib/solution-provider.ts:17-24 | for every other entry, with markup present `before` is that markup and `after` is the rewritten markup followed by the entry's note (the label entry puts its `<label>` line first); without markup it is the stock example |
| `SolutionProvider.TabindexShowsMarkup` | lib/solution-provider.ts:306 | for "tabindex", `before` is the issue's markup whenever there is some |
| `SolutionProvider.UnknownIdFallsBack` | lib/solution-provider.ts:332-343 | an unknown id gives "Fix: " plus the help, or "Accessibility Issue" when help is empty or absent; the description or the default sentence; the two stock comments without markup, or the markup and the markup plus the fixed note with it; and exactly the wcag tags in order, or [] without an issue |
| `HomePage.FilteredViolationsSpec` | app/page.tsx:108-112 | with "all" every violation is shown; with one impact exactly the violations of that impact, in order; [] without a report; always a subsequence of the report's violations |
| `HomePage.FilteredViolations` | app/page.tsx:108-112 | without a report nothing is shown; otherwise the shown list is no longer than the report's violations and holds only report violations |
| `HomePage.TotalCardCount` | app/page.tsx:228 | the total card shows the number of the report's violations, or 0 without a report |
| `HomePage.SeverityCardCount` | app/page.tsx:248-312 | a severity card shows 0 without a report and never more than the total card |
| `HomePage.CardsCountFilteredViolations` | app/page.tsx:228-312 | each card shows the length of the list its filter shows, and the severity cards add up to the total card |
| `HomePage.StripScheme` | app/page.tsx:68 | the non-global replacement removes at most one match: the result is as long as the input, or 7 or 8 characters shorter |
| `HomePage.StripSchemeWithoutMatch` | app/page.tsx:68 | a URL with no "http://" or "https://" anywhere is left unchanged |
| `HomePage.StripSchemeAtFirstMatch` | app/page.tsx:68 | otherwise exactly the leftmost match is cut out, whether or not it is at the start, and the longer "https://" wins at the same index |
| `HomePage.ExportFilename` | app/page.tsx:67-69 | the filename derived from the report's URL contains no '/' |
| `HomePage.ExportDownloadName` | app/page.tsx:64-82 | `handleExport` names a download exactly when there are results |
| `HomePage.ExportFilenameHasNoSlash` | app/page.tsx:67-69 | the export filename starts with "accessibility-report-", contains no '/', and is as long as the prefix plus the stripped URL |
| `HomePage.ExportDownloadNameIsFileName` | app/page.tsx:64-81 | an exported report's download name starts with "accessibility-report-" and contains no '/' |
| `HomePage.Home.HandleAnalyze` | app/page.tsx:26-62 | the filter becomes "all", the selection is cleared and loading ends; a cache hit is shown with no request and no cache or history write; otherwise a request is made and its body is shown; only a report is cached and added to the history, with the count of its violations; an unusable answer raises the alert and shows nothing; the store's bounds and URL uniqueness are preserved |

## Left out

- The network fetch, its abort signal, JSDOM, reading `axe.min.js` and running axe-core (app/api/analyze/route.ts:29-101). These are I/O and foreign libraries; the model takes their outcomes as inputs.
- `response.text()` throwing after an ok response (app/api/analyze/route.ts:56). A body that cannot be read is not distinguished from a fetch failure.
- `console.log` and `console.error` calls, and `window.close()` (app/api/analyze/route.ts:115). The latter is teardown on the success path only.
- The reply's other fields. The engine's other fields on violations and nodes are copied by the spread (app/api/analyze/route.ts:105,107). Only the fields the type file declares are modelled.
- The screenshot route (app/api/screenshot/route.ts). It is browser automation and is not part of this model.
- Local storage I/O and JSON. A parse failure is only a flag that sends the operation to its `catch` branch. A failing `setItem` (for example, storage full) is not modelled.
- `CacheManager.ScanStore.SetCached`: `timestamp` and `expiresAt` use one clock reading. The source calls `Date.now()` twice (lib/cache-manager.ts:50-51).
- `HomePage.Home.HandleAnalyze`: each call is modelled as running to completion with no second call overlapping it. The history list (app/page.tsx:121) can start a second analysis while the first awaits `fetch` or `response.json()` (app/page.tsx:42-48), and that call can change the cache between the first call's read and its writes. The bounds and URL uniqueness still hold then, because each store operation is synchronous, but the full-state formula describes only an uninterrupted call.
- `HomePage.Home.HandleAnalyze`: the cache write and the history write use the same clock reading `later`. The source reads the clock separately in each.
- The browser-side export effects: `Blob`, object URLs, link clicks and the clipboard write (lib/export-utils.ts:4-13,41-49,194-202,240).
- The JSON serialisation, the full HTML document and the clipboard text's header and details blocks. Of these, only the stat-card figures and the summary lines are modelled.
- `toLocaleString` and `getFullYear` text (lib/export-utils.ts:129-131,188,210). It depends on locale and clock.
- The regular-expression rewrites in the solution table's `after` texts (for example lib/solution-provider.ts:23,43,203-206). Each is the abstract `rewrite(id, html)`; the label entry's replacement, which reads the clock, is part of that abstraction.
- `failureSummary` in `getSolution` (lib/solution-provider.ts:9). It is computed but never used.
- `SolutionProvider.LookupRule`: object keys inherited from the prototype are not modelled. `solutions["constructor"]` and similar keys find a built-in value rather than the fallback, and the model treats them as unknown ids.
- `HomePage.ExportDownloadName`: it requires the results to be a report, because the export buttons are rendered only when `results.violations` is present (app/page.tsx:132).
- Number-to-text conversion covers only non-negative integers. `Date.now()` and lengths are non-negative integers far below the range where JavaScript switches to exponent notation.
- React rendering, the intermediate `isLoading` and `results` values during a request, the playground and solution panel handlers (app/page.tsx:84-106), and the UI components.
