/**
 * The `POST /api/analyze` handler: validate the requested URL, pick the
 * fetch deadline from the hosting platform, fetch the page once, run the
 * audit engine on it and reshape the engine's output; any failure on the
 * way is caught and turned into a status-500 reply whose `details` hint is
 * chosen from the error message.
 *
 * The network fetch, the DOM construction, loading the engine's script and
 * running the engine are not modelled: their outcomes are inputs
 * (FetchOutcome, AuditOutcome), and so are the process environment and the
 * clock reading that becomes the ISO-8601 `timestamp`.
 */
module AnalyzeRoute {
  import opened AccessibilityTypes
  import opened Text

  /** A value thrown inside the handler: an `Error` with its message, or anything else. */
  datatype Thrown = ErrorValue(message: string) | NonErrorValue

  /** Either the value a stage produced or what it threw. */
  datatype Attempt<T> = Done(value: T) | Threw(thrown: Thrown)

  /** The `url` member of the parsed request body. */
  datatype UrlField = Missing | NotAString | StringUrl(value: string)

  /** `await request.json()` either throws (malformed body) or yields the `url` member. */
  datatype RequestBody = Unparsable(thrown: Thrown) | Parsed(url: UrlField)

  /** The two platform variables the handler reads; `None` is an unset variable. */
  datatype Environment = Environment(railwayEnvironment: Option<string>, railwayProjectId: Option<string>)

  /** What the single `fetch` call did. */
  datatype FetchOutcome =
    | Responded(ok: bool, statusText: string, body: string)
    | TimedOut                   // the abort signal fired (name "TimeoutError" or code 23)
    | FetchFailed(thrown: Thrown)  // any other rejection: network, DNS, TLS

  /** The outgoing request the handler makes: the URL and the abort deadline. */
  datatype FetchRequest = FetchRequest(url: string, timeoutMs: nat)

  /** An entry of the engine's `passes` or `incomplete` arrays; only their number is used. */
  datatype RuleSummary = RuleSummary(id: string)

  /** The audit engine's raw output; `url` is "" when the engine reports none. */
  datatype AuditResults = AuditResults(
    violations: seq<Issue>,
    passes: seq<RuleSummary>,
    incomplete: seq<RuleSummary>,
    url: string)

  /** What building the DOM, injecting the engine and running it did. */
  datatype AuditOutcome =
    | EngineMissing              // the engine's global is undefined after injection
    | EngineThrew(thrown: Thrown)
    | Audited(results: AuditResults)

  /** The success body. */
  datatype AnalyzeReport = AnalyzeReport(violations: seq<Issue>, passes: nat, incomplete: nat, url: string, timestamp: string)

  /** The three reply shapes the handler produces. */
  datatype Reply =
    | Report(report: AnalyzeReport)
    | BadRequest(error: string)
    | ServerError(error: string, details: string, timestamp: string)

  function Status(r: Reply): nat
  {
    match r
    case Report(_) => 200
    case BadRequest(_) => 400
    case ServerError(_, _, _) => 500
  }

  const InvalidUrlError := "Invalid URL provided"
  const GenericError := "Failed to analyze URL"
  const FetchFailedPrefix := "Failed to fetch URL: "
  const NoContentError := "Page has no content"
  const EngineMissingError := "Failed to load axe-core library"

  const RailwayTimeoutMs := 45000
  const DefaultTimeoutMs := 7000

  // Both timeout messages start with this chunk, which ends in "timeout".
  const TimeoutLead := "Website timeout"

  const RailwayTimeoutRest := " (45s). This site is " + "extremely slow or unresponsive. " + "Try a different page or site."
  const RailwayTimeoutError := TimeoutLead + RailwayTimeoutRest

  // The short-deadline message has every letter of "fetch"; it splits, at a
  // space, into a part without 'c' and a part without 'f'.
  const DefaultTimeoutHead := TimeoutLead + " (7s limit). This site " + "loads too slowly for free "
  const DefaultTimeoutTail := "Vercel hosting. The app is also " + "deployed on Railway with longer " + "timeouts - check your Railway URL."
  const DefaultTimeoutError := DefaultTimeoutHead + DefaultTimeoutTail

  const NetworkHint := "Network error occurred. The website may be blocking automated access or is not accessible."
  const SlowHint := "The request took too long. Try again or check if the URL is accessible."
  const EmptyHint := "The page appears to be empty."

  /** `!url || typeof url !== "string"` is false: the URL the handler goes on with. */
  function AcceptedUrl(field: UrlField): (url: Option<string>)
    ensures url.Some? <==> field.StringUrl? && field.value != ""
    ensures url.Some? ==> url.value == field.value
  {
    if field.StringUrl? && field.value != "" then Some(field.value) else None
  }

  /** A JavaScript string value is truthy when it is set and not empty. */
  predicate Truthy(v: Option<string>)
  {
    v.Some? && v.value != ""
  }

  predicate OnRailway(env: Environment)
  {
    Truthy(env.railwayEnvironment) || Truthy(env.railwayProjectId)
  }

  /** The fetch deadline: the long one when either Railway variable is set and non-empty. */
  function FetchTimeoutMs(env: Environment): (ms: nat)
    ensures ms == RailwayTimeoutMs <==>
      (env.railwayEnvironment.Some? && |env.railwayEnvironment.value| > 0) ||
      (env.railwayProjectId.Some? && |env.railwayProjectId.value| > 0)
    ensures ms == RailwayTimeoutMs || ms == DefaultTimeoutMs
  {
    if OnRailway(env) then RailwayTimeoutMs else DefaultTimeoutMs
  }

  /** The message of the error thrown when the fetch deadline passes. */
  function TimeoutError(env: Environment): (message: string)
    ensures OnRailway(env) ==> message == RailwayTimeoutError
    ensures !OnRailway(env) ==> message == DefaultTimeoutError
    ensures Includes(message, "timeout") && !Includes(message, "fetch")
  {
    RailwayTimeoutErrorKeywords();
    DefaultTimeoutErrorKeywords();
    if OnRailway(env) then RailwayTimeoutError else DefaultTimeoutError
  }

  /** The page text, or what the fetch stage threw. */
  function Download(env: Environment, fetch: FetchOutcome): (r: Attempt<string>)
    ensures r.Done? <==> fetch.Responded? && fetch.ok && fetch.body != ""
    ensures r.Done? ==> r.value == fetch.body
    ensures fetch.TimedOut? ==> r == Threw(ErrorValue(TimeoutError(env)))
    ensures fetch.FetchFailed? ==> r == Threw(fetch.thrown)
  {
    match fetch
    case TimedOut => Threw(ErrorValue(TimeoutError(env)))
    case FetchFailed(t) => Threw(t)
    case Responded(ok, statusText, body) =>
      if !ok then Threw(ErrorValue(FetchFailedPrefix + statusText))
      else if body == "" then Threw(ErrorValue(NoContentError))
      else Done(body)
  }

  /** Every node of the reply gets `screenshot: null`; everything else is kept. */
  function ClearScreenshots(nodes: seq<Node>): (r: seq<Node>)
    ensures |r| == |nodes|
    ensures forall k | 0 <= k < |r| :: r[k] == nodes[k].(screenshot := None)
    decreases |nodes|
  {
    if |nodes| == 0 then [] else [nodes[0].(screenshot := None)] + ClearScreenshots(nodes[1..])
  }

  /** The violations of the reply: same number, same order, each with its nodes cleared. */
  function WithoutScreenshots(vs: seq<Issue>): (r: seq<Issue>)
    ensures |r| == |vs|
    ensures forall k | 0 <= k < |r| :: r[k] == vs[k].(nodes := ClearScreenshots(vs[k].nodes))
    decreases |vs|
  {
    if |vs| == 0 then [] else [vs[0].(nodes := ClearScreenshots(vs[0].nodes))] + WithoutScreenshots(vs[1..])
  }

  /** Reshape the engine's output into the success body. */
  function Normalize(results: AuditResults, requestUrl: string, timestamp: string): (r: AnalyzeReport)
    ensures |r.violations| == |results.violations|
    ensures NoScreenshots(r.violations)
    ensures r.passes == |results.passes| && r.incomplete == |results.incomplete|
    ensures r.url == (if results.url != "" then results.url else requestUrl)
    ensures r.timestamp == timestamp
  {
    ScreenshotsCleared(results.violations);
    AnalyzeReport(
      WithoutScreenshots(results.violations),
      |results.passes|,
      |results.incomplete|,
      if results.url != "" then results.url else requestUrl,
      timestamp)
  }

  /** The success body, or what the audit stage threw. */
  function Audit(requestUrl: string, audit: AuditOutcome, timestamp: string): (r: Attempt<AnalyzeReport>)
    ensures r.Done? <==> audit.Audited?
    ensures r.Done? ==> |r.value.violations| == |audit.results.violations| && NoScreenshots(r.value.violations)
    ensures audit.EngineMissing? ==> r == Threw(ErrorValue(EngineMissingError))
    ensures audit.EngineThrew? ==> r == Threw(audit.thrown)
  {
    match audit
    case EngineMissing => Threw(ErrorValue(EngineMissingError))
    case EngineThrew(t) => Threw(t)
    case Audited(results) => Done(Normalize(results, requestUrl, timestamp))
  }

  /** The hint for an error message: the first of "fetch", "timeout", "no content" it contains. */
  function Details(message: string): (hint: string)
    ensures hint == "" <==> !Includes(message, "fetch") && !Includes(message, "timeout") && !Includes(message, "no content")
    ensures hint == "" || hint == NetworkHint || hint == SlowHint || hint == EmptyHint
  {
    if Includes(message, "fetch") then NetworkHint
    else if Includes(message, "timeout") then SlowHint
    else if Includes(message, "no content") then EmptyHint
    else ""
  }

  /** The reply built in the `catch` block. */
  function FailureReply(t: Thrown, timestamp: string): (r: Reply)
    ensures r.ServerError? && Status(r) == 500 && r.timestamp == timestamp
    ensures t.ErrorValue? ==> r.error == t.message && r.details == Details(t.message)
    ensures t.NonErrorValue? ==> r.error == GenericError && r.details == ""
  {
    match t
    case ErrorValue(m) => ServerError(m, Details(m), timestamp)
    case NonErrorValue => ServerError(GenericError, "", timestamp)
  }

  /** The reply of the whole handler, stage by stage. */
  function Analyze(body: RequestBody, env: Environment, fetch: FetchOutcome, audit: AuditOutcome, timestamp: string): (r: Reply)
    ensures r.BadRequest? <==> body.Parsed? && AcceptedUrl(body.url).None?
    ensures r.BadRequest? ==> r.error == InvalidUrlError
    ensures r.Report? <==> body.Parsed? && AcceptedUrl(body.url).Some? && Download(env, fetch).Done? && audit.Audited?
    ensures r.ServerError? ==> r.timestamp == timestamp
  {
    match body
    case Unparsable(t) => FailureReply(t, timestamp)
    case Parsed(field) =>
      match AcceptedUrl(field)
      case None => BadRequest(InvalidUrlError)
      case Some(url) =>
        match Download(env, fetch)
        case Threw(t) => FailureReply(t, timestamp)
        case Done(_) =>
          match Audit(url, audit, timestamp)
          case Threw(t) => FailureReply(t, timestamp)
          case Done(report) => Report(report)
  }

  /** The fetch the handler issues for a body, if it gets that far. */
  function IssuedRequest(body: RequestBody, env: Environment): (request: Option<FetchRequest>)
    ensures request.Some? <==> body.Parsed? && AcceptedUrl(body.url).Some?
    ensures request.Some? ==> request.value.url == body.url.value && request.value.url != ""
    ensures request.Some? ==> request.value.timeoutMs == FetchTimeoutMs(env)
  {
    if body.Parsed? && AcceptedUrl(body.url).Some? then Some(FetchRequest(body.url.value, FetchTimeoutMs(env)))
    else None
  }

  /**
   * The handler itself, step by step: early returns, a `try` whose failures
   * land in `caught`, and the `catch` block that builds the error reply.
   */
  method Post(body: RequestBody, env: Environment, fetch: FetchOutcome, audit: AuditOutcome, timestamp: string)
    returns (reply: Reply, request: Option<FetchRequest>)
    ensures reply == Analyze(body, env, fetch, audit, timestamp)
    ensures request.Some? <==> body.Parsed? && AcceptedUrl(body.url).Some?
    ensures request.Some? ==> request.value == FetchRequest(body.url.value, FetchTimeoutMs(env))
  {
    request := None;
    var caught: Option<Thrown> := None;
    // try
    if body.Unparsable? {
      caught := Some(body.thrown);
    } else {
      var url := body.url;
      if !url.StringUrl? || url.value == "" {
        return BadRequest(InvalidUrlError), None;
      }
      var isRailway := OnRailway(env);
      var timeout := if isRailway then RailwayTimeoutMs else DefaultTimeoutMs;
      request := Some(FetchRequest(url.value, timeout));
      var response := fetch;
      if response.TimedOut? {
        var message := if isRailway then RailwayTimeoutError else DefaultTimeoutError;
        caught := Some(ErrorValue(message));
      } else if response.FetchFailed? {
        caught := Some(response.thrown);
      } else if !response.ok {
        caught := Some(ErrorValue(FetchFailedPrefix + response.statusText));
      } else if |response.body| == 0 {
        caught := Some(ErrorValue(NoContentError));
      } else if audit.EngineMissing? {
        caught := Some(ErrorValue(EngineMissingError));
      } else if audit.EngineThrew? {
        caught := Some(audit.thrown);
      } else {
        var results := audit.results;
        var violations := WithoutScreenshots(results.violations);
        var reportUrl := if results.url != "" then results.url else url.value;
        reply := Report(AnalyzeReport(violations, |results.passes|, |results.incomplete|, reportUrl, timestamp));
        return;
      }
    }
    // catch (error)
    var errorMessage := GenericError;
    var errorDetails := "";
    var error := caught.value;
    if error.ErrorValue? {
      errorMessage := error.message;
      if Includes(error.message, "fetch") {
        errorDetails := NetworkHint;
      } else if Includes(error.message, "timeout") {
        errorDetails := SlowHint;
      } else if Includes(error.message, "no content") {
        errorDetails := EmptyHint;
      }
    }
    reply := ServerError(errorMessage, errorDetails, timestamp);
  }

  // ---------------------------------------------------------------------
  // Properties of the handler

  /** Status 400 comes exactly from a missing, non-string or empty `url`, whatever the page and engine do. */
  lemma RejectsExactlyInvalidUrls(body: RequestBody, env: Environment, fetch: FetchOutcome, audit: AuditOutcome, timestamp: string)
    ensures Status(Analyze(body, env, fetch, audit, timestamp)) == 400 <==>
      body.Parsed? && (body.url.Missing? || body.url.NotAString? || body.url.value == "")
    ensures Status(Analyze(body, env, fetch, audit, timestamp)) == 400 ==>
      Analyze(body, env, fetch, audit, timestamp) == BadRequest(InvalidUrlError)
    ensures Status(Analyze(body, env, fetch, audit, timestamp)) == 400 <==> IssuedRequest(body, env).None? && body.Parsed?
  {
  }

  /** The details chosen for a message are decided by the first keyword it contains, case-sensitively. */
  lemma DetailsFirstMatch(message: string)
    ensures Details(message) == NetworkHint <==> Includes(message, "fetch")
    ensures Details(message) == SlowHint <==> !Includes(message, "fetch") && Includes(message, "timeout")
    ensures Details(message) == EmptyHint <==>
      !Includes(message, "fetch") && !Includes(message, "timeout") && Includes(message, "no content")
    ensures Details(message) == "" <==>
      !Includes(message, "fetch") && !Includes(message, "timeout") && !Includes(message, "no content")
  {
  }

  lemma TimeoutLeadNamesTimeout()
    ensures MatchesAt(TimeoutLead, "timeout", 8)
  {
    assert TimeoutLead[8..15] == "timeout";
  }

  lemma RailwayTimeoutErrorLacksC()
    ensures 'c' !in RailwayTimeoutError
  {
  }

  /** The long-deadline timeout message names "timeout" and never "fetch". */
  lemma RailwayTimeoutErrorKeywords()
    ensures !Includes(RailwayTimeoutError, "fetch") && Includes(RailwayTimeoutError, "timeout")
  {
    RailwayTimeoutErrorLacksC();
    NotIncludedWithoutChar(RailwayTimeoutError, "fetch", 'c');
    TimeoutLeadNamesTimeout();
    MatchesInFront(TimeoutLead, RailwayTimeoutRest, "timeout", 8);
  }

  lemma DefaultTimeoutHeadLacksC()
    ensures 'c' !in DefaultTimeoutHead && DefaultTimeoutHead[|DefaultTimeoutHead| - 1] == ' '
  {
  }

  lemma DefaultTimeoutTailLacksF()
    ensures 'f' !in DefaultTimeoutTail
  {
  }

  /** The short-deadline timeout message names "timeout" and never "fetch". */
  lemma DefaultTimeoutErrorKeywords()
    ensures !Includes(DefaultTimeoutError, "fetch") && Includes(DefaultTimeoutError, "timeout")
  {
    DefaultTimeoutHeadLacksC();
    DefaultTimeoutTailLacksF();
    NotIncludedWithoutChar(DefaultTimeoutHead, "fetch", 'c');
    NotIncludedWithoutChar(DefaultTimeoutTail, "fetch", 'f');
    NotIncludedAcross(DefaultTimeoutHead, DefaultTimeoutTail, "fetch");
    var rest := " (7s limit). This site " + "loads too slowly for free " + DefaultTimeoutTail;
    assert DefaultTimeoutError == TimeoutLead + rest;
    TimeoutLeadNamesTimeout();
    MatchesInFront(TimeoutLead, rest, "timeout", 8);
  }

  /** Either platform's timeout message, once rethrown, gets the too-long hint and not the network hint. */
  lemma TimeoutMessagesGetSlowHint(env: Environment)
    ensures !Includes(TimeoutError(env), "fetch")
    ensures Details(TimeoutError(env)) == SlowHint
  {
    RailwayTimeoutErrorKeywords();
    DefaultTimeoutErrorKeywords();
  }

  /** A response that is not ok fails with the status text and the network hint. */
  lemma NotOkResponseFails(url: string, env: Environment, statusText: string, body: string, audit: AuditOutcome, timestamp: string)
    requires url != ""
    ensures Analyze(Parsed(StringUrl(url)), env, Responded(false, statusText, body), audit, timestamp)
      == ServerError(FetchFailedPrefix + statusText, NetworkHint, timestamp)
  {
    assert MatchesAt(FetchFailedPrefix + statusText, "fetch", 10);
  }

  /** An empty page fails with "Page has no content" and the empty-page hint. */
  lemma EmptyPageFails(url: string, env: Environment, statusText: string, audit: AuditOutcome, timestamp: string)
    requires url != ""
    ensures Analyze(Parsed(StringUrl(url)), env, Responded(true, statusText, ""), audit, timestamp)
      == ServerError(NoContentError, EmptyHint, timestamp)
  {
    NotIncludedWithoutChar(NoContentError, "fetch", 'f');
    NotIncludedWithoutChar(NoContentError, "timeout", 'i');
    assert MatchesAt(NoContentError, "no content", 9);
  }

  /** A page fetched in time whose engine never loads fails with that message and no hint. */
  lemma MissingEngineFails(url: string, env: Environment, statusText: string, html: string, timestamp: string)
    requires url != "" && html != ""
    ensures Analyze(Parsed(StringUrl(url)), env, Responded(true, statusText, html), EngineMissing, timestamp)
      == ServerError(EngineMissingError, "", timestamp)
  {
    NotIncludedWithoutChar(EngineMissingError, "fetch", 'f');
    NotIncludedWithoutChar(EngineMissingError, "timeout", 'm');
    NotIncludedWithoutChar(EngineMissingError, "no content", 'n');
    assert Details(EngineMissingError) == "";
    assert Download(env, Responded(true, statusText, html)) == Done(html);
  }

  /** A fetch that times out fails with the platform's message and the too-long hint. */
  lemma TimedOutFetchFails(url: string, env: Environment, audit: AuditOutcome, timestamp: string)
    requires url != ""
    ensures Analyze(Parsed(StringUrl(url)), env, TimedOut, audit, timestamp)
      == ServerError(TimeoutError(env), SlowHint, timestamp)
  {
    TimeoutMessagesGetSlowHint(env);
  }

  /** Every caught failure is a 500; a thrown non-`Error` gives the generic message and no hint. */
  lemma CaughtFailureReply(t: Thrown, timestamp: string)
    ensures Status(FailureReply(t, timestamp)) == 500
    ensures FailureReply(t, timestamp).error == (if t.ErrorValue? then t.message else GenericError)
    ensures FailureReply(t, timestamp).timestamp == timestamp
    ensures t.NonErrorValue? ==> FailureReply(t, timestamp).details == ""
  {
  }

  /**
   * An audited page yields a 200 report: the violations in their order with
   * every node's screenshot null, the two counts, and the engine's URL unless
   * it reported none.
   */
  lemma AuditedPageReports(url: string, env: Environment, statusText: string, html: string, results: AuditResults, timestamp: string)
    requires url != "" && html != ""
    ensures var reply := Analyze(Parsed(StringUrl(url)), env, Responded(true, statusText, html), Audited(results), timestamp);
      && Status(reply) == 200
      && |reply.report.violations| == |results.violations|
      && (forall k | 0 <= k < |results.violations| ::
            && reply.report.violations[k].id == results.violations[k].id
            && reply.report.violations[k].impact == results.violations[k].impact
            && |reply.report.violations[k].nodes| == |results.violations[k].nodes|)
      && (forall k, j | 0 <= k < |results.violations| && 0 <= j < |results.violations[k].nodes| ::
            reply.report.violations[k].nodes[j] == results.violations[k].nodes[j].(screenshot := None))
      && reply.report.violations == WithoutScreenshots(results.violations)
      && NoScreenshots(reply.report.violations)
      && reply.report.passes == |results.passes|
      && reply.report.incomplete == |results.incomplete|
      && reply.report.url == (if results.url != "" then results.url else url)
      && reply.report.timestamp == timestamp
  {
    ScreenshotsCleared(results.violations);
  }

  predicate NoScreenshots(vs: seq<Issue>)
  {
    forall k, j | 0 <= k < |vs| && 0 <= j < |vs[k].nodes| :: vs[k].nodes[j].screenshot == None
  }

  /** After normalisation no node carries a screenshot, and the node fields other than `screenshot` are those of the engine. */
  lemma ScreenshotsCleared(vs: seq<Issue>)
    ensures NoScreenshots(WithoutScreenshots(vs))
    ensures forall k, j | 0 <= k < |vs| && 0 <= j < |vs[k].nodes| ::
      var n := WithoutScreenshots(vs)[k].nodes[j];
      n.html == vs[k].nodes[j].html && n.target == vs[k].nodes[j].target && n.failureSummary == vs[k].nodes[j].failureSummary
  {
  }

  /** Normalising an already normalised list changes nothing. */
  lemma WithoutScreenshotsIdempotent(vs: seq<Issue>)
    ensures WithoutScreenshots(WithoutScreenshots(vs)) == WithoutScreenshots(vs)
  {
    var once := WithoutScreenshots(vs);
    forall k | 0 <= k < |once|
      ensures ClearScreenshots(once[k].nodes) == once[k].nodes
    {
    }
  }
}
