/**
 * The report serialisers: the CSV text of a list of violations, the numbers
 * shown on the HTML report's stat cards and in the clipboard summary, and
 * the names given to downloaded files. Creating blobs, clicking links and
 * writing to the clipboard are browser effects and are not modelled; the
 * clock is the parameter `now`.
 */
module ExportUtils {
  import opened AccessibilityTypes
  import opened Text
  import opened AnalyzeRoute

  // ---------------------------------------------------------------------
  // Download names

  datatype ExportKind = Json | Csv | Html

  function Extension(kind: ExportKind): string
  {
    match kind
    case Json => ".json"
    case Csv => ".csv"
    case Html => ".html"
  }

  /** The name used when the caller passes no filename (a default parameter: only `undefined` triggers it). */
  const DefaultFilename := "accessibility-report"

  function BaseName(filename: Option<string>): string
  {
    if filename.Some? then filename.value else DefaultFilename
  }

  /** `${filename}-${Date.now()}.ext` */
  function DownloadName(filename: Option<string>, now: nat, kind: ExportKind): (name: string)
    ensures StartsWith(name, BaseName(filename) + "-")
  {
    BaseName(filename) + "-" + NatToString(now) + Extension(kind)
  }

  /** A download name reads back as the base name, a dash, the time stamp and the extension. */
  lemma DownloadNameParts(filename: Option<string>, now: nat, kind: ExportKind)
    ensures var name := DownloadName(filename, now, kind);
      var base := BaseName(filename);
      var ext := Extension(kind);
      && |base| + 1 + |ext| < |name|
      && name[..|base| + 1] == base + "-"
      && name[|name| - |ext|..] == ext
      && (forall k | |base| + 1 <= k < |name| - |ext| :: IsDigit(name[k]))
      && ParseNat(name[|base| + 1..|name| - |ext|]) == now
  {
    var name := DownloadName(filename, now, kind);
    var base := BaseName(filename);
    var ext := Extension(kind);
    var digits := NatToString(now);
    assert name == (base + "-") + digits + ext;
    assert name[|base| + 1..|name| - |ext|] == digits;
    ParseNatToString(now);
  }

  /** With the same base name, two downloads made at different times or in different formats get different names. */
  lemma DownloadNamesDiffer(filename: Option<string>, now1: nat, kind1: ExportKind, now2: nat, kind2: ExportKind)
    requires now1 != now2 || kind1 != kind2
    ensures DownloadName(filename, now1, kind1) != DownloadName(filename, now2, kind2)
  {
    DownloadNameParts(filename, now1, kind1);
    DownloadNameParts(filename, now2, kind2);
  }

  // ---------------------------------------------------------------------
  // CSV

  const CsvHeaders := ["Impact", "Issue", "Description", "Elements Affected", "Help URL"]

  /** The five cells of a violation's row: impact, help, description with every ',' made ';', node count, help URL. */
  function CsvCells(v: Issue): (cells: seq<string>)
    ensures |cells| == |CsvHeaders|
    ensures ',' !in cells[2]
    ensures (forall k | 0 <= k < |cells[3]| :: IsDigit(cells[3][k])) && ParseNat(cells[3]) == |v.nodes|
  {
    ParseNatToString(|v.nodes|);
    [ImpactName(v.impact), v.help, ReplaceChar(v.description, ',', ';'), NatToString(|v.nodes|), v.helpUrl]
  }

  /** `"${cell}"` */
  function Quote(cell: string): (quoted: string)
    ensures |quoted| == |cell| + 2
    ensures quoted[0] == '"' && quoted[|quoted| - 1] == '"' && quoted[1..|quoted| - 1] == cell
  {
    "\"" + cell + "\""
  }

  function QuoteAll(cells: seq<string>): (r: seq<string>)
    ensures |r| == |cells|
  {
    seq(|cells|, k requires 0 <= k < |cells| => Quote(cells[k]))
  }

  function CsvRow(v: Issue): string
  {
    Join(QuoteAll(CsvCells(v)), ",")
  }

  /** The header line, then one row per violation in input order. */
  function CsvLines(vs: seq<Issue>): (lines: seq<string>)
    ensures |lines| == |vs| + 1
  {
    [Join(CsvHeaders, ",")] + seq(|vs|, k requires 0 <= k < |vs| => CsvRow(vs[k]))
  }

  /** The content of the CSV download. */
  function CsvContent(vs: seq<Issue>): string
  {
    Join(CsvLines(vs), "\n")
  }

  /** `Impact,Issue,Description,Elements Affected,Help URL` */
  const HeaderLine := "Impact," + "Issue," + "Description," + "Elements Affected," + "Help URL"

  /** The header line is the five column names joined by commas. */
  lemma HeaderLineIsJoined()
    ensures Join(CsvHeaders, ",") == HeaderLine
  {
    var h := CsvHeaders;
    assert Join(h[4..], ",") == "Help URL";
    assert Join(h[3..], ",") == "Elements Affected," + "Help URL";
    assert Join(h[2..], ",") == "Description," + "Elements Affected," + "Help URL";
    assert Join(h[1..], ",") == "Issue," + "Description," + "Elements Affected," + "Help URL";
  }

  lemma HeaderLineHasNoNewline()
    ensures '\n' !in HeaderLine
  {
  }

  /** The CSV text begins with the header line, followed by a newline when there are rows. */
  lemma CsvStartsWithHeader(vs: seq<Issue>)
    ensures StartsWith(CsvContent(vs), HeaderLine)
    ensures |vs| > 0 ==> StartsWith(CsvContent(vs), HeaderLine + "\n")
  {
    HeaderLineIsJoined();
    var lines := CsvLines(vs);
    if |vs| > 0 {
      var rest := Join(lines[1..], "\n");
      assert CsvContent(vs) == (HeaderLine + "\n") + rest;
      assert CsvContent(vs)[..|HeaderLine + "\n"|] == HeaderLine + "\n";
      assert CsvContent(vs)[..|HeaderLine|] == HeaderLine;
    } else {
      assert CsvContent(vs) == HeaderLine;
    }
  }

  /** A line break or comma that is in no field of the violation is in no cell of its row. */
  lemma CellsLack(v: Issue, c: char)
    requires c == '\n' || c == ','
    requires c !in v.help && c !in v.helpUrl && (c == ',' || c !in v.description)
    ensures forall k | 0 <= k < |CsvCells(v)| :: c !in CsvCells(v)[k]
  {
    var cells := CsvCells(v);
    assert c !in cells[0] by {
      match v.impact
      case Critical =>
      case Serious =>
      case Moderate =>
      case Minor =>
    }
    assert c !in cells[3] by {
      forall k | 0 <= k < |cells[3]| ensures cells[3][k] != c {
        assert IsDigit(cells[3][k]);
      }
    }
  }

  /** Quoting adds only '"' around the cell. */
  lemma QuoteAllLacks(cells: seq<string>, c: char)
    requires c != '"'
    requires forall k | 0 <= k < |cells| :: c !in cells[k]
    ensures forall k | 0 <= k < |cells| :: c !in QuoteAll(cells)[k]
  {
    forall k | 0 <= k < |cells| ensures c !in QuoteAll(cells)[k] {
      assert QuoteAll(cells)[k] == "\"" + cells[k] + "\"";
    }
  }

  /**
   * When the help text and URL have no commas, splitting a row at ','
   * recovers its five quoted cells: exactly the description's commas were
   * the obstacle, and they are gone.
   */
  lemma CsvRowSplits(v: Issue)
    requires ',' !in v.help && ',' !in v.helpUrl
    ensures Split(CsvRow(v), ',') == QuoteAll(CsvCells(v))
    ensures |Split(CsvRow(v), ',')| == 5
  {
    CellsLack(v, ',');
    QuoteAllLacks(CsvCells(v), ',');
    SplitJoin(QuoteAll(CsvCells(v)), ',');
  }

  /** No row has a line break when no field of its violation has one. */
  lemma CsvRowHasNoNewline(v: Issue)
    requires '\n' !in v.help && '\n' !in v.helpUrl && '\n' !in v.description
    ensures '\n' !in CsvRow(v)
  {
    CellsLack(v, '\n');
    QuoteAllLacks(CsvCells(v), '\n');
    JoinLacks(QuoteAll(CsvCells(v)), ",", '\n');
  }

  /**
   * When no field holds a line break, splitting the CSV text at '\n' gives
   * back the header line and then each violation's row, in input order.
   */
  lemma CsvSplitsIntoLines(vs: seq<Issue>)
    requires forall k | 0 <= k < |vs| :: '\n' !in vs[k].help && '\n' !in vs[k].helpUrl && '\n' !in vs[k].description
    ensures Split(CsvContent(vs), '\n') == CsvLines(vs)
    ensures CsvLines(vs)[0] == HeaderLine
    ensures forall k | 0 <= k < |vs| :: CsvLines(vs)[k + 1] == CsvRow(vs[k])
  {
    var lines := CsvLines(vs);
    HeaderLineIsJoined();
    HeaderLineHasNoNewline();
    forall k | 0 <= k < |lines| ensures '\n' !in lines[k] {
      if k > 0 {
        CsvRowHasNoNewline(vs[k - 1]);
      }
    }
    SplitJoin(lines, '\n');
  }

  // ---------------------------------------------------------------------
  // HTML stat cards and clipboard summary

  /** One figure of a summary: its caption, the CSS tone class it is shown in, and its value. */
  datatype StatCard = StatCard(caption: string, tone: string, value: nat)

  function SeverityLabel(i: Impact): string
  {
    match i
    case Critical => "Critical"
    case Serious => "Serious"
    case Moderate => "Moderate"
    case Minor => "Minor"
  }

  function SeverityCard(vs: seq<Issue>, i: Impact): StatCard
  {
    StatCard(SeverityLabel(i), ImpactName(i), CountImpact(vs, i))
  }

  /** The six cards of the HTML report, in display order. */
  function HtmlStatCards(report: AnalyzeReport): (cards: seq<StatCard>)
    ensures |cards| == 6
  {
    var vs := report.violations;
    [StatCard("Total Violations", "critical", |vs|),
     SeverityCard(vs, Critical), SeverityCard(vs, Serious), SeverityCard(vs, Moderate), SeverityCard(vs, Minor),
     StatCard("Passes", "passes", report.passes)]
  }

  /** The cards' figures: the total, the count of each severity, and the passes; the severities add up to the total. */
  lemma HtmlStatCardsCount(report: AnalyzeReport)
    ensures var cards := HtmlStatCards(report);
      && cards[0].value == |report.violations|
      && cards[1].value == |WithImpact(report.violations, Critical)|
      && cards[2].value == |WithImpact(report.violations, Serious)|
      && cards[3].value == |WithImpact(report.violations, Moderate)|
      && cards[4].value == |WithImpact(report.violations, Minor)|
      && cards[5].value == report.passes
      && cards[1].value + cards[2].value + cards[3].value + cards[4].value == cards[0].value
  {
    CountsCoverAll(report.violations);
  }

  /** `- ${caption}: ${value}` */
  function CountLine(caption: string, value: nat): (line: string)
    ensures StartsWith(line, "- ") && |line| > |caption| + 4
  {
    "- " + caption + ": " + NatToString(value)
  }

  /** The "Summary" and "Violations by Severity" blocks of the clipboard text, line by line. */
  function ClipboardSummaryLines(report: AnalyzeReport): (lines: seq<string>)
    ensures |lines| == 10
  {
    var vs := report.violations;
    ["Summary:",
     CountLine("Total Violations", |vs|),
     CountLine("Passes", report.passes),
     CountLine("Incomplete", report.incomplete),
     "",
     "Violations by Severity:",
     CountLine(SeverityLabel(Critical), CountImpact(vs, Critical)),
     CountLine(SeverityLabel(Serious), CountImpact(vs, Serious)),
     CountLine(SeverityLabel(Moderate), CountImpact(vs, Moderate)),
     CountLine(SeverityLabel(Minor), CountImpact(vs, Minor))]
  }

  /** A count line reads back as its caption and its number. */
  lemma CountLineReadsBack(caption: string, value: nat)
    ensures var line := CountLine(caption, value);
      var lead := "- " + caption + ": ";
      && StartsWith(line, lead)
      && (forall k | |lead| <= k < |line| :: IsDigit(line[k]))
      && ParseNat(line[|lead|..]) == value
  {
    var line := CountLine(caption, value);
    var lead := "- " + caption + ": ";
    assert line == lead + NatToString(value);
    assert line[|lead|..] == NatToString(value);
    assert line[..|lead|] == lead;
    ParseNatToString(value);
  }

  /**
   * The clipboard summary reports the number of violations, the passes and
   * incomplete figures, and the per-severity counts, which add up to the
   * total; each figure matches the corresponding HTML stat card.
   */
  lemma ClipboardSummaryCounts(report: AnalyzeReport)
    ensures var lines := ClipboardSummaryLines(report);
      var cards := HtmlStatCards(report);
      && lines[1] == CountLine("Total Violations", |report.violations|)
      && lines[2] == CountLine("Passes", report.passes)
      && lines[3] == CountLine("Incomplete", report.incomplete)
      && lines[1] == CountLine(cards[0].caption, cards[0].value)
      && lines[2] == CountLine(cards[5].caption, cards[5].value)
      && (forall k | 1 <= k <= 4 :: lines[k + 5] == CountLine(cards[k].caption, cards[k].value))
      && CountImpact(report.violations, Critical) + CountImpact(report.violations, Serious)
         + CountImpact(report.violations, Moderate) + CountImpact(report.violations, Minor) == |report.violations|
  {
    CountsCoverAll(report.violations);
  }
}
