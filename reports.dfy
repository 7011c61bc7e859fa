/** The reports catalogue: the category and status filters over the constant list of
    reports, the titles by report id, and the download of every record as CSV. */
module Reports {
  import opened Strings
  import opened Calendar
  import opened Wire
  import opened Lists
  import opened Csv
  import ReportViewer

  datatype Report = Report(id: string, title: string, description: string, kind: string,
    lastRun: string, frequency: string)

  datatype Category = Category(id: string, name: string, color: string, reports: seq<Report>)

  /** A report as the page lists it: with its category's name and colour. */
  datatype ListedReport = ListedReport(report: Report, category: string, categoryColor: string)

  const Summary := Report("mcr-summary", "MCR Form Summary",
    "Overview of all MCR forms with status breakdown", "summary", "2 hours ago", "Daily")
  const RejectedAnalysis := Report("rejected-forms", "Rejected Forms Analysis",
    "Analysis of rejected forms and common issues", "analysis", "3 days ago", "Monthly")
  const Approvals := Report("form-approvals", "Form Approval Report",
    "Detailed approval workflow and processing times", "detailed", "1 day ago", "Weekly")

  const Catalogue: seq<Category> := [Category("forms", "MCR Reports", "#667eea", [Summary, RejectedAnalysis, Approvals])]

  predicate CategoryKept(c: Category, selected: string) {
    selected == "all" || c.id == selected
  }

  /** "all" keeps every report, "recent" those whose last run mentions "hour",
      "scheduled" those not run on demand, and any other value none. */
  predicate StatusKept(r: ListedReport, selected: string) {
    selected == "all"
    || (selected == "recent" && Includes(r.report.lastRun, "hour"))
    || (selected == "scheduled" && r.report.frequency != "On Demand")
  }

  function CategoryFn(selected: string): Category -> bool {
    (c: Category) => CategoryKept(c, selected)
  }

  function StatusFn(selected: string): ListedReport -> bool {
    (r: ListedReport) => StatusKept(r, selected)
  }

  /** The reports of a category, each carrying the category's name and colour. */
  function Listed(c: Category): (r: seq<ListedReport>)
    ensures |r| == |c.reports|
    ensures forall i :: 0 <= i < |r| ==> r[i] == ListedReport(c.reports[i], c.name, c.color)
  {
    seq(|c.reports|, i requires 0 <= i < |c.reports| => ListedReport(c.reports[i], c.name, c.color))
  }

  /** `flatMap(Listed)`. */
  function FlatMap(cats: seq<Category>): seq<ListedReport> {
    if cats == [] then [] else Listed(cats[0]) + FlatMap(cats[1..])
  }

  /** A listed report comes from one of the categories, with that category's name and
      colour, and every report of every category is listed. */
  lemma {:induction false} FlatMapIff(cats: seq<Category>, x: ListedReport)
    ensures x in FlatMap(cats) <==>
      exists c, i :: c in cats && 0 <= i < |c.reports| && x == ListedReport(c.reports[i], c.name, c.color)
  {
    if cats != [] {
      FlatMapIff(cats[1..], x);
      var c0 := cats[0];
      if x in Listed(c0) {
        var i :| 0 <= i < |Listed(c0)| && Listed(c0)[i] == x;
        assert c0 in cats;
      }
      if exists c, i :: c in cats && 0 <= i < |c.reports| && x == ListedReport(c.reports[i], c.name, c.color) {
        var c, i :| c in cats && 0 <= i < |c.reports| && x == ListedReport(c.reports[i], c.name, c.color);
        if c == c0 {
          assert Listed(c0)[i] == x;
        } else {
          assert c in cats[1..];
        }
      }
    }
  }

  /** x is a report of a category that passes the category filter, with that category's
      name and colour. */
  predicate ListedFrom(cats: seq<Category>, category: string, x: ListedReport) {
    exists c, i :: c in cats && CategoryKept(c, category) && 0 <= i < |c.reports| && x == ListedReport(c.reports[i], c.name, c.color)
  }

  /** filteredReports: a report is listed exactly when its category passes the category
      filter and the report passes the status filter; it carries its category's name
      and colour. */
  function FilteredReports(cats: seq<Category>, category: string, status: string): (r: seq<ListedReport>)
    ensures forall x :: x in r <==> StatusKept(x, status) && ListedFrom(cats, category, x)
  {
    FilteredCategoriesListed(cats, category);
    Filter(FlatMap(Filter(cats, CategoryFn(category))), StatusFn(status))
  }

  lemma FilteredCategoriesListed(cats: seq<Category>, category: string)
    ensures forall x :: x in FlatMap(Filter(cats, CategoryFn(category))) <==> ListedFrom(cats, category, x)
  {
    forall x ensures x in FlatMap(Filter(cats, CategoryFn(category))) <==> ListedFrom(cats, category, x) {
      FlatMapIff(Filter(cats, CategoryFn(category)), x);
    }
  }

  const ListedCatalogue: seq<ListedReport> := [ListedReport(Summary, "MCR Reports", "#667eea"),
    ListedReport(RejectedAnalysis, "MCR Reports", "#667eea"), ListedReport(Approvals, "MCR Reports", "#667eea")]

  lemma AllCategories()
    ensures FlatMap(Filter(Catalogue, CategoryFn("all"))) == ListedCatalogue
  {
    assert Filter(Catalogue, CategoryFn("all")) == Catalogue;
    assert FlatMap(Catalogue) == Listed(Catalogue[0]) + FlatMap([]);
  }

  /** On the catalogue, "recent" keeps only the summary, the one report run hours ago. */
  lemma RecentIsSummaryOnly()
    ensures FilteredReports(Catalogue, "all", "recent") == [ListedCatalogue[0]]
  {
    AllCategories();
    var l := ListedCatalogue;
    RecentRuns();
    assert l[1..][1..][1..] == [];
    assert Filter(l[1..][1..], StatusFn("recent")) == [];
    assert Filter(l[1..], StatusFn("recent")) == [];
  }

  lemma RecentRuns()
    ensures StatusKept(ListedCatalogue[0], "recent")
    ensures !StatusKept(ListedCatalogue[1], "recent") && !StatusKept(ListedCatalogue[2], "recent")
  {
    HoursAgo();
    NoHour(RejectedAnalysis.lastRun);
    NoHour(Approvals.lastRun);
  }

  lemma HoursAgo()
    ensures Includes(Summary.lastRun, "hour")
  {
    var t := Summary.lastRun;
    assert t[2..][..4] == "hour";
    assert Includes(t[2..], "hour");
    assert Includes(t[1..], "hour");
  }

  /** On the catalogue, "scheduled" keeps all three reports, none being on demand. */
  lemma ScheduledIsAll()
    ensures FilteredReports(Catalogue, "all", "scheduled") == ListedCatalogue
  {
    AllCategories();
    FilterKeepsAll(ListedCatalogue, StatusFn("scheduled"));
  }

  /** A category id other than "forms" lists nothing. */
  lemma OtherCategoryIsEmpty(category: string, status: string)
    requires category != "all" && category != "forms"
    ensures FilteredReports(Catalogue, category, status) == []
  {
    assert Filter(Catalogue, CategoryFn(category)) == [];
  }

  lemma NoHour(s: string)
    requires 'h' !in s
    ensures !Includes(s, "hour")
  {
    forall i ensures !OccursAt(s, "hour", i) {
      if 0 <= i && i + 4 <= |s| {
        assert s[i..i + 4][0] == s[i];
        assert s[i] in s;
      }
    }
    IncludesIff(s, "hour");
  }

  /** getReportTitle. */
  function ReportTitle(reportId: string): (r: string)
    ensures r == "Report" <==> reportId !in ["mcr-summary", "rejected-forms", "form-approvals"]
  {
    if reportId == "mcr-summary" then "MCR Form Summary"
    else if reportId == "rejected-forms" then "Rejected Forms Analysis"
    else if reportId == "form-approvals" then "Form Approval Report"
    else "Report"
  }

  /** The title table agrees with the catalogue, and the viewer's title of a report is
      this title with " Report" appended, except the approval report's, whose title
      already ends in it. */
  lemma TitlesAgree(reportId: string)
    ensures forall r :: r in Catalogue[0].reports ==> ReportTitle(r.id) == r.title
    ensures reportId == "mcr-summary" || reportId == "rejected-forms" ==>
      ReportViewer.ReportTitle(reportId) == ReportTitle(reportId) + " Report"
    ensures reportId !in ["mcr-summary", "rejected-forms"] ==>
      ReportViewer.ReportTitle(reportId) == ReportTitle(reportId)
  {
    assert Catalogue[0].reports == [Summary, RejectedAnalysis, Approvals];
    assert "MCR Form Summary" + " Report" == "MCR Form Summary Report";
    assert "Rejected Forms Analysis" + " Report" == "Rejected Forms Analysis Report";
  }

  // ---------------------------------------------------------------------------
  // handleDownloadReport

  const DownloadError: string := "Failed to download report. Please try again."

  /** The file the download saves, or the alert it shows when the fetch fails. Every
      report id downloads the same file: all records, Reports' status labels. */
  function DownloadReport(reportId: string, outcome: LoadOutcome, dateText: Date -> string): (r: Result<string>)
    ensures outcome.Loaded? ==> r == Saved(Export(outcome.data, DownloadLabel, dateText))
    ensures outcome.LoadFailed? ==> r == Alerted(DownloadError)
  {
    match outcome
    case Loaded(data) => Saved(Export(data, DownloadLabel, dateText))
    case LoadFailed => Alerted(DownloadError)
  }

  datatype Result<T> = Saved(file: T) | Alerted(message: string)

  /** The report id plays no part in the download. */
  lemma DownloadIgnoresReport(id1: string, id2: string, outcome: LoadOutcome, dateText: Date -> string)
    ensures DownloadReport(id1, outcome, dateText) == DownloadReport(id2, outcome, dateText)
  {
  }

  /** On records whose statuses are numbers, as the API sends them, the viewer's download
      with its filters cleared is byte for byte this one. */
  lemma ViewerDownloadMatches(forms: seq<ApiForm>, dateText: Date -> string)
    requires forall i :: 0 <= i < |forms| ==> forms[i].status.StatusCode?
    ensures Export(ReportViewer.Filtered(forms, "", "all", "all"), ChipLabel, dateText)
      == Export(forms, DownloadLabel, dateText)
  {
    forall a | a in forms ensures ReportViewer.KeepsFn("", "all", "all")(a) {
    }
    FilterKeepsAll(forms, ReportViewer.KeepsFn("", "all", "all"));
    ChipAndDownloadDiffer();
    assert Table(forms, ChipLabel, dateText) == Table(forms, DownloadLabel, dateText);
  }
}
