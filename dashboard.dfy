/** The specialist's dashboard: the display name of the signed-in user, the records that
    user submitted, the statistics cards, the status filter of the recent list, where a
    click on a record leads, and the notifications. */
module Dashboard {
  import opened Strings
  import opened Calendar
  import opened FormStatus
  import opened Wire
  import opened Usernames
  import opened Lists

  /** `username ? formatUsernameToName(username) : 'User'`. */
  function DisplayName(username: Option<string>): string {
    if username.None? || username.value == [] then "User" else FormatUsernameToName(username.value)
  }

  /** Without a username the dashboard greets "User"; otherwise it uses the form page's
      rule character by character. */
  lemma DisplayNameSpec(username: Option<string>)
    ensures username.None? || username.value == [] ==> DisplayName(username) == "User"
    ensures username.Some? && username.value != [] ==>
      var r := DisplayName(username);
      |r| == |username.value|
      && forall i :: 0 <= i < |username.value| ==> r[i] == NameCharAt(username.value, i, true)
  {
  }

  // ---------------------------------------------------------------------------
  // The user's records

  /** A record the signed-in user submitted: its specialist name is non-empty and
      equals the display name, case ignored. */
  predicate IsUsersForm(a: ApiForm, displayName: string) {
    a.housingSpecialistName != [] && EqualsIgnoreCase(a.housingSpecialistName, displayName)
  }

  function UsersFormFn(displayName: string): ApiForm -> bool {
    (a: ApiForm) => IsUsersForm(a, displayName)
  }

  function UserForms(all: seq<ApiForm>, displayName: string): (r: seq<ApiForm>)
    ensures forall a :: a in r <==> (a in all && a.housingSpecialistName != []
      && EqualsIgnoreCase(a.housingSpecialistName, displayName))
  {
    Filter(all, UsersFormFn(displayName))
  }

  /** A row of the recent list: the record's id, tenant and "line1, city, state", its
      status label, and the record itself for editing. The row has no creation time. */
  datatype DashRow = DashRow(id: int, tenantName: string, address: string, status: string, original: ApiForm)

  function RowOf(a: ApiForm): (r: DashRow)
    ensures r.original == a && r.id == a.id && r.status == StatusLabel(a.status)
  {
    DashRow(a.id, a.tenantName, a.addressLine1 + ", " + a.city + ", " + a.state, StatusLabel(a.status), a)
  }

  /** The transformed rows, in the order of the records. The sort that follows
      compares `new Date(b.createdAt || a.date)` with `new Date(a.createdAt || a.date)`:
      a row has no createdAt, so both sides read the same a.date and the comparator is
      0 (or NaN, which sort treats as 0) for every pair, and the stable sort leaves the
      rows where they are. */
  function RowsOf(forms: seq<ApiForm>): (r: seq<DashRow>)
    ensures |r| == |forms|
    ensures forall i :: 0 <= i < |forms| ==> r[i] == RowOf(forms[i])
  {
    seq(|forms|, i requires 0 <= i < |forms| => RowOf(forms[i]))
  }

  /** Newest first by the records' creation times, the order GET /api/MCR returns. */
  predicate NewestFirst(forms: seq<ApiForm>) {
    forall i, j :: 0 <= i < j < |forms| ==> forms[i].createdAt.instant >= forms[j].createdAt.instant
  }

  /** The dashboard's list keeps the API's newest-first order: filtering keeps order. */
  lemma {:induction false} UserFormsKeepOrder(all: seq<ApiForm>, displayName: string)
    requires NewestFirst(all)
    ensures NewestFirst(UserForms(all, displayName))
  {
    if all != [] {
      UserFormsKeepOrder(all[1..], displayName);
      var rest := UserForms(all[1..], displayName);
      if IsUsersForm(all[0], displayName) {
        assert UserForms(all, displayName) == [all[0]] + rest;
        forall j | 0 <= j < |rest| ensures all[0].createdAt.instant >= rest[j].createdAt.instant {
          assert rest[j] in all[1..];
          var k :| 0 <= k < |all[1..]| && all[1..][k] == rest[j];
          assert all[k + 1] == rest[j];
        }
      } else {
        assert UserForms(all, displayName) == rest;
      }
    }
  }

  // ---------------------------------------------------------------------------
  // The statistics cards

  datatype Stats = Stats(totalForms: nat, pendingForms: nat, approvedForms: nat, rejectedForms: nat,
    thisMonth: nat, lastMonth: nat)

  function LabelIs(word: string): ApiForm -> bool {
    (a: ApiForm) => ToLower(StatusLabel(a.status)) == word
  }

  /** Created in the 0-based month and the year given, in the browser's calendar. */
  function CreatedIn(month: int, year: int): ApiForm -> bool {
    (a: ApiForm) => a.createdAt.local.month - 1 == month && a.createdAt.local.year == year
  }

  /** The cards for the user's records at instant now: the three status counts by the
      lower-cased label; this month's records, and the previous month's. */
  function StatsOf(userForms: seq<ApiForm>, now: Date): (s: Stats)
    ensures s.totalForms == |userForms|
    ensures s.pendingForms + s.approvedForms + s.rejectedForms <= s.totalForms
    ensures s.thisMonth <= s.totalForms && s.lastMonth <= s.totalForms
  {
    CountDisjoint3(userForms, LabelIs("pending"), LabelIs("approved"), LabelIs("rejected"));
    var currentMonth := now.local.month - 1;
    var currentYear := now.local.year;
    var previous := PreviousMonth(currentMonth, currentYear);
    Stats(|userForms|,
      Count(userForms, LabelIs("pending")),
      Count(userForms, LabelIs("approved")),
      Count(userForms, LabelIs("rejected")),
      Count(userForms, CreatedIn(currentMonth, currentYear)),
      Count(userForms, CreatedIn(previous.0, previous.1)))
  }

  /** The last-month card counts exactly the records created in the calendar month just
      before now's, January's predecessor being December of the year before. */
  lemma LastMonthIsPreviousMonth(a: ApiForm, now: Date)
    ensures var previous := PreviousMonth(now.local.month - 1, now.local.year);
      CreatedIn(previous.0, previous.1)(a) <==>
      MonthIndex(a.createdAt.local.year, a.createdAt.local.month) == MonthIndex(now.local.year, now.local.month) - 1
  {
    var previous := PreviousMonth(now.local.month - 1, now.local.year);
    if MonthIndex(a.createdAt.local.year, a.createdAt.local.month) == MonthIndex(now.local.year, now.local.month) - 1 {
      MonthIndexInjective(a.createdAt.local.year, a.createdAt.local.month, previous.1, previous.0 + 1);
    }
  }

  lemma JanuaryFollowsDecember()
    ensures PreviousMonth(0, 2025) == (11, 2024) && PreviousMonth(5, 2025) == (4, 2025)
  {
  }

  // ---------------------------------------------------------------------------
  // The recent list and the navigation

  /** The recent list: every row for "All", otherwise the rows whose label equals the
      filter, case ignored. */
  function RecentForms(rows: seq<DashRow>, statusFilter: string): (r: seq<DashRow>)
    ensures statusFilter == "All" ==> r == rows
    ensures statusFilter != "All" ==> forall x :: x in r <==> x in rows && EqualsIgnoreCase(x.status, statusFilter)
  {
    if statusFilter == "All" then rows else Filter(rows, StatusMatches(statusFilter))
  }

  function StatusMatches(statusFilter: string): DashRow -> bool {
    (x: DashRow) => EqualsIgnoreCase(x.status, statusFilter)
  }

  /** The filter's case does not matter. */
  lemma RecentFormsIgnoreCase(rows: seq<DashRow>, f: string, g: string)
    requires f != "All" && g != "All" && EqualsIgnoreCase(f, g)
    ensures forall x :: x in RecentForms(rows, f) <==> x in RecentForms(rows, g)
  {
  }

  datatype Navigation = EditForm(data: ApiForm) | ShowDetails(id: int)

  /** handleFormClick: a rejected record opens the form page on its original data, any
      other the details of its id. */
  function HandleFormClick(r: DashRow): (n: Navigation)
    ensures n.EditForm? <==> ToLower(r.status) == "rejected"
    ensures n.EditForm? ==> n.data == r.original
    ensures n.ShowDetails? ==> n.id == r.id
  {
    if ToLower(r.status) == "rejected" then EditForm(r.original) else ShowDetails(r.id)
  }

  /** A record the server calls Rejected is opened for editing, and the page then
      edits the record with its own id. */
  lemma RejectedOpensEditor(a: ApiForm)
    requires a.status == StatusCode(Code(Rejected))
    ensures HandleFormClick(RowOf(a)) == EditForm(a)
  {
    assert ToLower("Rejected") == "rejected";
  }

  // ---------------------------------------------------------------------------
  // The notifications

  datatype Notification = Notification(id: string, title: string, message: string)

  /** "form" or "forms". */
  function Plural(n: int): string {
    if n > 1 then "s" else ""
  }

  function RejectedNotice(n: int): Notification {
    Notification("rejected-forms", "Forms Need Attention",
      "You have " + IntToString(n) + " rejected form" + Plural(n) + " that need to be updated and resubmitted.")
  }

  function OldPendingNotice(n: int): Notification {
    Notification("old-pending-forms", "Pending Forms Alert",
      "You have " + IntToString(n) + " form" + Plural(n) + " that have been pending for over 7 days.")
  }

  function RecentActivityNotice(n: int): Notification {
    Notification("recent-activity", "Recent Activity",
      "You've submitted " + IntToString(n) + " form" + Plural(n) + " this week.")
  }

  const DayMs: int := 86400000

  /** A row's creation time as a Date the comparisons can use; None stands for an
      Invalid Date, with which every comparison is false. */
  type CreatedAtReader = DashRow -> Option<Instant>

  /** How the code reads it: `form.createdAt` of a row, which does not exist. */
  function RowCreatedAt(): CreatedAtReader {
    (r: DashRow) => None
  }

  /** How it was evidently meant: the record's own CreatedAt. */
  function OriginalCreatedAt(): CreatedAtReader {
    (r: DashRow) => Some(r.original.createdAt.instant)
  }

  function IsRejectedRow(): DashRow -> bool {
    (r: DashRow) => ToLower(r.status) == "rejected"
  }

  /** Pending and more than 7 days old. */
  function IsOldPending(createdAt: CreatedAtReader, now: Instant): DashRow -> bool {
    (r: DashRow) => ToLower(r.status) == "pending" && createdAt(r).Some? && now - createdAt(r).value > 7 * DayMs
  }

  /** Created at most 7 days before now (the local clock's 7 days taken as 7 * 24
      hours). */
  function IsThisWeek(createdAt: CreatedAtReader, now: Instant): DashRow -> bool {
    (r: DashRow) => createdAt(r).Some? && createdAt(r).value >= now - 7 * DayMs
  }

  /** The notifications of a list, in the order they are pushed. */
  function Notifications(rows: seq<DashRow>, now: Instant, createdAt: CreatedAtReader): (r: seq<Notification>)
    ensures |r| <= 3
    ensures forall i, j :: 0 <= i < j < |r| ==> r[i].id != r[j].id
    ensures var n := Count(rows, IsRejectedRow()); RejectedNotice(n) in r <==> n > 0
    ensures var n := Count(rows, IsOldPending(createdAt, now)); OldPendingNotice(n) in r <==> n > 0
    ensures var n := Count(rows, IsThisWeek(createdAt, now)); RecentActivityNotice(n) in r <==> n > 0
    ensures forall x :: x in r ==> x.id in {"rejected-forms", "old-pending-forms", "recent-activity"}
  {
    var rejected := Count(rows, IsRejectedRow());
    var oldPending := Count(rows, IsOldPending(createdAt, now));
    var thisWeek := Count(rows, IsThisWeek(createdAt, now));
    (if rejected > 0 then [RejectedNotice(rejected)] else [])
    + (if oldPending > 0 then [OldPendingNotice(oldPending)] else [])
    + (if thisWeek > 0 then [RecentActivityNotice(thisWeek)] else [])
  }

  /** generateNotifications, pushing one notification after another. */
  method GenerateNotifications(rows: seq<DashRow>, now: Instant, createdAt: CreatedAtReader)
    returns (notifications: seq<Notification>)
    ensures notifications == Notifications(rows, now, createdAt)
  {
    notifications := [];
    var rejected := Count(rows, IsRejectedRow());
    if rejected > 0 {
      notifications := notifications + [RejectedNotice(rejected)];
    }
    ghost var first := notifications;
    var oldPending := Count(rows, IsOldPending(createdAt, now));
    if oldPending > 0 {
      notifications := notifications + [OldPendingNotice(oldPending)];
    }
    ghost var second := notifications;
    var thisWeek := Count(rows, IsThisWeek(createdAt, now));
    if thisWeek > 0 {
      notifications := notifications + [RecentActivityNotice(thisWeek)];
    }
    assert second == first + (if oldPending > 0 then [OldPendingNotice(oldPending)] else []);
    assert notifications == second + (if thisWeek > 0 then [RecentActivityNotice(thisWeek)] else []);
  }

  /** The rejected notification appears exactly when a row is rejected; its count is
      the number of rejected rows and "form" is plural exactly when it exceeds 1. */
  lemma RejectedNoticeIff(rows: seq<DashRow>, now: Instant, createdAt: CreatedAtReader)
    ensures var ns := Notifications(rows, now, createdAt);
      (ns != [] && ns[0].id == "rejected-forms") <==> exists r :: r in rows && ToLower(r.status) == "rejected"
  {
    var f := Filter(rows, IsRejectedRow());
    if exists r :: r in rows && ToLower(r.status) == "rejected" {
      var r :| r in rows && ToLower(r.status) == "rejected";
      assert r in f;
    } else {
      CountNone(rows, IsRejectedRow());
    }
  }

  /** As written, the only notification ever shown is the rejected one: the row has no
      createdAt, so the two time-based alerts never fire. */
  lemma OnlyRejectedNoticeAsWritten(rows: seq<DashRow>, now: Instant)
    ensures var ns := Notifications(rows, now, RowCreatedAt());
      |ns| <= 1 && forall i :: 0 <= i < |ns| ==> ns[i].id == "rejected-forms"
  {
    CountNone(rows, IsOldPending(RowCreatedAt(), now));
    CountNone(rows, IsThisWeek(RowCreatedAt(), now));
  }

  /** With the record's own CreatedAt, a list holding a record created today gets the
      recent-activity notification. */
  lemma RecentActivityWithCreatedAt(r: DashRow, now: Instant)
    requires r.original.createdAt.instant == now && ToLower(r.status) != "rejected"
    ensures Notifications([r], now, OriginalCreatedAt()) == [RecentActivityNotice(1)]
    ensures Notifications([r], now, RowCreatedAt()) == []
  {
    assert Filter([r], IsThisWeek(OriginalCreatedAt(), now)) == [r];
    assert Filter([r], IsRejectedRow()) == [];
    assert Filter([r], IsOldPending(OriginalCreatedAt(), now)) == [];
    assert Filter([r], IsOldPending(RowCreatedAt(), now)) == [];
    assert Filter([r], IsThisWeek(RowCreatedAt(), now)) == [];
  }

  /** With the record's own CreatedAt, the pending alert appears exactly when some row
      is pending and more than 7 days old. */
  lemma OldPendingWithCreatedAt(rows: seq<DashRow>, now: Instant)
    ensures (exists r :: r in rows && ToLower(r.status) == "pending" && now - r.original.createdAt.instant > 7 * DayMs)
      <==> OldPendingNotice(Count(rows, IsOldPending(OriginalCreatedAt(), now))) in Notifications(rows, now, OriginalCreatedAt())
  {
    var p := IsOldPending(OriginalCreatedAt(), now);
    var f := Filter(rows, p);
    if exists r :: r in rows && ToLower(r.status) == "pending" && now - r.original.createdAt.instant > 7 * DayMs {
      var r :| r in rows && ToLower(r.status) == "pending" && now - r.original.createdAt.instant > 7 * DayMs;
      assert p(r);
      assert r in f;
    } else {
      CountNone(rows, p);
      var ns := Notifications(rows, now, OriginalCreatedAt());
      assert forall n :: n in ns ==> n.id != "old-pending-forms";
    }
  }

  // ---------------------------------------------------------------------------
  // The page

  datatype Card = TotalCard | PendingCard | ApprovedCard | RejectedCard | ThisMonthCard

  class DashboardPage {
    var stats: Stats
    var allUserForms: seq<DashRow>
    var recentForms: seq<DashRow>
    var statusFilter: string
    var notifications: seq<Notification>
    var notificationsOpen: bool
    var error: Option<string>

    constructor()
      ensures stats == Stats(0, 0, 0, 0, 0, 0) && allUserForms == [] && recentForms == []
      ensures statusFilter == "All" && notifications == [] && !notificationsOpen && error.None?
    {
      stats := Stats(0, 0, 0, 0, 0, 0);
      allUserForms := [];
      recentForms := [];
      statusFilter := "All";
      notifications := [];
      notificationsOpen := false;
      error := None;
    }

    /** fetchUserForms, run only when a username is stored: the user's rows and the
        cards, or the load error. */
    method FetchUserForms(username: Option<string>, outcome: LoadOutcome, now: Date)
      modifies this
      ensures username.None? || username.value == [] ==>
        stats == old(stats) && allUserForms == old(allUserForms) && error == old(error)
      ensures username.Some? && username.value != [] && outcome.LoadFailed? ==>
        stats == old(stats) && allUserForms == old(allUserForms) && error == Some("Failed to load dashboard data")
      ensures username.Some? && username.value != [] && outcome.Loaded? ==>
        var mine := UserForms(outcome.data, DisplayName(username));
        allUserForms == RowsOf(mine) && stats == StatsOf(mine, now) && error.None?
      ensures recentForms == old(recentForms) && statusFilter == old(statusFilter)
      ensures notifications == old(notifications) && notificationsOpen == old(notificationsOpen)
    {
      if username.None? || username.value == [] {
        return;
      }
      error := None;
      match outcome {
        case LoadFailed =>
          error := Some("Failed to load dashboard data");
        case Loaded(all) =>
          var mine := UserForms(all, DisplayName(username));
          allUserForms := RowsOf(mine);
          stats := StatsOf(mine, now);
      }
    }

    /** The effect that recomputes the recent list from the rows and the filter. */
    method ApplyStatusFilter()
      modifies this
      ensures recentForms == RecentForms(allUserForms, statusFilter)
      ensures stats == old(stats) && allUserForms == old(allUserForms) && statusFilter == old(statusFilter)
      ensures notifications == old(notifications) && notificationsOpen == old(notificationsOpen)
      ensures error == old(error)
    {
      recentForms := RecentForms(allUserForms, statusFilter);
    }

    /** The notifications effect: it runs only on a non-empty list. */
    method RefreshNotifications(now: Instant)
      modifies this
      ensures |allUserForms| > 0 ==> notifications == Notifications(allUserForms, now, RowCreatedAt())
      ensures |allUserForms| == 0 ==> notifications == old(notifications)
      ensures stats == old(stats) && allUserForms == old(allUserForms) && statusFilter == old(statusFilter)
      ensures recentForms == old(recentForms) && notificationsOpen == old(notificationsOpen)
      ensures error == old(error)
    {
      if |allUserForms| > 0 {
        notifications := GenerateNotifications(allUserForms, now, RowCreatedAt());
      }
    }

    /** handleCardClick: each status card sets its filter; the month card navigates
        away (returned as true) and changes nothing. */
    method CardClick(card: Card) returns (toFormsList: bool)
      modifies this
      ensures toFormsList <==> card == ThisMonthCard
      ensures statusFilter == (match card
        case TotalCard => "All" case PendingCard => "Pending" case ApprovedCard => "Approved"
        case RejectedCard => "Rejected" case ThisMonthCard => old(statusFilter))
      ensures stats == old(stats) && allUserForms == old(allUserForms) && recentForms == old(recentForms)
      ensures notifications == old(notifications) && notificationsOpen == old(notificationsOpen)
      ensures error == old(error)
    {
      toFormsList := false;
      match card {
        case TotalCard => statusFilter := "All";
        case PendingCard => statusFilter := "Pending";
        case ApprovedCard => statusFilter := "Approved";
        case RejectedCard => statusFilter := "Rejected";
        case ThisMonthCard => toFormsList := true;
      }
    }

    /** handleNotificationAction: the rejected notification filters on Rejected; every
        notification closes the list. */
    method NotificationAction(n: Notification)
      modifies this
      ensures statusFilter == if n.id == "rejected-forms" then "Rejected" else old(statusFilter)
      ensures !notificationsOpen
      ensures stats == old(stats) && allUserForms == old(allUserForms) && recentForms == old(recentForms)
      ensures notifications == old(notifications) && error == old(error)
    {
      if n.id == "rejected-forms" {
        statusFilter := "Rejected";
      }
      notificationsOpen := false;
    }
  }
}
