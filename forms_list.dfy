/** The forms database screen: the rows it makes of the records the API lists, the
    approver allow-list, the search and status filter, the summary counters, the
    decision buttons of a row, the optimistic status update and the rejection dialog. */
module FormsList {
  import opened Strings
  import opened FormStatus
  import opened Wire
  import opened Lists

  /** A row of the list: the record as received, its status turned into a label by the
      list's mapping, and the flag that shows a status update in flight. */
  datatype ListRow = ListRow(form: ApiForm, status: string, isUpdating: bool)

  /** The transformation of a fetched record. */
  function RowOf(a: ApiForm): (r: ListRow)
    ensures r.form == a && r.status == StatusLabel(a.status) && !r.isUpdating
  {
    ListRow(a, StatusLabel(a.status), false)
  }

  // ---------------------------------------------------------------------------
  // The allow-list

  const AuthorizedUsers: seq<string> := ["justin.grier", "alicia.jones", "chari.francisco", "shenessa.williams"]

  /** isUserAuthorized: a stored, non-empty username whose lower-cased form is listed;
      that is, a stored name that is one of the four listed ids up to case. */
  function IsUserAuthorized(currentUser: Option<string>): (b: bool)
    ensures b <==> currentUser.Some? && var u := currentUser.value;
      EqualsIgnoreCase(u, "justin.grier") || EqualsIgnoreCase(u, "alicia.jones")
      || EqualsIgnoreCase(u, "chari.francisco") || EqualsIgnoreCase(u, "shenessa.williams")
  {
    ListedIdsAreLowerCase();
    currentUser.Some? && currentUser.value != [] && ToLower(currentUser.value) in AuthorizedUsers
  }

  lemma ListedIdsAreLowerCase()
    ensures forall id :: id in AuthorizedUsers ==> ToLower(id) == id
  {
    assert ToLower("justin.grier") == "justin.grier";
    assert ToLower("alicia.jones") == "alicia.jones";
    assert ToLower("chari.francisco") == "chari.francisco";
    assert ToLower("shenessa.williams") == "shenessa.williams";
  }

  /** Nobody is authorized when no username is stored. */
  lemma NoUserNotAuthorized()
    ensures !IsUserAuthorized(None) && !IsUserAuthorized(Some(""))
  {
  }

  // ---------------------------------------------------------------------------
  // getFullAddress (the same in the details dialog)

  /** Line 1, line 2 when it is non-empty, then "city, state zip", joined with ", ". */
  function FullAddress(line1: string, line2: Option<string>, city: string, state: string, zip: string): (r: string)
    ensures line2.Some? && line2.value != [] ==> r == line1 + ", " + line2.value + ", " + city + ", " + state + " " + zip
    ensures !(line2.Some? && line2.value != []) ==> r == line1 + ", " + city + ", " + state + " " + zip
  {
    var tail := city + ", " + state + " " + zip;
    JoinWritten(line1, line2.GetOr([]), tail);
    if line2.Some? && line2.value != [] then Join([line1, line2.value, tail], ", ")
    else Join([line1, tail], ", ")
  }

  /** Joining two or three parts with ", ", written out. */
  lemma JoinWritten(a: string, b: string, c: string)
    ensures Join([a, c], ", ") == a + ", " + c
    ensures Join([a, b, c], ", ") == a + ", " + (b + ", " + c)
  {
    assert [a, c][1..] == [c];
    assert [a, b, c][1..] == [b, c];
    assert [b, c][1..] == [c];
  }

  /** A missing second line and an empty one give the same address. */
  lemma EmptySecondLineIsMissing(line1: string, city: string, state: string, zip: string)
    ensures FullAddress(line1, Some(""), city, state, zip) == FullAddress(line1, None, city, state, zip)
  {
  }

  function AddressOf(r: ListRow): string {
    FullAddress(r.form.addressLine1, r.form.addressLine2, r.form.city, r.form.state, r.form.zipCode)
  }

  // ---------------------------------------------------------------------------
  // The search and status filter

  /** The case-insensitive search over the tenant, "line1 city state", the status label
      and the specialist. */
  predicate MatchesSearch(r: ListRow, term: string) {
    var t := ToLower(term);
    Includes(ToLower(r.form.tenantName), t)
    || Includes(ToLower(r.form.addressLine1 + " " + r.form.city + " " + r.form.state), t)
    || Includes(ToLower(r.status), t)
    || Includes(ToLower(r.form.housingSpecialistName), t)
  }

  /** "All" keeps every status; any other filter value must equal the label exactly. */
  predicate PassesStatusFilter(r: ListRow, statusFilter: string) {
    statusFilter == "All" || r.status == statusFilter
  }

  predicate Keeps(r: ListRow, term: string, statusFilter: string) {
    PassesStatusFilter(r, statusFilter) && MatchesSearch(r, term)
  }

  function KeepsFn(term: string, statusFilter: string): ListRow -> bool {
    (x: ListRow) => Keeps(x, term, statusFilter)
  }

  /** filteredForms. */
  function FilteredForms(forms: seq<ListRow>, term: string, statusFilter: string): (r: seq<ListRow>)
    ensures forall x :: x in r <==> x in forms && PassesStatusFilter(x, statusFilter) && MatchesSearch(x, term)
  {
    Filter(forms, KeepsFn(term, statusFilter))
  }

  /** The empty term with "All" (what Clear Filters sets) keeps the list as it is. */
  lemma ClearedFiltersKeepAll(forms: seq<ListRow>)
    ensures FilteredForms(forms, "", "All") == forms
  {
    forall x | x in forms ensures Keeps(x, "", "All") {
      assert ToLower("") == "";
    }
    FilterKeepsAll(forms, KeepsFn("", "All"));
  }

  /** A term is matched regardless of its case. */
  lemma SearchIgnoresCase(r: ListRow, a: string, b: string)
    requires EqualsIgnoreCase(a, b)
    ensures MatchesSearch(r, a) <==> MatchesSearch(r, b)
  {
  }

  // ---------------------------------------------------------------------------
  // The summary counters

  function StatusIs(word: string): ListRow -> bool {
    (x: ListRow) => ToLower(x.status) == word
  }

  /** The rows whose label lower-cases to word. */
  function CountStatus(forms: seq<ListRow>, word: string): (n: nat)
    ensures n <= |forms|
  {
    Count(forms, StatusIs(word))
  }

  function ApprovedCount(forms: seq<ListRow>): nat { CountStatus(forms, "approved") }

  function PendingCount(forms: seq<ListRow>): nat { CountStatus(forms, "pending") }

  /** The In Review counter as written: it compares with "in review". */
  function InReviewCountAsWritten(forms: seq<ListRow>): nat { CountStatus(forms, "in review") }

  /** The In Review counter as intended: the lower-cased InReview label. */
  function InReviewCount(forms: seq<ListRow>): nat { CountStatus(forms, "inreview") }

  /** Every label a row can hold when its status came from the server or from an
      update of this screen is one of the four names. */
  predicate LabelsAreNames(forms: seq<ListRow>) {
    forall i :: 0 <= i < |forms| ==> forms[i].status in StatusNames
  }

  lemma LowerNames()
    ensures ToLower("Pending") == "pending" && ToLower("Approved") == "approved"
    ensures ToLower("Rejected") == "rejected" && ToLower("InReview") == "inreview"
  {
  }

  /** The rows made of server records carry names. */
  lemma RowsOfServerRecordsHaveNames(data: seq<ApiForm>)
    requires forall i :: 0 <= i < |data| ==> data[i].status.StatusCode?
    ensures LabelsAreNames(seq(|data|, i requires 0 <= i < |data| => RowOf(data[i])))
  {
    forall i | 0 <= i < |data| ensures StatusLabel(data[i].status) in StatusNames {
      CodeLabelIsName(data[i].status.code);
    }
  }

  /** As written the In Review counter never counts a row whose label is a name. */
  lemma InReviewCounterAlwaysZero(forms: seq<ListRow>)
    requires LabelsAreNames(forms)
    ensures InReviewCountAsWritten(forms) == 0
  {
    LowerNames();
    forall x | x in forms ensures ToLower(x.status) != "in review" {
      var i :| 0 <= i < |forms| && forms[i] == x;
    }
    CountNone(forms, StatusIs("in review"));
  }

  /** A list with one InReview record: the counter as written shows 0, the intended
      counter 1. */
  lemma InReviewCounterExample(a: ApiForm)
    requires a.status == StatusCode(3)
    ensures InReviewCountAsWritten([RowOf(a)]) == 0 && InReviewCount([RowOf(a)]) == 1
  {
    InReviewCounterAlwaysZero([RowOf(a)]);
    LowerNames();
    assert RowOf(a).status == "InReview";
  }

  /** With the intended counter the three counters never exceed the number of rows. */
  lemma CountersWithinTotal(forms: seq<ListRow>)
    ensures ApprovedCount(forms) + PendingCount(forms) + InReviewCount(forms) <= |forms|
  {
    CountDisjoint3(forms, StatusIs("approved"), StatusIs("pending"), StatusIs("inreview"));
  }

  // ---------------------------------------------------------------------------
  // The actions of a row

  datatype RowActions =
    | Decide(disabled: bool)   // Approve and Reject, disabled while an update is in flight
    | ViewOnly                 // the "View only" note
    | NoDecision               // only View Details

  /** The buttons beside View Details. */
  function ActionsOf(r: ListRow, currentUser: Option<string>): (a: RowActions)
    ensures a.Decide? <==> r.status == "Pending" && IsUserAuthorized(currentUser)
    ensures a.Decide? ==> a.disabled == r.isUpdating
    ensures a.ViewOnly? <==> r.status == "Pending" && !IsUserAuthorized(currentUser)
  {
    if r.status != "Pending" then NoDecision
    else if IsUserAuthorized(currentUser) then Decide(r.isUpdating)
    else ViewOnly
  }

  // ---------------------------------------------------------------------------
  // The optimistic status update

  /** `forms.map(form => form.id === id ? {...form, status?, isUpdating} : form)`. */
  function WithRow(forms: seq<ListRow>, id: int, status: Option<string>, updating: bool): (r: seq<ListRow>)
    ensures |r| == |forms|
    ensures forall i :: 0 <= i < |forms| && forms[i].form.id != id ==> r[i] == forms[i]
    ensures forall i :: 0 <= i < |forms| && forms[i].form.id == id ==>
      r[i] == forms[i].(status := status.GetOr(forms[i].status), isUpdating := updating)
  {
    seq(|forms|, i requires 0 <= i < |forms| =>
      if forms[i].form.id == id then forms[i].(status := status.GetOr(forms[i].status), isUpdating := updating)
      else forms[i])
  }

  /** The update keeps every record, and the order and ids of the rows. */
  lemma WithRowKeepsRecords(forms: seq<ListRow>, id: int, status: Option<string>, updating: bool)
    ensures var r := WithRow(forms, id, status, updating);
      forall i :: 0 <= i < |forms| ==> r[i].form == forms[i].form
  {
  }

  /** A failed update leaves a list without updates in flight exactly as it was. */
  lemma FailedUpdateRestores(forms: seq<ListRow>, id: int)
    requires forall i :: 0 <= i < |forms| ==> !forms[i].isUpdating
    ensures WithRow(WithRow(forms, id, None, true), id, None, false) == forms
  {
  }

  /** A successful update gives every row with that id the new status. */
  lemma SucceededUpdateSetsStatus(forms: seq<ListRow>, id: int, newStatus: string)
    ensures var r := WithRow(WithRow(forms, id, None, true), id, Some(newStatus), false);
      forall i :: 0 <= i < |r| ==>
        (r[i].form.id == id ==> r[i].status == newStatus && !r[i].isUpdating)
        && (r[i].form.id != id ==> r[i] == forms[i])
  {
  }

  const ApiBase: string := "https://housing-forms.cityofvallejo.net/api/MCR"

  /** PUT /api/MCR/{id}/status with the body `{ status: newStatus }`. */
  datatype StatusRequest = StatusRequest(url: string, body: StatusJson)

  function StatusRequestFor(id: int, newStatus: string): (r: StatusRequest)
    ensures |r.url| > |ApiBase| + 8
    ensures r.url[..|ApiBase| + 1] == ApiBase + "/" && r.url[|r.url| - 7..] == "/status"
    ensures forall s :: EqualsIgnoreCase(newStatus, Name(s)) ==> BindStatus(r.body) == Some(Code(s))
    ensures NumericValue(newStatus).Some? ==> BindStatus(r.body) == NumericValue(newStatus)
    ensures BindStatus(r.body).None? <==> (forall s :: !EqualsIgnoreCase(newStatus, Name(s))) && NumericValue(newStatus).None?
  {
    BindStatusString(newStatus);
    StatusRequest(ApiBase + "/" + IntToString(id) + "/status", StatusString(newStatus))
  }

  /** The screen's two decisions bind on the API to Approved and Rejected. */
  lemma DecisionsBind()
    ensures BindStatus(StatusRequestFor(0, "Approved").body) == Some(Code(Approved))
    ensures BindStatus(StatusRequestFor(0, "Rejected").body) == Some(Code(Rejected))
  {
    BindStatusString("Approved");
    BindStatusString("Rejected");
  }

  /** How the fetch of a status update ends. */
  datatype UpdateOutcome = Updated | UpdateRefused(status: int, text: string) | UpdateThrew(error: string)

  const LoadError: string := "Failed to load forms. Please try again later."

  /** The error a status update leaves: none on success, the status and body text of
      a refused request, or the message of a thrown error. */
  function UpdateError(outcome: UpdateOutcome): (r: Option<string>)
    ensures r.None? <==> outcome.Updated?
    ensures outcome.UpdateRefused? ==> |r.value| > 25 && r.value[..25] == "Failed to update status: "
    ensures outcome.UpdateThrew? ==> |r.value| >= 23 && r.value[..23] == "Error updating status: "
  {
    match outcome
    case Updated => None
    case UpdateRefused(status, text) => Some("Failed to update status: " + IntToString(status) + " - " + text)
    case UpdateThrew(e) => Some("Error updating status: " + e)
  }

  class FormsListPage {
    var forms: seq<ListRow>
    var searchTerm: string
    var statusFilter: string
    var error: Option<string>
    var selectedForm: Option<ListRow>
    var detailsOpen: bool
    var rejectionDialogOpen: bool
    var rejectionReason: string
    var formToReject: Option<ListRow>

    /** The screen as it opens: no rows, the filter on Pending. */
    constructor()
      ensures forms == [] && searchTerm == "" && statusFilter == "Pending" && error.None?
      ensures selectedForm.None? && !detailsOpen
      ensures !rejectionDialogOpen && rejectionReason == "" && formToReject.None?
    {
      forms := [];
      searchTerm := "";
      statusFilter := "Pending";
      error := None;
      selectedForm := None;
      detailsOpen := false;
      rejectionDialogOpen := false;
      rejectionReason := "";
      formToReject := None;
    }

    /** The fetch effect: the transformed records, or the load error. */
    method Load(outcome: LoadOutcome)
      modifies this
      ensures outcome.Loaded? ==>
        forms == seq(|outcome.data|, i requires 0 <= i < |outcome.data| => RowOf(outcome.data[i]))
        && error.None?
      ensures outcome.LoadFailed? ==> forms == old(forms) && error == Some(LoadError)
      ensures searchTerm == old(searchTerm) && statusFilter == old(statusFilter)
      ensures selectedForm == old(selectedForm) && detailsOpen == old(detailsOpen)
      ensures rejectionDialogOpen == old(rejectionDialogOpen) && rejectionReason == old(rejectionReason)
      ensures formToReject == old(formToReject)
    {
      error := None;
      match outcome {
        case Loaded(data) =>
          forms := seq(|data|, i requires 0 <= i < |data| => RowOf(data[i]));
        case LoadFailed =>
          error := Some(LoadError);
      }
    }

    /** Closing the error snackbar, by its close button or when it hides itself after six
        seconds, clears the message and nothing else. */
    method CloseError()
      modifies this
      ensures error.None?
      ensures forms == old(forms) && searchTerm == old(searchTerm) && statusFilter == old(statusFilter)
      ensures selectedForm == old(selectedForm) && detailsOpen == old(detailsOpen)
      ensures rejectionDialogOpen == old(rejectionDialogOpen) && rejectionReason == old(rejectionReason)
      ensures formToReject == old(formToReject)
    {
      error := None;
    }

    /** The Clear Filters button. */
    method ClearFilters()
      modifies this
      ensures searchTerm == "" && statusFilter == "All"
      ensures FilteredForms(forms, searchTerm, statusFilter) == forms
      ensures forms == old(forms) && error == old(error)
      ensures selectedForm == old(selectedForm) && detailsOpen == old(detailsOpen)
      ensures rejectionDialogOpen == old(rejectionDialogOpen) && rejectionReason == old(rejectionReason)
      ensures formToReject == old(formToReject)
    {
      searchTerm := "";
      statusFilter := "All";
      ClearedFiltersKeepAll(forms);
    }

    /** The first stage of updateFormStatus: the row with that id shows the spinner. */
    method BeginStatusUpdate(id: int)
      modifies this
      ensures forms == WithRow(old(forms), id, None, true)
      ensures error == old(error) && searchTerm == old(searchTerm) && statusFilter == old(statusFilter)
      ensures selectedForm == old(selectedForm) && detailsOpen == old(detailsOpen)
      ensures rejectionDialogOpen == old(rejectionDialogOpen) && rejectionReason == old(rejectionReason)
      ensures formToReject == old(formToReject)
    {
      forms := WithRow(forms, id, None, true);
    }

    /** The second stage: on success the row takes the new status and the error clears;
        otherwise the spinner stops, the status stays and the error is shown. */
    method FinishStatusUpdate(id: int, newStatus: string, outcome: UpdateOutcome)
      modifies this
      ensures forms == WithRow(old(forms), id, if outcome.Updated? then Some(newStatus) else None, false)
      ensures error == UpdateError(outcome)
      ensures searchTerm == old(searchTerm) && statusFilter == old(statusFilter)
      ensures selectedForm == old(selectedForm) && detailsOpen == old(detailsOpen)
      ensures rejectionDialogOpen == old(rejectionDialogOpen) && rejectionReason == old(rejectionReason)
      ensures formToReject == old(formToReject)
    {
      match outcome {
        case Updated =>
          forms := WithRow(forms, id, Some(newStatus), false);
          error := None;
        case UpdateRefused(status, text) =>
          forms := WithRow(forms, id, None, false);
          error := Some("Failed to update status: " + IntToString(status) + " - " + text);
        case UpdateThrew(e) =>
          forms := WithRow(forms, id, None, false);
          error := Some("Error updating status: " + e);
      }
    }

    /** updateFormStatus: both stages, with the request it sends. */
    method UpdateFormStatus(id: int, newStatus: string, outcome: UpdateOutcome) returns (request: StatusRequest)
      modifies this
      ensures request == StatusRequestFor(id, newStatus)
      ensures forms == WithRow(WithRow(old(forms), id, None, true), id,
        if outcome.Updated? then Some(newStatus) else None, false)
      ensures error == UpdateError(outcome)
      ensures searchTerm == old(searchTerm) && statusFilter == old(statusFilter)
      ensures selectedForm == old(selectedForm) && detailsOpen == old(detailsOpen)
      ensures rejectionDialogOpen == old(rejectionDialogOpen) && rejectionReason == old(rejectionReason)
      ensures formToReject == old(formToReject)
    {
      BeginStatusUpdate(id);
      request := StatusRequestFor(id, newStatus);
      FinishStatusUpdate(id, newStatus, outcome);
    }

    /** handleRejectClick: the dialog opens for that row with an empty reason. */
    method RejectClick(r: ListRow)
      modifies this
      ensures formToReject == Some(r) && rejectionReason == "" && rejectionDialogOpen
      ensures forms == old(forms) && error == old(error)
      ensures searchTerm == old(searchTerm) && statusFilter == old(statusFilter)
      ensures selectedForm == old(selectedForm) && detailsOpen == old(detailsOpen)
    {
      formToReject := Some(r);
      rejectionReason := "";
      rejectionDialogOpen := true;
    }

    /** Typing in the reason field. */
    method SetRejectionReason(text: string)
      modifies this
      ensures rejectionReason == text
      ensures formToReject == old(formToReject) && rejectionDialogOpen == old(rejectionDialogOpen)
      ensures forms == old(forms) && error == old(error)
      ensures searchTerm == old(searchTerm) && statusFilter == old(statusFilter)
      ensures selectedForm == old(selectedForm) && detailsOpen == old(detailsOpen)
    {
      rejectionReason := text;
    }

    /** handleRejectionDialogClose. */
    method CloseRejectionDialog()
      modifies this
      ensures !rejectionDialogOpen && formToReject.None? && rejectionReason == ""
      ensures forms == old(forms) && error == old(error)
      ensures searchTerm == old(searchTerm) && statusFilter == old(statusFilter)
      ensures selectedForm == old(selectedForm) && detailsOpen == old(detailsOpen)
    {
      rejectionDialogOpen := false;
      formToReject := None;
      rejectionReason := "";
    }

    /** handleRejectionSubmit: only with a row chosen and a reason that is not blank
        after trimming is the rejection sent, and the dialog then resets; otherwise
        nothing happens. The reason itself is not sent. */
    method SubmitRejection(outcome: UpdateOutcome) returns (request: Option<StatusRequest>)
      modifies this
      ensures old(formToReject).Some? && Trim(old(rejectionReason)) != [] ==>
        var id := old(formToReject).value.form.id;
        request == Some(StatusRequestFor(id, "Rejected"))
        && forms == WithRow(WithRow(old(forms), id, None, true), id,
             if outcome.Updated? then Some("Rejected") else None, false)
        && error == UpdateError(outcome)
        && !rejectionDialogOpen && formToReject.None? && rejectionReason == ""
      ensures !(old(formToReject).Some? && Trim(old(rejectionReason)) != []) ==>
        request.None? && forms == old(forms) && error == old(error)
        && rejectionDialogOpen == old(rejectionDialogOpen) && formToReject == old(formToReject)
        && rejectionReason == old(rejectionReason)
      ensures searchTerm == old(searchTerm) && statusFilter == old(statusFilter)
      ensures selectedForm == old(selectedForm) && detailsOpen == old(detailsOpen)
    {
      if formToReject.Some? && Trim(rejectionReason) != [] {
        var sent := UpdateFormStatus(formToReject.value.form.id, "Rejected", outcome);
        request := Some(sent);
        CloseRejectionDialog();
      } else {
        request := None;
      }
    }

    /** handleViewDetails. */
    method ViewDetails(r: ListRow)
      modifies this
      ensures selectedForm == Some(r) && detailsOpen
      ensures forms == old(forms) && error == old(error)
      ensures searchTerm == old(searchTerm) && statusFilter == old(statusFilter)
      ensures rejectionDialogOpen == old(rejectionDialogOpen) && rejectionReason == old(rejectionReason)
      ensures formToReject == old(formToReject)
    {
      selectedForm := Some(r);
      detailsOpen := true;
    }

    /** handleCloseDetails. */
    method CloseDetails()
      modifies this
      ensures selectedForm.None? && !detailsOpen
      ensures forms == old(forms) && error == old(error)
      ensures searchTerm == old(searchTerm) && statusFilter == old(statusFilter)
      ensures rejectionDialogOpen == old(rejectionDialogOpen) && rejectionReason == old(rejectionReason)
      ensures formToReject == old(formToReject)
    {
      selectedForm := None;
      detailsOpen := false;
    }

    /** The onApprove and onReject callbacks handed to the details dialog: the status is
        updated and the dialog closes, with no allow-list check and, for a rejection,
        no reason. */
    method DecideFromDetails(id: int, newStatus: string, outcome: UpdateOutcome) returns (request: StatusRequest)
      modifies this
      ensures request == StatusRequestFor(id, newStatus)
      ensures forms == WithRow(WithRow(old(forms), id, None, true), id,
        if outcome.Updated? then Some(newStatus) else None, false)
      ensures error == UpdateError(outcome)
      ensures selectedForm.None? && !detailsOpen
      ensures searchTerm == old(searchTerm) && statusFilter == old(statusFilter)
      ensures rejectionDialogOpen == old(rejectionDialogOpen) && rejectionReason == old(rejectionReason)
      ensures formToReject == old(formToReject)
    {
      request := UpdateFormStatus(id, newStatus, outcome);
      CloseDetails();
    }

    /** The row's Approve button: it is rendered for a Pending row only when the user is
        on the allow-list, and it is disabled while the row updates; a click on it
        updates the status to Approved. Where there is no enabled button nothing
        happens. */
    method ApproveFromRow(currentUser: Option<string>, r: ListRow, outcome: UpdateOutcome)
      returns (request: Option<StatusRequest>)
      modifies this
      ensures !IsUserAuthorized(currentUser) ==> request.None? && forms == old(forms)
      ensures ActionsOf(r, currentUser) == Decide(false) ==>
        request == Some(StatusRequestFor(r.form.id, "Approved"))
        && forms == WithRow(WithRow(old(forms), r.form.id, None, true), r.form.id,
             if outcome.Updated? then Some("Approved") else None, false)
        && error == UpdateError(outcome)
      ensures ActionsOf(r, currentUser) != Decide(false) ==>
        request.None? && forms == old(forms) && error == old(error)
      ensures searchTerm == old(searchTerm) && statusFilter == old(statusFilter)
      ensures selectedForm == old(selectedForm) && detailsOpen == old(detailsOpen)
      ensures rejectionDialogOpen == old(rejectionDialogOpen) && rejectionReason == old(rejectionReason)
      ensures formToReject == old(formToReject)
    {
      if ActionsOf(r, currentUser) == Decide(false) {
        var sent := UpdateFormStatus(r.form.id, "Approved", outcome);
        request := Some(sent);
      } else {
        request := None;
      }
    }

    /** The row's Reject button, rendered and enabled like Approve: a click opens the
        rejection dialog for the row, which asks for a reason before anything is sent. */
    method RejectFromRow(currentUser: Option<string>, r: ListRow)
      modifies this
      ensures ActionsOf(r, currentUser) == Decide(false) ==>
        formToReject == Some(r) && rejectionReason == "" && rejectionDialogOpen
      ensures ActionsOf(r, currentUser) != Decide(false) ==>
        formToReject == old(formToReject) && rejectionReason == old(rejectionReason)
        && rejectionDialogOpen == old(rejectionDialogOpen)
      ensures forms == old(forms) && error == old(error)
      ensures searchTerm == old(searchTerm) && statusFilter == old(statusFilter)
      ensures selectedForm == old(selectedForm) && detailsOpen == old(detailsOpen)
    {
      if ActionsOf(r, currentUser) == Decide(false) {
        RejectClick(r);
      }
    }

    /** The details callbacks as the allow-list evidently intends: the page passes
        onApprove and onReject only to a user on the allow-list, so the dialog of a
        Pending row offers the buttons exactly as the row does; a decision then
        updates the status and closes the dialog, as DecideFromDetails does. */
    method DecideFromDetailsCorrected(currentUser: Option<string>, r: ListRow, newStatus: string, outcome: UpdateOutcome)
      returns (request: Option<StatusRequest>)
      modifies this
      ensures !IsUserAuthorized(currentUser) ==>
        request.None? && forms == old(forms) && error == old(error)
        && selectedForm == old(selectedForm) && detailsOpen == old(detailsOpen)
      ensures r.status == "Pending" && IsUserAuthorized(currentUser) ==>
        request == Some(StatusRequestFor(r.form.id, newStatus))
        && forms == WithRow(WithRow(old(forms), r.form.id, None, true), r.form.id,
             if outcome.Updated? then Some(newStatus) else None, false)
        && error == UpdateError(outcome)
        && selectedForm.None? && !detailsOpen
      ensures r.status != "Pending" ==>
        request.None? && forms == old(forms) && error == old(error)
        && selectedForm == old(selectedForm) && detailsOpen == old(detailsOpen)
      ensures searchTerm == old(searchTerm) && statusFilter == old(statusFilter)
      ensures rejectionDialogOpen == old(rejectionDialogOpen) && rejectionReason == old(rejectionReason)
      ensures formToReject == old(formToReject)
    {
      if r.status == "Pending" && IsUserAuthorized(currentUser) {
        var sent := DecideFromDetails(r.form.id, newStatus, outcome);
        request := Some(sent);
      } else {
        request := None;
      }
    }
  }
}
