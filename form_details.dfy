/** The read-only details dialog of a forms-list row: nothing for a null form; otherwise
    the status chip, the joined address, the read-only fields with their "N/A" fallback,
    the description shown only for the type "other", and the decision buttons. */
module FormDetails {
  import opened Strings
  import opened Wire
  import opened FormsList

  /** ReadOnlyField's text: `value || 'N/A'` for a string value. */
  function ReadOnlyText(v: string): (r: string)
    ensures r != []
    ensures v != [] ==> r == v
  {
    if v == [] then "N/A" else v
  }

  /** `form.description` is shown when the selected type is "other" and the description
      is neither null nor empty. */
  function ShownDescription(selectedType: string, description: Option<string>): (r: Option<string>)
    ensures r.Some? <==> selectedType == "other" && description.Some? && description.value != []
    ensures r.Some? ==> r == description
  {
    if selectedType == "other" && description.Some? && description.value != [] then description else None
  }

  /** What the dialog shows of a row. */
  datatype View = View(
    id: int,
    chipLabel: string,
    chipColor: ChipColor,
    address: string,
    emailText: string,
    description: Option<string>,
    decisionButtons: bool)

  /** The dialog for a row, or nothing at all for a null form. The buttons need the
      label "Pending" exactly and both callbacks. */
  function Render(form: Option<ListRow>, hasOnApprove: bool, hasOnReject: bool): (v: Option<View>)
    ensures v.None? <==> form.None?
    ensures v.Some? ==> (v.value.decisionButtons <==> form.value.status == "Pending" && hasOnApprove && hasOnReject)
    ensures v.Some? ==> v.value.chipLabel == form.value.status && v.value.id == form.value.form.id
    ensures v.Some? ==> v.value.address == AddressOf(form.value) && v.value.emailText != []
  {
    if form.None? then None
    else
      var r := form.value;
      Some(View(r.form.id, r.status, StatusColor(r.status), AddressOf(r),
        ReadOnlyText(r.form.housingSpecialistEmail),
        ShownDescription(r.form.selectedType, r.form.description),
        r.status == "Pending" && hasOnApprove && hasOnReject))
  }

  /** The buttons depend on the exact label: "pending" in lower case gets the Pending
      colour but no buttons. */
  lemma ButtonsNeedExactLabel(r: ListRow)
    requires r.status == "pending"
    ensures Render(Some(r), true, true).value.chipColor == Warning
    ensures !Render(Some(r), true, true).value.decisionButtons
  {
    assert ToLower("pending") == "pending";
  }

  /** Rendered from the forms list, which passes both callbacks, a Pending row always
      gets the buttons, whoever is signed in. */
  lemma ListAlwaysOffersButtonsOnPending(r: ListRow)
    requires r.status == "Pending"
    ensures Render(Some(r), true, true).value.decisionButtons
    ensures CanDecideAsWritten(r, None, true)
  {
  }

  // ---------------------------------------------------------------------------
  // Who can decide a form

  /** Whether the dialog of a row shows Approve and Reject, given whether the page
      passes the two callbacks. */
  predicate DetailsButtons(r: ListRow, callbacks: bool) {
    Render(Some(r), callbacks, callbacks).value.decisionButtons
  }

  /** Whether a user can send a decision on a row as written: through the row's buttons
      when ActionsOf offers them, through the details dialog whenever it shows its
      buttons, the forms list passing both callbacks to everyone. */
  predicate CanDecideAsWritten(r: ListRow, currentUser: Option<string>, viaDetails: bool) {
    if viaDetails then DetailsButtons(r, true) else ActionsOf(r, currentUser).Decide?
  }

  /** As evidently intended: the callbacks are passed only to a user on the allow-list
      (FormsListPage.DecideFromDetailsCorrected). */
  predicate CanDecideCorrected(r: ListRow, currentUser: Option<string>, viaDetails: bool) {
    if viaDetails then DetailsButtons(r, IsUserAuthorized(currentUser)) else ActionsOf(r, currentUser).Decide?
  }

  /** As written, a user who is not on the allow-list decides a Pending form from its
      details dialog, though its row offers no buttons. */
  lemma DetailsBypassAllowList(r: ListRow)
    requires r.status == "Pending"
    ensures CanDecideAsWritten(r, None, true) && !CanDecideAsWritten(r, None, false)
    ensures !IsUserAuthorized(None)
  {
  }

  /** With the callbacks passed only to the allow-list, a decision can be sent exactly
      on a Pending row by an authorized user, through the dialog as through the row. */
  lemma OnlyAuthorizedDecide(r: ListRow, currentUser: Option<string>, viaDetails: bool)
    ensures CanDecideCorrected(r, currentUser, viaDetails) <==> r.status == "Pending" && IsUserAuthorized(currentUser)
    ensures CanDecideCorrected(r, currentUser, true) == CanDecideCorrected(r, currentUser, false)
  {
  }
}
