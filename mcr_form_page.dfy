/** The MCR form page: its state slots, the effects that fill them (the signed-in user,
    the record being edited, the prorated amount), the submit handler with its landlord
    check and its choice between POST and PUT, and the reset after a successful submit. */
module FormPage {
  import opened Strings
  import opened Calendar
  import opened Money
  import opened FormStatus
  import opened Records
  import opened Proration
  import opened Usernames
  import opened Wire
  import opened Binding

  /** The values of the page's form state slots. Date pickers hold a Date, an Invalid
      Date or null; text fields hold strings; the prorated amount is a number of cents,
      NaN or null. */
  datatype FormFields = FormFields(
    housingSpecialistName: string,
    housingSpecialistEmail: string,
    date: Option<DateValue>,
    programType: string,
    lastFourSSN: string,
    tenantName: string,
    ownerAccountNumber: string,
    addressLine1: string,
    addressLine2: string,
    city: string,
    state: string,
    zipCode: string,
    landlordFirstName: string,
    landlordLastName: string,
    entityName: string,
    effectiveDate: Option<DateValue>,
    startDate: Option<DateValue>,
    endDate: Option<DateValue>,
    reasonComments: string,
    mcrType: string,
    thirdPartyPaymentsVerified: bool,
    transactionScreenVerified: bool,
    overlappingHAP: bool,
    selectedType: string,
    description: string,
    vacateDate: Option<DateValue>,
    hapAmount: string,
    proratedAmount: Option<ProratedValue>)

  /** The initial values of the slots when the page opens at instant now. */
  function InitialFields(now: Date): FormFields {
    FormFields("", "", Some(ValidDate(now)), "", "", "", "", "", "", "Vallejo", "California", "",
      "", "", "", None, None, None, "", "", false, false, false, "", "", None, "", None)
  }

  /** What resetForm leaves: every slot back at its initial value except the two
      specialist slots, which keep the signed-in user's name and email. */
  function Cleared(f: FormFields, now: Date): (g: FormFields)
    ensures g.housingSpecialistName == f.housingSpecialistName
    ensures g.housingSpecialistEmail == f.housingSpecialistEmail
    ensures g.city == "Vallejo" && g.state == "California" && g.proratedAmount.None?
  {
    InitialFields(now).(housingSpecialistName := f.housingSpecialistName,
      housingSpecialistEmail := f.housingSpecialistEmail)
  }

  /** A reset page is a freshly opened page for the same user, and its prorated amount
      agrees with its (empty) amount and vacate date. */
  lemma ClearedIsInitial(f: FormFields, now: Date)
    ensures var g := Cleared(f, now);
      g.(housingSpecialistName := "", housingSpecialistEmail := "") == InitialFields(now)
      && g.proratedAmount == ProratedCents(g.hapAmount, g.vacateDate)
  {
  }

  /** Resetting twice is resetting once. */
  lemma ClearedIdempotent(f: FormFields, now: Date)
    ensures Cleared(Cleared(f, now), now) == Cleared(f, now)
  {
  }

  // ---------------------------------------------------------------------------
  // The landlord check and the request

  /** An entity name, or both a landlord first and last name, after trimming. */
  function HasLandlordIdentification(f: FormFields): (b: bool)
    ensures b <==> !AllJsSpace(f.entityName) || (!AllJsSpace(f.landlordFirstName) && !AllJsSpace(f.landlordLastName))
  {
    TrimEmptyIff(f.entityName);
    TrimEmptyIff(f.landlordFirstName);
    TrimEmptyIff(f.landlordLastName);
    Trim(f.entityName) != [] || (Trim(f.landlordFirstName) != [] && Trim(f.landlordLastName) != [])
  }

  const LandlordMessage: string :=
    "Please provide either Entity Name or both Landlord First Name and Last Name."

  const ApiBase: string := "https://housing-forms.cityofvallejo.net/api/MCR"

  /** `editingFormData && editingFormData.id`: a record is being edited and its id is
      truthy (not 0). */
  predicate IsEditing(editing: Option<ApiForm>) {
    editing.Some? && editing.value.id != 0
  }

  datatype Verb = Post | Put

  datatype Request = Request(verb: Verb, url: string, body: Payload)

  /** A slot holding an Invalid Date. */
  predicate HasInvalidDate(f: FormFields) {
    Some(InvalidDate) in [f.date, f.effectiveDate, f.startDate, f.endDate, f.vacateDate]
  }

  /** The body built from the slots: dates as their instants (left out when null),
      HAPAmount as `parseFloat(hapAmount) || 0`, the prorated amount as JSON writes it,
      NaN as null. None when building it throws, on an Invalid Date. */
  function PayloadOf(f: FormFields): (p: Option<Payload>)
    ensures p.None? <==> HasInvalidDate(f)
    ensures p.Some? ==> p.value.hapAmount == AmountOrZero(f.hapAmount)
    ensures p.Some? ==> p.value.proratedAmount == JsonCents(f.proratedAmount)
  {
    var date, effective, start, end, vacate :=
      InstantOf(f.date), InstantOf(f.effectiveDate), InstantOf(f.startDate), InstantOf(f.endDate),
      InstantOf(f.vacateDate);
    if date.None? || effective.None? || start.None? || end.None? || vacate.None? then None
    else
      Some(Payload(f.housingSpecialistName, f.housingSpecialistEmail, date.value,
        f.programType, f.lastFourSSN, f.tenantName, f.ownerAccountNumber,
        f.addressLine1, f.addressLine2, f.city, f.state, f.zipCode,
        f.landlordFirstName, f.landlordLastName, f.entityName,
        effective.value, start.value, end.value,
        f.reasonComments, f.mcrType,
        f.thirdPartyPaymentsVerified, f.transactionScreenVerified, f.overlappingHAP,
        f.selectedType, f.description, vacate.value,
        AmountOrZero(f.hapAmount), JsonCents(f.proratedAmount)))
  }

  /** `d?.toISOString()`: Some(None) for null, which the body leaves out, Some of the
      instant for a Date, and None, the RangeError it throws, for an Invalid Date. */
  function InstantOf(d: Option<DateValue>): (r: Option<Option<Instant>>)
    ensures r.None? <==> d == Some(InvalidDate)
    ensures r.Some? ==> (r.value.Some? <==> d.Some?)
    ensures r.Some? && d.Some? ==> r.value.value == d.value.date.instant
  {
    match d
    case None => Some(None)
    case Some(ValidDate(date)) => Some(Some(date.instant))
    case Some(InvalidDate) => None
  }

  /** JSON.stringify of the prorated slot: a number of cents, and null for null and NaN. */
  function JsonCents(v: Option<ProratedValue>): (r: Option<int>)
    ensures r.Some? <==> v.Some? && v.value.InCents?
    ensures r.Some? ==> r.value == v.value.cents
  {
    if v.Some? && v.value.InCents? then Some(v.value.cents) else None
  }

  /** PUT to the record's own URL when editing, otherwise POST to the collection; None
      when the body cannot be built. */
  function RequestFor(f: FormFields, editing: Option<ApiForm>): (r: Option<Request>)
    ensures r.Some? <==> PayloadOf(f).Some?
    ensures r.Some? ==> r.value.body == PayloadOf(f).value
    ensures r.Some? ==> (r.value.verb == Put <==> IsEditing(editing))
    ensures r.Some? && IsEditing(editing) ==> r.value.url == ApiBase + "/" + IntToString(editing.value.id)
    ensures r.Some? && !IsEditing(editing) ==> r.value.url == ApiBase
  {
    match PayloadOf(f)
    case None => None
    case Some(body) =>
      if IsEditing(editing) then Some(Request(Put, ApiBase + "/" + IntToString(editing.value.id), body))
      else Some(Request(Post, ApiBase, body))
  }

  /** The body never names a record or a status, so the API binds a record with Id 0,
      FormId 0 and status Pending, whatever is being edited. */
  lemma BoundPayloadHasNoIdentity(f: FormFields, editing: Option<ApiForm>, now: Instant)
    ensures RequestFor(f, editing).Some? ==>
      var r := BindPayload(RequestFor(f, editing).value.body, now);
      r.id == 0 && r.formId == 0 && r.status == Pending
  {
  }

  /** The landlord check is weaker than the API's annotations: an entity name alone
      passes it, but the API still requires both landlord names. */
  lemma EntityNameAloneIsRefusedByApi(f: FormFields, now: Instant)
    requires Trim(f.entityName) != [] && f.landlordFirstName == []
    ensures HasLandlordIdentification(f)
    ensures PayloadOf(f).Some? ==> !IsValid(BindPayload(PayloadOf(f).value, now))
  {
    if PayloadOf(f).Some? {
      BoundValidIff(PayloadOf(f).value, now);
      assert IsBlank(f.landlordFirstName);
    }
  }

  /** The API's annotations imply the landlord check, as long as neither landlord name
      holds U+FEFF: a name that is not .NET white space keeps a character after
      JavaScript's trim. */
  lemma ValidBodyPassesLandlordCheck(f: FormFields, now: Instant)
    requires PayloadOf(f).Some? && IsValid(BindPayload(PayloadOf(f).value, now))
    requires '\U{FEFF}' !in f.landlordFirstName && '\U{FEFF}' !in f.landlordLastName
    ensures HasLandlordIdentification(f)
  {
    BoundValidIff(PayloadOf(f).value, now);
    BlankVersusTrim(f.landlordFirstName);
    BlankVersusTrim(f.landlordLastName);
  }

  /** With U+FEFF the two notions part: a name made of that one character is not blank
      to the API but is empty after JavaScript's trim. */
  lemma ByteOrderMarkName()
    ensures !IsBlank("\U{FEFF}") && Trim("\U{FEFF}") == []
  {
    TrimEmptyIff("\U{FEFF}");
  }

  /** A string with a character that is not .NET white space keeps a character after
      JavaScript's trim, unless that character is U+FEFF, which only JavaScript trims. */
  lemma BlankVersusTrim(s: string)
    requires !IsBlank(s) && '\U{FEFF}' !in s
    ensures Trim(s) != []
  {
    TrimEmptyIff(s);
    if AllJsSpace(s) {
      var i :| 0 <= i < |s| && !IsDotNetSpace(s[i]);
      assert IsJsSpace(s[i]);
      SpaceNotionsDiffer(s[i]);
    }
  }

  // ---------------------------------------------------------------------------
  // The populate effect

  /** What the populate effect writes over the slots for a record being edited:
      `value || default` for each text and flag, the amount printed with toString,
      a prorated amount of 0 read as null; the dates are set because the API always
      sends them, the vacate date only when the record has one; the specialist slots
      only when the record names a specialist. */
  function Populated(f: FormFields, d: ApiForm): (g: FormFields)
    ensures g.city != [] && g.state != []
    ensures g.proratedAmount.Some? ==> g.proratedAmount.value.InCents? && g.proratedAmount.value.cents != 0
    ensures d.housingSpecialistName == [] ==> g.housingSpecialistName == f.housingSpecialistName
  {
    f.(tenantName := d.tenantName,
       addressLine1 := d.addressLine1,
       addressLine2 := d.addressLine2.GetOr(""),
       city := if d.city != [] then d.city else "Vallejo",
       state := if d.state != [] then d.state else "California",
       zipCode := d.zipCode,
       landlordFirstName := d.landlordFirstName,
       landlordLastName := d.landlordLastName,
       entityName := d.entityName.GetOr(""),
       ownerAccountNumber := d.ownerAccountNumber,
       programType := d.programType,
       lastFourSSN := d.lastFourSSN,
       mcrType := d.mcrType,
       hapAmount := NumberText(d.hapAmount),
       proratedAmount := if d.proratedAmount.Some? && d.proratedAmount.value != 0 then Some(InCents(d.proratedAmount.value)) else None,
       reasonComments := d.reasonComments.GetOr(""),
       description := d.description.GetOr(""),
       selectedType := d.selectedType,
       thirdPartyPaymentsVerified := d.thirdPartyPaymentsVerified,
       transactionScreenVerified := d.transactionScreenVerified,
       overlappingHAP := d.overlappingHAP,
       effectiveDate := Some(ValidDate(d.effectiveDate)),
       startDate := Some(ValidDate(d.startDate)),
       endDate := Some(ValidDate(d.endDate)),
       vacateDate := if d.dateIntendedToVacate.Some? then Some(ValidDate(d.dateIntendedToVacate.value)) else f.vacateDate,
       date := Some(ValidDate(d.date)),
       housingSpecialistName := if d.housingSpecialistName != [] then d.housingSpecialistName else f.housingSpecialistName,
       housingSpecialistEmail := if d.housingSpecialistEmail != [] then d.housingSpecialistEmail else f.housingSpecialistEmail)
  }

  /** A loaded page holds an Invalid Date only in a vacate slot the record leaves
      alone. */
  lemma PopulatedDates(f: FormFields, d: ApiForm)
    ensures HasInvalidDate(Populated(f, d)) <==> d.dateIntendedToVacate.None? && f.vacateDate == Some(InvalidDate)
  {
    var g := Populated(f, d);
    assert g.date == Some(ValidDate(d.date)) && g.effectiveDate == Some(ValidDate(d.effectiveDate));
    assert g.startDate == Some(ValidDate(d.startDate)) && g.endDate == Some(ValidDate(d.endDate));
    assert d.dateIntendedToVacate.None? ==> g.vacateDate == f.vacateDate;
  }

  /** The loaded HAP text reads back through `parseFloat(text) || 0` as the record's
      cents. */
  lemma PopulatedAmountReadsBack(f: FormFields, d: ApiForm)
    ensures ParseAmount(Populated(f, d).hapAmount).Some?
    ensures Cents(AmountOrZero(Populated(f, d).hapAmount)) == d.hapAmount
  {
    assert Populated(f, d).hapAmount == NumberText(d.hapAmount);
    ParseNumberText(d.hapAmount);
  }

  /** Editing round trip: a record put into the page and sent back unchanged carries
      its own texts, flags and dates, and an amount worth the same number of cents. The
      body can be built unless the record has no vacate date and the slot it leaves
      alone holds an Invalid Date. */
  lemma PopulateRoundTrip(f: FormFields, d: ApiForm)
    requires d.city != [] && d.state != [] && d.housingSpecialistName != [] && d.housingSpecialistEmail != []
    ensures PayloadOf(Populated(f, d)).Some? <==> d.dateIntendedToVacate.Some? || f.vacateDate != Some(InvalidDate)
    ensures PayloadOf(Populated(f, d)).Some? ==>
      var p := PayloadOf(Populated(f, d)).value;
      p.tenantName == d.tenantName && p.addressLine1 == d.addressLine1
      && p.city == d.city && p.state == d.state && p.zipCode == d.zipCode
      && p.landlordFirstName == d.landlordFirstName && p.landlordLastName == d.landlordLastName
      && p.ownerAccountNumber == d.ownerAccountNumber && p.programType == d.programType
      && p.lastFourSSN == d.lastFourSSN && p.mcrType == d.mcrType
      && p.housingSpecialistName == d.housingSpecialistName
      && p.housingSpecialistEmail == d.housingSpecialistEmail
      && p.selectedType == d.selectedType
      && p.effectiveDate == Some(d.effectiveDate.instant) && p.date == Some(d.date.instant)
      && Cents(p.hapAmount) == d.hapAmount
  {
    var g := Populated(f, d);
    assert InstantOf(g.date) == Some(Some(d.date.instant));
    assert InstantOf(g.effectiveDate) == Some(Some(d.effectiveDate.instant));
    assert InstantOf(g.startDate).Some? && InstantOf(g.endDate).Some?;
    assert InstantOf(g.vacateDate).None? <==> d.dateIntendedToVacate.None? && f.vacateDate == Some(InvalidDate);
    ParseNumberText(d.hapAmount);
  }

  /** The rounding the API's decimal(18,2) column applies: a number of cents as a
      decimal. */
  lemma CentsOfCents(c: int)
    ensures Cents(Decimal(c, 2)) == c
  {
    CentsExact(Decimal(c, 2));
  }

  // ---------------------------------------------------------------------------
  // The page

  datatype Severity = SuccessSeverity | ErrorSeverity

  datatype Snackbar = Snackbar(open: bool, message: string, severity: Severity)

  /** How the fetch call ends: a 2xx response, another status with its body text, or
      a thrown error. */
  datatype FetchOutcome = Ok | HttpError(status: int, text: string) | NetworkError(error: string)

  /** How a RangeError prints in a template string, as V8 words toISOString's. */
  const InvalidTimeValue: string := "RangeError: Invalid time value"

  /** The message the snackbar shows for an outcome. */
  function OutcomeMessage(outcome: FetchOutcome, editing: bool): string {
    match outcome
    case Ok => if editing then "MCR form updated successfully!" else "MCR form submitted successfully!"
    case HttpError(status, text) => "Failed to submit form: " + IntToString(status) + " - " + text
    case NetworkError(e) => "Error submitting form: " + e
  }

  class McrFormPage {
    var fields: FormFields
    var isSubmitting: bool
    var snackbar: Snackbar

    /** The page as it opens at instant now. */
    constructor(now: Date)
      ensures fields == InitialFields(now) && !isSubmitting
      ensures snackbar == Snackbar(false, "", SuccessSeverity)
    {
      fields := InitialFields(now);
      isSubmitting := false;
      snackbar := Snackbar(false, "", SuccessSeverity);
    }

    /** The effect that fills in the specialist from the stored username: the display
        name and `<username>@cityofvallejo.net`; nothing when no username is stored. */
    method FillSpecialist(username: Option<string>)
      modifies this
      ensures isSubmitting == old(isSubmitting) && snackbar == old(snackbar)
      ensures username.Some? && username.value != [] ==>
        fields == old(fields).(housingSpecialistName := FormatUsernameToName(username.value),
          housingSpecialistEmail := username.value + "@cityofvallejo.net")
      ensures !(username.Some? && username.value != []) ==> fields == old(fields)
    {
      if username.Some? && username.value != [] {
        var name := FormatUsernameToName(username.value);
        var email := username.value + "@cityofvallejo.net";
        fields := fields.(housingSpecialistName := name);
        fields := fields.(housingSpecialistEmail := email);
      }
    }

    /** The effect that recomputes the prorated amount after the amount or the vacate
        date changed. */
    method RecalculateProration()
      modifies this
      ensures fields == old(fields).(proratedAmount := ProratedCents(old(fields).hapAmount, old(fields).vacateDate))
      ensures isSubmitting == old(isSubmitting) && snackbar == old(snackbar)
    {
      fields := fields.(proratedAmount := ProratedCents(fields.hapAmount, fields.vacateDate));
    }

    /** The effect that fills the slots from the record being edited. */
    method Populate(editing: Option<ApiForm>)
      modifies this
      ensures editing.Some? ==> fields == Populated(old(fields), editing.value)
      ensures editing.None? ==> fields == old(fields)
      ensures isSubmitting == old(isSubmitting) && snackbar == old(snackbar)
    {
      if editing.Some? {
        fields := Populated(fields, editing.value);
      }
    }

    /** resetForm. */
    method ResetForm(now: Date)
      modifies this
      ensures fields == Cleared(old(fields), now)
      ensures isSubmitting == old(isSubmitting) && snackbar == old(snackbar)
    {
      var name, email := fields.housingSpecialistName, fields.housingSpecialistEmail;
      fields := InitialFields(now);
      fields := fields.(housingSpecialistName := name, housingSpecialistEmail := email);
    }

    /** handleCloseSnackbar: the message stays, the snackbar closes. */
    method CloseSnackbar()
      modifies this
      ensures snackbar == old(snackbar).(open := false)
      ensures fields == old(fields) && isSubmitting == old(isSubmitting)
    {
      snackbar := snackbar.(open := false);
    }

    /** handleSubmit. Without landlord identification no request is sent and an error
        is shown. Otherwise the body is built inside the try: an Invalid Date makes
        toISOString throw, so no request is sent and the catch shows the error. With a
        body the request is made (its outcome is the parameter); a 2xx response resets
        the form and calls onFormSubmitted, anything else leaves the slots alone with an
        error. Past the landlord check isSubmitting ends false. */
    method HandleSubmit(editing: Option<ApiForm>, outcome: FetchOutcome, now: Date)
      returns (request: Option<Request>, formSubmitted: bool)
      modifies this
      ensures !HasLandlordIdentification(old(fields)) ==>
        request.None? && !formSubmitted && fields == old(fields)
        && isSubmitting == old(isSubmitting) && snackbar == Snackbar(true, LandlordMessage, ErrorSeverity)
      ensures HasLandlordIdentification(old(fields)) && HasInvalidDate(old(fields)) ==>
        request.None? && !formSubmitted && fields == old(fields) && !isSubmitting
        && snackbar == Snackbar(true, "Error submitting form: " + InvalidTimeValue, ErrorSeverity)
      ensures HasLandlordIdentification(old(fields)) && !HasInvalidDate(old(fields)) ==>
        request.Some? && request == RequestFor(old(fields), editing) && !isSubmitting
        && formSubmitted == outcome.Ok?
        && fields == (if outcome.Ok? then Cleared(old(fields), now) else old(fields))
        && snackbar == Snackbar(true, OutcomeMessage(outcome, IsEditing(editing)),
             if outcome.Ok? then SuccessSeverity else ErrorSeverity)
    {
      if !HasLandlordIdentification(fields) {
        snackbar := Snackbar(true, LandlordMessage, ErrorSeverity);
        return None, false;
      }
      isSubmitting := true;
      request := RequestFor(fields, editing);
      if request.None? {
        // toISOString threw while the body was built: the catch reports the error.
        formSubmitted := ReportOutcome(NetworkError(InvalidTimeValue), IsEditing(editing), now);
      } else {
        formSubmitted := ReportOutcome(outcome, IsEditing(editing), now);
      }
      isSubmitting := false;
    }

    /** The response part of handleSubmit: a 2xx response shows the success message,
        resets the form and calls onFormSubmitted; anything else shows the error and
        leaves the slots alone. */
    method ReportOutcome(outcome: FetchOutcome, editing: bool, now: Date) returns (formSubmitted: bool)
      modifies this
      ensures formSubmitted == outcome.Ok?
      ensures fields == (if outcome.Ok? then Cleared(old(fields), now) else old(fields))
      ensures snackbar == Snackbar(true, OutcomeMessage(outcome, editing),
        if outcome.Ok? then SuccessSeverity else ErrorSeverity)
      ensures isSubmitting == old(isSubmitting)
    {
      var message := OutcomeMessage(outcome, editing);
      if outcome.Ok? {
        snackbar := Snackbar(true, message, SuccessSeverity);
        ResetForm(now);
        formSubmitted := true;
      } else {
        snackbar := Snackbar(true, message, ErrorSeverity);
        formSubmitted := false;
      }
    }
  }
}
