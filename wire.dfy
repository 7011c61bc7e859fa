/** An MCR record as the browser receives it from GET /api/MCR, and the hand-written
    conversions the screens apply to its status: the label the forms list and the
    dashboard show, the label the report viewer's chip and the reports download show,
    and the colour each screen gives a label. */
module Wire {
  import opened Strings
  import opened Calendar
  import opened Money
  import opened FormStatus
  import opened Records

  /** A status value in JSON: a number, a string, or null / missing. */
  datatype WireStatus = StatusCode(code: int) | StatusText(text: string) | StatusAbsent

  /** The MCR record as a JSON object. Non-nullable columns always carry a value;
      nullable ones may be null. Amounts are JSON numbers read from decimal(18,2)
      columns, here in cents; dates are the Date objects `new Date(text)` makes of the
      serialised DateTime values. */
  datatype ApiForm = ApiForm(
    id: int,
    formId: int,
    housingSpecialistName: string,
    housingSpecialistEmail: string,
    date: Date,
    programType: string,
    lastFourSSN: string,
    tenantName: string,
    ownerAccountNumber: string,
    addressLine1: string,
    addressLine2: Option<string>,
    city: string,
    state: string,
    zipCode: string,
    entityName: Option<string>,
    landlordFirstName: string,
    landlordLastName: string,
    effectiveDate: Date,
    startDate: Date,
    endDate: Date,
    reasonComments: Option<string>,
    mcrType: string,
    thirdPartyPaymentsVerified: bool,
    transactionScreenVerified: bool,
    overlappingHAP: bool,
    selectedType: string,
    description: Option<string>,
    hapAmount: int,
    dateIntendedToVacate: Option<Date>,
    proratedAmount: Option<int>,
    signatureData: Option<string>,
    createdAt: Date,
    status: WireStatus)

  /** The JSON the API writes for a stored record: the status as its integer code (no
      string converter is registered for the record's enum), each amount as the column's
      two decimals; `local` is how the browser reads a serialised instant. The model
      takes the conversion to decimal(18,2) to round half away from zero, as Cents does,
      and applies it when a record is read. The 201 body of a submission is not read
      back, so it carries the amounts as sent. */
  function ToApiForm(f: McrForm, local: Instant -> Date): (a: ApiForm)
    ensures a.status == StatusCode(Code(f.status)) && a.id == f.id && a.formId == f.formId
  {
    ApiForm(f.id, f.formId, f.housingSpecialistName, f.housingSpecialistEmail, local(f.date),
      f.programType, f.lastFourSSN, f.tenantName, f.ownerAccountNumber,
      f.addressLine1, f.addressLine2, f.city, f.state, f.zipCode,
      f.entityName, f.landlordFirstName, f.landlordLastName,
      local(f.effectiveDate), local(f.startDate), local(f.endDate), f.reasonComments, f.mcrType,
      f.thirdPartyPaymentsVerified, f.transactionScreenVerified, f.overlappingHAP,
      f.selectedType, f.description, Cents(f.hapAmount),
      if f.dateIntendedToVacate.Some? then Some(local(f.dateIntendedToVacate.value)) else None,
      if f.proratedAmount.Some? then Some(Cents(f.proratedAmount.value)) else None,
      f.signatureData, local(f.createdAt), StatusCode(Code(f.status)))
  }

  /** Reading a record back loses nothing of an amount with at most two decimals: the
      JSON amount is worth the stored one exactly. */
  lemma ToApiFormKeepsCents(f: McrForm, local: Instant -> Date)
    requires f.hapAmount.scale <= 2
    ensures ToApiForm(f, local).hapAmount * Pow10(f.hapAmount.scale) == f.hapAmount.mantissa * 100
  {
    CentsExact(f.hapAmount);
  }

  /** How a screen's GET /api/MCR ends: the records in the order the API lists them, or
      a failure of any kind (an error status, a network error, a body that is not
      JSON). */
  datatype LoadOutcome = Loaded(data: seq<ApiForm>) | LoadFailed

  // ---------------------------------------------------------------------------
  // The status label of the forms list and the dashboard

  const StatusNames: seq<string> := ["Pending", "Approved", "Rejected", "InReview"]

  /** `typeof s === 'number' ? [...names][s] || 'Pending' : s || 'Pending'`. */
  function StatusLabel(w: WireStatus): (r: string)
    ensures r != []
  {
    match w
    case StatusCode(n) => if 0 <= n < 4 then StatusNames[n] else "Pending"
    case StatusText(t) => if t == [] then "Pending" else t
    case StatusAbsent => "Pending"
  }

  /** The label of a status code the server sends is that status's name, the same text
      the database column stores. */
  lemma LabelOfCodeIsName(s: Status)
    ensures StatusLabel(StatusCode(Code(s))) == Name(s)
  {
  }

  /** Numbers outside the enum, null and the empty string all read as Pending; any
      other string is shown as it is. */
  lemma LabelDefaults(w: WireStatus)
    ensures StatusLabel(w) == "Pending" <==>
      (w.StatusCode? && (w.code == 0 || !(0 <= w.code < 4)))
      || (w.StatusText? && (w.text == [] || w.text == "Pending"))
      || w.StatusAbsent?
    ensures w.StatusText? && w.text != [] ==> StatusLabel(w) == w.text
  {
  }

  /** A label made from a number is one of the four names. */
  lemma CodeLabelIsName(n: int)
    ensures StatusLabel(StatusCode(n)) in StatusNames
  {
  }

  // ---------------------------------------------------------------------------
  // The status label of the report viewer's chip and of the reports download

  /** getStatusChip: a lookup in an object keyed "0", "1" and "2", so a number and the
      string of its digits find the same entry; anything else, InReview's code 3
      included, is "Unknown". */
  function ChipLabel(w: WireStatus): (r: string)
    ensures r in ["Pending", "Approved", "Rejected", "Unknown"]
  {
    match w
    case StatusCode(n) => if 0 <= n < 3 then StatusNames[n] else "Unknown"
    case StatusText(t) =>
      if t == "0" then "Pending" else if t == "1" then "Approved"
      else if t == "2" then "Rejected" else "Unknown"
    case StatusAbsent => "Unknown"
  }

  /** The download of Reports.tsx: strict comparisons with the numbers 0, 1 and 2. */
  function DownloadLabel(w: WireStatus): (r: string)
    ensures r in ["Pending", "Approved", "Rejected", "Unknown"]
  {
    if w == StatusCode(0) then "Pending" else if w == StatusCode(1) then "Approved"
    else if w == StatusCode(2) then "Rejected" else "Unknown"
  }

  /** For the numbers the server sends the two report labels agree with each other, and
      with the list label except on InReview, which both reports call "Unknown". */
  lemma ReportLabelsOnServerCodes(s: Status)
    ensures ChipLabel(StatusCode(Code(s))) == DownloadLabel(StatusCode(Code(s)))
    ensures s != InReview ==> ChipLabel(StatusCode(Code(s))) == StatusLabel(StatusCode(Code(s)))
    ensures s == InReview ==>
      (ChipLabel(StatusCode(Code(s))) == "Unknown" && StatusLabel(StatusCode(Code(s))) == "InReview")
  {
  }

  /** On numbers the two report labels agree everywhere; on strings they part: the chip
      reads "1" as Approved, the download calls it Unknown. */
  lemma ChipAndDownloadDiffer()
    ensures forall n :: ChipLabel(StatusCode(n)) == DownloadLabel(StatusCode(n))
    ensures ChipLabel(StatusText("1")) == "Approved" && DownloadLabel(StatusText("1")) == "Unknown"
  {
  }

  // ---------------------------------------------------------------------------
  // Colours

  datatype ChipColor = Success | Warning | Info | Error | Default

  /** getStatusColor of the forms list and of the details dialog: the lower-cased label
      decides; "inreview" and "in review" are both Info. */
  function StatusColor(s: string): (r: ChipColor)
    ensures r == Success <==> EqualsIgnoreCase(s, "Approved")
    ensures r == Warning <==> EqualsIgnoreCase(s, "Pending")
    ensures r == Info <==> EqualsIgnoreCase(s, "InReview") || EqualsIgnoreCase(s, "In Review")
    ensures r == Error <==> EqualsIgnoreCase(s, "Rejected")
  {
    LowerLabels();
    var l := ToLower(s);
    if l == "approved" then Success
    else if l == "pending" then Warning
    else if l == "inreview" || l == "in review" then Info
    else if l == "rejected" then Error
    else Default
  }

  /** The dashboard's copy, which knows only "in review". */
  function DashboardStatusColor(s: string): (r: ChipColor)
    ensures r == Success <==> EqualsIgnoreCase(s, "Approved")
    ensures r == Warning <==> EqualsIgnoreCase(s, "Pending")
    ensures r == Info <==> EqualsIgnoreCase(s, "In Review")
    ensures r == Error <==> EqualsIgnoreCase(s, "Rejected")
    ensures EqualsIgnoreCase(s, "InReview") ==> r == Default
  {
    LowerLabels();
    var l := ToLower(s);
    if l == "approved" then Success
    else if l == "pending" then Warning
    else if l == "in review" then Info
    else if l == "rejected" then Error
    else Default
  }

  /** The lower-case forms of the labels the colour mappings compare against. */
  lemma LowerLabels()
    ensures ToLower("Approved") == "approved" && ToLower("Pending") == "pending"
    ensures ToLower("InReview") == "inreview" && ToLower("In Review") == "in review"
    ensures ToLower("Rejected") == "rejected"
  {
    assert ToLower("Approved") == "approved";
    assert ToLower("Pending") == "pending";
    assert ToLower("InReview") == "inreview";
    assert ToLower("In Review") == "in review";
    assert ToLower("Rejected") == "rejected";
  }

  /** The colour ignores case. */
  lemma StatusColorIgnoresCase(a: string, b: string)
    requires EqualsIgnoreCase(a, b)
    ensures StatusColor(a) == StatusColor(b) && DashboardStatusColor(a) == DashboardStatusColor(b)
  {
  }

  /** Each name of a status gets its own colour in the list, and the dashboard agrees
      except on InReview, the label the mapping produces for code 3, which it paints
      Default instead of Info. */
  lemma ColorsOfNames(s: Status)
    ensures StatusColor(Name(s)) == (match s
      case Approved => Success case Pending => Warning case InReview => Info case Rejected => Error)
    ensures s != InReview ==> DashboardStatusColor(Name(s)) == StatusColor(Name(s))
    ensures DashboardStatusColor(Name(InReview)) == Default
  {
    assert ToLower("InReview") == "inreview";
    assert ToLower("Approved") == "approved";
    assert ToLower("Pending") == "pending";
    assert ToLower("Rejected") == "rejected";
  }
}
