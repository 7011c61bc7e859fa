/** The server's status of a request (MCRFormStatus), its integer code on the wire, its
    name in the database column, and the conversion the database context applies when it
    reads the column back. */
module FormStatus {
  import opened Strings

  /** Declared in this order, so the codes are 0, 1, 2 and 3. */
  datatype Status = Pending | Approved | Rejected | InReview

  /** The integer the enum value stands for: what the API serialises. */
  function Code(s: Status): (c: int)
    ensures 0 <= c <= 3
  {
    match s
    case Pending => 0
    case Approved => 1
    case Rejected => 2
    case InReview => 3
  }

  /** Enum.IsDefined on an integer value. */
  predicate IsDefined(c: int) {
    0 <= c <= 3
  }

  /** The enum value of a defined code. */
  function FromCode(c: int): (r: Option<Status>)
    ensures r.Some? <==> IsDefined(c)
    ensures r.Some? ==> Code(r.value) == c
  {
    if c == 0 then Some(Pending)
    else if c == 1 then Some(Approved)
    else if c == 2 then Some(Rejected)
    else if c == 3 then Some(InReview)
    else None
  }

  /** Enum.ToString: the text stored in the Status column and mirrored onto the
      envelope's status field. */
  function Name(s: Status): string {
    match s
    case Pending => "Pending"
    case Approved => "Approved"
    case Rejected => "Rejected"
    case InReview => "InReview"
  }

  /** The status whose name is exactly v, if any. */
  function FromName(v: string): (r: Option<Status>)
    ensures r.Some? ==> Name(r.value) == v
  {
    if v == "Pending" then Some(Pending)
    else if v == "Approved" then Some(Approved)
    else if v == "Rejected" then Some(Rejected)
    else if v == "InReview" then Some(InReview)
    else None
  }

  /** The read side of the column conversion: a stored name becomes its status, any
      other text (empty, unknown) becomes Pending. */
  function ParseStatus(v: string): (r: Status)
    ensures FromName(v).None? ==> r == Pending
  {
    FromName(v).GetOr(Pending)
  }

  /** Writing a status to the column and reading it back gives the same status. */
  lemma ParseStatusName(s: Status)
    ensures ParseStatus(Name(s)) == s
  {
  }

  /** The four names are distinct, so the column conversion loses nothing. */
  lemma NameInjective(s: Status, t: Status)
    requires Name(s) == Name(t)
    ensures s == t
  {
    ParseStatusName(s);
    ParseStatusName(t);
  }

  /** Every code the controller accepts names a status, and each status has its code. */
  lemma CodeRoundTrip(s: Status)
    ensures FromCode(Code(s)) == Some(s)
  {
  }

  // ---------------------------------------------------------------------------
  // The status of a status-update body

  /** The Status property of a JSON body: a number, a string, or absent. */
  datatype StatusJson = StatusNumber(n: int) | StatusString(text: string) | StatusMissing

  /** The status whose name equals v when both are lower-cased. */
  function FromNameIgnoringCase(v: string): (r: Option<Status>)
    ensures r.Some? ==> EqualsIgnoreCase(v, Name(r.value))
  {
    var l := ToLower(v);
    if l == "pending" then Some(Pending)
    else if l == "approved" then Some(Approved)
    else if l == "rejected" then Some(Rejected)
    else if l == "inreview" then Some(InReview)
    else None
  }

  const MinInt32: int := -0x8000_0000
  const MaxInt32: int := 0x7FFF_FFFF

  /** A value a C# int can hold. */
  predicate IsInt32(n: int) {
    MinInt32 <= n <= MaxInt32
  }

  /** The numeric form Enum.TryParse accepts: an optional '+' or '-' and decimal digits
      whose value fits the enum's underlying Int32. */
  function NumericValue(t: string): (r: Option<int>)
    ensures r.Some? ==> MinInt32 <= r.value <= MaxInt32
    ensures r.Some? ==> t != [] && (IsDigit(t[0]) || t[0] == '+' || t[0] == '-')
  {
    var signed := t != [] && (t[0] == '+' || t[0] == '-');
    var digits := if signed then t[1..] else t;
    if digits == [] || !AllDigits(digits) then None
    else
      var v := if t[0] == '-' then 0 - DigitsValue(digits) as int else DigitsValue(digits) as int;
      if MinInt32 <= v <= MaxInt32 then Some(v) else None
  }

  /** What JsonStringEnumConverter makes of the property: a number is read as an Int32
      and taken as the enum's value whatever it is, and one beyond Int32 fails to bind;
      a string binds when it is a member's name (case
      ignored) or, integer values being allowed by default, when it is an Int32 in
      decimal, to that value whatever it is; an absent property leaves the default
      value 0. None is a body that does not bind, which the API answers with 400 before
      the action runs. */
  function BindStatus(j: StatusJson): (r: Option<int>)
    ensures j.StatusNumber? ==> (r.Some? <==> IsInt32(j.n))
    ensures j.StatusNumber? && r.Some? ==> r.value == j.n
    ensures j.StatusMissing? ==> r == Some(Code(Pending))
  {
    match j
    case StatusNumber(n) => if IsInt32(n) then Some(n) else None
    case StatusString(t) =>
      if FromNameIgnoringCase(t).Some? then Some(Code(FromNameIgnoringCase(t).value)) else NumericValue(t)
    case StatusMissing => Some(0)
  }

  /** A string binds exactly when it is a status name up to case, to that status's
      code, or an Int32 in decimal, to that number. */
  lemma BindStatusString(t: string)
    ensures BindStatus(StatusString(t)).Some? <==>
      (exists s :: EqualsIgnoreCase(t, Name(s))) || NumericValue(t).Some?
    ensures forall s :: EqualsIgnoreCase(t, Name(s)) ==> BindStatus(StatusString(t)) == Some(Code(s))
    ensures NumericValue(t).Some? ==> BindStatus(StatusString(t)) == NumericValue(t)
  {
    forall s | EqualsIgnoreCase(t, Name(s))
      ensures FromNameIgnoringCase(t) == Some(s)
    {
      LowerName(s);
    }
    if NumericValue(t).Some? {
      NameNotNumeric(t);
    }
  }

  /** No name starts like a number, whatever its case. */
  lemma NameNotNumeric(t: string)
    requires NumericValue(t).Some?
    ensures FromNameIgnoringCase(t).None?
  {
    assert ToLower(t)[0] == Lower(t[0]);
  }

  /** Decimal digits within the Int32 range read back as their value, and with a
      leading '-' as its negation. */
  lemma NumericValueOfDigits(t: string, negative: bool)
    requires t != [] && AllDigits(t)
    requires if negative then DigitsValue(t) <= -MinInt32 else DigitsValue(t) <= MaxInt32
    ensures NumericValue((if negative then "-" else "") + t)
      == Some(if negative then 0 - DigitsValue(t) as int else DigitsValue(t) as int)
  {
    var u := (if negative then "-" else "") + t;
    if negative {
      assert u[0] == '-' && u[1..] == t;
    } else {
      assert u == t && IsDigit(t[0]);
    }
  }

  /** `{"status": "1"}` binds to Approved's code, and "7" and "-1" to codes the action
      then refuses. */
  lemma NumericStatusStrings()
    ensures BindStatus(StatusString("1")) == Some(Code(Approved))
    ensures BindStatus(StatusString("7")) == Some(7) && !IsDefined(7)
    ensures BindStatus(StatusString("-1")) == Some(-1) && !IsDefined(-1)
  {
    assert "1"[..0] == [] && "7"[..0] == [];
    NumericValueOfDigits("1", false);
    NameNotNumeric("1");
    NumericValueOfDigits("7", false);
    NameNotNumeric("7");
    NumericValueOfDigits("1", true);
    assert "" + "1" == "1" && "-" + "1" == "-1";
    NameNotNumeric("-1");
  }

  /** A JSON number binds only when it fits an Int32: 3000000000 does not, the largest
      Int32 does. */
  lemma NumberBeyondInt32()
    ensures BindStatus(StatusNumber(3000000000)).None?
    ensures BindStatus(StatusNumber(MaxInt32)) == Some(MaxInt32)
  {
  }

  /** The lower-cased names. */
  lemma LowerName(s: Status)
    ensures ToLower(Name(s)) == match s
      case Pending => "pending" case Approved => "approved"
      case Rejected => "rejected" case InReview => "inreview"
  {
    match s
    case Pending => assert ToLower("Pending") == "pending";
    case Approved => assert ToLower("Approved") == "approved";
    case Rejected => assert ToLower("Rejected") == "rejected";
    case InReview => assert ToLower("InReview") == "inreview";
  }
}
