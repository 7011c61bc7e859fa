/** The two entities the API stores: the envelope (Form) and the Manual Check Request
    record (MCRForm), their defaults, and the data-annotation rules model validation
    applies to an MCR record bound from a request body. */
module Records {
  import opened Strings
  import opened Calendar
  import opened Money
  import opened FormStatus

  /** An envelope row of the Forms table. */
  datatype Envelope = Envelope(
    id: int,
    formType: string,
    createdAt: Instant,
    updatedAt: Option<Instant>,
    status: string)

  /** A row of the MCRForms table, with the fields the controller and the database
      context use. Non-nullable strings are always present; nullable ones are options. */
  datatype McrForm = McrForm(
    id: int,
    formId: int,
    housingSpecialistName: string,
    housingSpecialistEmail: string,
    date: Instant,
    programType: string,
    lastFourSSN: string,
    tenantName: string,
    ownerAccountNumber: string,
    addressLine1: string,
    addressLine2: Option<string>,
    city: string,
    state: string,
    zipCode: string,
    entityName: Option<string>,
    landlordFirstName: string,
    landlordLastName: string,
    effectiveDate: Instant,
    startDate: Instant,
    endDate: Instant,
    reasonComments: Option<string>,
    mcrType: string,
    thirdPartyPaymentsVerified: bool,
    transactionScreenVerified: bool,
    overlappingHAP: bool,
    selectedType: string,
    description: Option<string>,
    hapAmount: Decimal,
    dateIntendedToVacate: Option<Instant>,
    proratedAmount: Option<Decimal>,
    signatureData: Option<string>,
    createdAt: Instant,
    updatedAt: Option<Instant>,
    status: Status)

  /** The envelope `new Form()` produces at instant now: no type yet, created now, never
      updated, status "Pending". */
  function NewEnvelope(now: Instant): (e: Envelope)
    ensures e.status == "Pending" && e.updatedAt.None? && e.createdAt == now
  {
    Envelope(0, "", now, None, "Pending")
  }

  /** The record `new MCRForm()` produces at instant now, which model binding then fills
      from the properties the JSON body carries: every string empty, every nullable
      field null, every date DateTime.MinValue, CreatedAt now, status Pending. */
  function NewMcrForm(now: Instant): (f: McrForm)
    ensures f.status == Pending && f.updatedAt.None? && f.createdAt == now
    ensures f.id == 0 && f.formId == 0
  {
    McrForm(0, 0, "", "", MinDateTime, "", "", "", "", "", None, "", "", "", None, "", "",
      MinDateTime, MinDateTime, MinDateTime,
      None, "", false, false, false, "", None, Decimal(0, 0), None, None, None,
      now, None, Pending)
  }

  // ---------------------------------------------------------------------------
  // Data annotations

  /** The attribute a field fails. */
  datatype Rule = RequiredRule | EmailAddressRule | StringLengthRule

  datatype FieldError = FieldError(field: string, rule: Rule)

  /** RequiredAttribute on a string: null, empty and whitespace-only values fail. */
  predicate IsBlank(s: string) {
    IsWhiteSpaceOnly(s)
  }

  /** EmailAddressAttribute: exactly one '@', neither first nor last. */
  predicate IsEmailAddress(s: string) {
    exists i :: 0 < i < |s| - 1 && s[i] == '@'
      && forall j :: 0 <= j < |s| && s[j] == '@' ==> j == i
  }

  /** The [Required] string properties in declaration order, with their values. The
      [Required] value-type properties (Date, the three dates of the period, HAPAmount)
      cannot be null and never fail. */
  function RequiredStrings(f: McrForm): (r: seq<(string, string)>)
    ensures |r| == 13
  {
    [("HousingSpecialistName", f.housingSpecialistName),
     ("HousingSpecialistEmail", f.housingSpecialistEmail),
     ("ProgramType", f.programType),
     ("LastFourSSN", f.lastFourSSN),
     ("TenantName", f.tenantName),
     ("OwnerAccountNumber", f.ownerAccountNumber),
     ("AddressLine1", f.addressLine1),
     ("City", f.city),
     ("State", f.state),
     ("ZipCode", f.zipCode),
     ("LandlordFirstName", f.landlordFirstName),
     ("LandlordLastName", f.landlordLastName),
     ("MCRType", f.mcrType)]
  }

  /** The k-th field is called name and its value is blank. */
  predicate BlankAt(fields: seq<(string, string)>, name: string, k: int) {
    0 <= k < |fields| && fields[k].0 == name && IsBlank(fields[k].1)
  }

  /** Some field called name has a blank value. */
  ghost predicate HasBlank(fields: seq<(string, string)>, name: string) {
    exists k :: BlankAt(fields, name, k)
  }

  /** A Required error for each blank value, in order. */
  function RequiredErrors(fields: seq<(string, string)>): (r: seq<FieldError>)
    ensures forall e :: e in r ==> e.rule == RequiredRule
    ensures forall name ::
      (FieldError(name, RequiredRule) in r <==> HasBlank(fields, name))
  {
    if fields == [] then []
    else
      var rest := RequiredErrors(fields[1..]);
      assert forall name :: HasBlank(fields, name) <==>
        (BlankAt(fields, name, 0) || HasBlank(fields[1..], name)) by {
        forall name
          ensures HasBlank(fields, name) <==> (BlankAt(fields, name, 0) || HasBlank(fields[1..], name))
        {
          if HasBlank(fields, name) {
            var k :| BlankAt(fields, name, k);
            if k > 0 {
              assert BlankAt(fields[1..], name, k - 1);
            }
          }
          if HasBlank(fields[1..], name) {
            var k :| BlankAt(fields[1..], name, k);
            assert BlankAt(fields, name, k + 1);
          }
        }
      }
      if IsBlank(fields[0].1) then [FieldError(fields[0].0, RequiredRule)] + rest else rest
  }

  /** The errors model validation records for a bound record, property by property. */
  function ValidationErrors(f: McrForm): (r: seq<FieldError>)
    ensures forall name :: FieldError(name, RequiredRule) in r <==> HasBlank(RequiredStrings(f), name)
    ensures FieldError("HousingSpecialistEmail", EmailAddressRule) in r <==> !IsEmailAddress(f.housingSpecialistEmail)
    ensures FieldError("LastFourSSN", StringLengthRule) in r <==> Utf16Length(f.lastFourSSN) != 4
    ensures forall e :: e in r && e.rule != RequiredRule ==>
      e == FieldError("HousingSpecialistEmail", EmailAddressRule) || e == FieldError("LastFourSSN", StringLengthRule)
  {
    RequiredErrors(RequiredStrings(f))
    + (if IsEmailAddress(f.housingSpecialistEmail) then []
       else [FieldError("HousingSpecialistEmail", EmailAddressRule)])
    + (if Utf16Length(f.lastFourSSN) == 4 then [] else [FieldError("LastFourSSN", StringLengthRule)])
  }

  /** ModelState.IsValid. */
  predicate IsValid(f: McrForm) {
    ValidationErrors(f) == []
  }

  /** A valid record has every required string non-blank, a well-formed specialist
      email and a last-four field of exactly four UTF-16 code units (.NET string length);
      and conversely. */
  lemma ValidIff(f: McrForm)
    ensures IsValid(f) <==>
      (forall k :: 0 <= k < 13 ==> !IsBlank(RequiredStrings(f)[k].1))
      && IsEmailAddress(f.housingSpecialistEmail)
      && Utf16Length(f.lastFourSSN) == 4
  {
    var req := RequiredStrings(f);
    if IsValid(f) {
      forall k | 0 <= k < 13 ensures !IsBlank(req[k].1) {
        assert BlankAt(req, req[k].0, k) ==> HasBlank(req, req[k].0);
      }
    } else if (forall k :: 0 <= k < 13 ==> !IsBlank(req[k].1)) {
      if RequiredErrors(req) != [] {
        var e := RequiredErrors(req)[0];
        assert e in RequiredErrors(req);
        assert FieldError(e.field, RequiredRule) in RequiredErrors(req);
      }
    }
  }

  /** Each required field named by the annotations, the landlord's first and last name
      included, must be filled in for the record to be valid. */
  lemma ValidHasRequiredFields(f: McrForm)
    requires IsValid(f)
    ensures !IsBlank(f.housingSpecialistName) && !IsBlank(f.housingSpecialistEmail)
    ensures !IsBlank(f.programType) && !IsBlank(f.tenantName)
    ensures !IsBlank(f.ownerAccountNumber) && !IsBlank(f.addressLine1)
    ensures !IsBlank(f.city) && !IsBlank(f.state) && !IsBlank(f.zipCode)
    ensures !IsBlank(f.landlordFirstName) && !IsBlank(f.landlordLastName)
    ensures !IsBlank(f.mcrType) && Utf16Length(f.lastFourSSN) == 4
    ensures IsEmailAddress(f.housingSpecialistEmail)
  {
    ValidIff(f);
    var req := RequiredStrings(f);
    assert req[0].1 == f.housingSpecialistName && req[1].1 == f.housingSpecialistEmail;
    assert req[2].1 == f.programType && req[4].1 == f.tenantName;
    assert req[5].1 == f.ownerAccountNumber && req[6].1 == f.addressLine1;
    assert req[7].1 == f.city && req[8].1 == f.state && req[9].1 == f.zipCode;
    assert req[10].1 == f.landlordFirstName && req[11].1 == f.landlordLastName;
    assert req[12].1 == f.mcrType;
  }

  /** Validation looks only at the annotated strings: address line 2, the entity name,
      reason/comments, the selected type and its description, the amounts, the dates,
      the verification flags, the signature and the metadata never decide it. In
      particular no rule ties Description to SelectedType being "other". */
  lemma OptionalFieldsIrrelevant(f: McrForm, g: McrForm)
    requires RequiredStrings(f) == RequiredStrings(g)
    ensures IsValid(f) == IsValid(g)
    ensures ValidationErrors(f) == ValidationErrors(g)
  {
    assert f.housingSpecialistEmail == RequiredStrings(f)[1].1;
    assert g.housingSpecialistEmail == RequiredStrings(g)[1].1;
    assert f.lastFourSSN == RequiredStrings(f)[3].1;
    assert g.lastFourSSN == RequiredStrings(g)[3].1;
  }
}
