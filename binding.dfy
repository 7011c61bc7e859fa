/** The JSON body the MCR form page sends to POST /api/MCR and PUT /api/MCR/{id}, and
    the MCR record the API's model binding makes of it: a fresh `new MCRForm()` whose
    properties the body names are overwritten, property names matched ignoring case. */
module Binding {
  import opened Strings
  import opened Calendar
  import opened Money
  import opened FormStatus
  import opened Records

  /** The object the page passes to JSON.stringify. A Date slot that is null gives
      `undefined`, which JSON.stringify leaves out (None here); strings are always
      present; HAPAmount is a number and ProratedAmount a number in cents or null.
      There is no Id, FormId, SignatureData, CreatedAt, UpdatedAt or Status. */
  datatype Payload = Payload(
    housingSpecialistName: string,
    housingSpecialistEmail: string,
    date: Option<Instant>,
    programType: string,
    lastFourSSN: string,
    tenantName: string,
    ownerAccountNumber: string,
    addressLine1: string,
    addressLine2: string,
    city: string,
    state: string,
    zipCode: string,
    landlordFirstName: string,
    landlordLastName: string,
    entityName: string,
    effectiveDate: Option<Instant>,
    startDate: Option<Instant>,
    endDate: Option<Instant>,
    reasonComments: string,
    mcrType: string,
    thirdPartyPaymentsVerified: bool,
    transactionScreenVerified: bool,
    overlappingHAP: bool,
    selectedType: string,
    description: string,
    dateIntendedToVacate: Option<Instant>,
    hapAmount: Decimal,
    proratedAmount: Option<int>)

  /** The record model binding produces at instant now. */
  function BindPayload(p: Payload, now: Instant): (r: McrForm)
    ensures r.id == 0 && r.formId == 0
    ensures r.status == Pending && r.createdAt == now && r.updatedAt.None? && r.signatureData.None?
  {
    NewMcrForm(now).(
      housingSpecialistName := p.housingSpecialistName,
      housingSpecialistEmail := p.housingSpecialistEmail,
      date := p.date.GetOr(MinDateTime),
      programType := p.programType,
      lastFourSSN := p.lastFourSSN,
      tenantName := p.tenantName,
      ownerAccountNumber := p.ownerAccountNumber,
      addressLine1 := p.addressLine1,
      addressLine2 := Some(p.addressLine2),
      city := p.city,
      state := p.state,
      zipCode := p.zipCode,
      landlordFirstName := p.landlordFirstName,
      landlordLastName := p.landlordLastName,
      entityName := Some(p.entityName),
      effectiveDate := p.effectiveDate.GetOr(MinDateTime),
      startDate := p.startDate.GetOr(MinDateTime),
      endDate := p.endDate.GetOr(MinDateTime),
      reasonComments := Some(p.reasonComments),
      mcrType := p.mcrType,
      thirdPartyPaymentsVerified := p.thirdPartyPaymentsVerified,
      transactionScreenVerified := p.transactionScreenVerified,
      overlappingHAP := p.overlappingHAP,
      selectedType := p.selectedType,
      description := Some(p.description),
      dateIntendedToVacate := p.dateIntendedToVacate,
      hapAmount := p.hapAmount,
      proratedAmount := if p.proratedAmount.Some? then Some(Decimal(p.proratedAmount.value, 2)) else None)
  }

  /** The annotated strings of the bound record are the body's. */
  lemma BoundRequiredStrings(p: Payload, now: Instant)
    ensures RequiredStrings(BindPayload(p, now)) ==
      [("HousingSpecialistName", p.housingSpecialistName),
       ("HousingSpecialistEmail", p.housingSpecialistEmail),
       ("ProgramType", p.programType),
       ("LastFourSSN", p.lastFourSSN),
       ("TenantName", p.tenantName),
       ("OwnerAccountNumber", p.ownerAccountNumber),
       ("AddressLine1", p.addressLine1),
       ("City", p.city),
       ("State", p.state),
       ("ZipCode", p.zipCode),
       ("LandlordFirstName", p.landlordFirstName),
       ("LandlordLastName", p.landlordLastName),
       ("MCRType", p.mcrType)]
  {
  }

  /** A body passes model validation exactly when its annotated strings are filled in,
      its email is an address and its last four digits are four UTF-16 code units; the clock
      does not matter. */
  lemma BoundValidIff(p: Payload, now: Instant)
    ensures IsValid(BindPayload(p, now)) <==>
      !IsBlank(p.housingSpecialistName) && !IsBlank(p.housingSpecialistEmail)
      && !IsBlank(p.programType) && !IsBlank(p.lastFourSSN) && !IsBlank(p.tenantName)
      && !IsBlank(p.ownerAccountNumber) && !IsBlank(p.addressLine1) && !IsBlank(p.city)
      && !IsBlank(p.state) && !IsBlank(p.zipCode) && !IsBlank(p.landlordFirstName)
      && !IsBlank(p.landlordLastName) && !IsBlank(p.mcrType)
      && IsEmailAddress(p.housingSpecialistEmail) && Utf16Length(p.lastFourSSN) == 4
  {
    var f := BindPayload(p, now);
    ValidIff(f);
    BoundRequiredStrings(p, now);
    var req := RequiredStrings(f);
    if (forall k :: 0 <= k < 13 ==> !IsBlank(req[k].1)) {
      assert !IsBlank(req[0].1) && !IsBlank(req[1].1) && !IsBlank(req[2].1);
      assert !IsBlank(req[3].1) && !IsBlank(req[4].1) && !IsBlank(req[5].1);
      assert !IsBlank(req[6].1) && !IsBlank(req[7].1) && !IsBlank(req[8].1);
      assert !IsBlank(req[9].1) && !IsBlank(req[10].1) && !IsBlank(req[11].1);
      assert !IsBlank(req[12].1);
    }
  }
}
