/** What the screens' requests do once they reach the API: the MCR form page's edit,
    sent as written and with the record's keys added, and the forms list's decisions. */
module Scenarios {
  import opened Strings
  import opened Calendar
  import opened FormStatus
  import opened Records
  import opened Wire
  import opened Binding
  import opened FormStore
  import opened FormPage
  import FormsList

  /** The page's edit as written reaches PUT /api/MCR/{id}, unless a slot holds an
      Invalid Date and nothing is sent (None), with a body that binds to Id 0, which
      never equals the route id of a record being edited: the API answers 400 and the
      tables do not change, whatever the fields hold. */
  method EditAsWritten(store: Store, f: FormFields, editing: Option<ApiForm>, now: Instant, saved: bool)
    returns (resp: Option<Response>)
    requires store.Valid() && IsEditing(editing)
    modifies store
    ensures store.Valid()
    ensures resp.Some? <==> !HasInvalidDate(f)
    ensures resp.Some? ==> resp.value.BadRequest?
    ensures store.forms == old(store.forms) && store.rows == old(store.rows)
  {
    var request := RequestFor(f, editing);
    if request.None? {
      return None;
    }
    var body := BindPayload(request.value.body, now);
    BoundPayloadHasNoIdentity(f, editing, now);
    var r := store.UpdateFields(editing.value.id, body, now, saved);
    resp := Some(r);
  }

  /** The edit body with the record's own keys, Id and FormId, beside the fields. */
  datatype EditBody = EditBody(id: int, formId: int, fields: Payload)

  function CorrectedEditBody(p: Payload, editing: Option<ApiForm>): (b: EditBody)
    requires IsEditing(editing)
    ensures b.id == editing.value.id && b.formId == editing.value.formId && b.fields == p
  {
    EditBody(editing.value.id, editing.value.formId, p)
  }

  /** Binding that body: the fields as before, the keys as sent. */
  function BindEditBody(b: EditBody, now: Instant): (r: McrForm)
    ensures r.id == b.id && r.formId == b.formId
    ensures RequiredStrings(r) == RequiredStrings(BindPayload(b.fields, now))
  {
    BindPayload(b.fields, now).(id := b.id, formId := b.formId)
  }

  /** With the keys sent, a valid edit of a stored record is saved: the record becomes
      the bound body, under its own key and envelope, the envelope takes the new
      update stamp, and only a failed save is a 500
      (a key beyond Int32 is refused by the route's binding). */
  method EditCorrected(store: Store, f: FormFields, editing: Option<ApiForm>, now: Instant, saved: bool)
    returns (resp: Response)
    requires store.Valid() && IsEditing(editing)
    requires PayloadOf(f).Some? && IsValid(BindPayload(PayloadOf(f).value, now))
    requires Lookup(store.rows, editing.value.id).Some?
    requires Lookup(store.rows, editing.value.id).value.formId == editing.value.formId
    modifies store
    ensures store.Valid()
    ensures !IsInt32(editing.value.id) ==>
      resp == BadRequest([]) && store.rows == old(store.rows) && store.forms == old(store.forms)
    ensures IsInt32(editing.value.id) && saved ==>
      resp == NoContent
      && store.rows == ReplaceRow(old(store.rows), editing.value.id,
        BindEditBody(CorrectedEditBody(PayloadOf(f).value, editing), now))
      && store.forms == old(store.forms)[editing.value.formId :=
        old(store.forms)[editing.value.formId].(updatedAt := Some(now))]
    ensures IsInt32(editing.value.id) && !saved ==>
      resp == ServerError && store.rows == old(store.rows) && store.forms == old(store.forms)
  {
    var body := BindEditBody(CorrectedEditBody(PayloadOf(f).value, editing), now);
    OptionalFieldsIrrelevant(body, BindPayload(PayloadOf(f).value, now));
    OwnEnvelopeAllowed(store.forms, store.rows, store.nextRowId, editing.value.id);
    resp := store.UpdateFields(editing.value.id, body, now, saved);
  }

  /** A stored record may keep its own envelope: the envelope exists and the unique
      index leaves it to that record alone. */
  lemma OwnEnvelopeAllowed(forms: map<int, Envelope>, rows: seq<McrForm>, nextRowId: int, id: int)
    requires RowsOk(rows, forms.Keys, nextRowId) && Lookup(rows, id).Some?
    ensures LinkAllowed(forms, rows, Lookup(rows, id).value.formId, id)
  {
    var r := Lookup(rows, id).value;
    var i :| 0 <= i < |rows| && rows[i] == r;
    forall j | 0 <= j < |rows| && rows[j].formId == r.formId ensures rows[j].id == id {
      assert i == j;
    }
  }

  /** The forms list's Reject button sends `{ status: "Rejected" }` to the record's
      status URL; on a stored record and a successful save the record is Rejected and
      stamped with the first clock reading, its envelope takes the status name and the
      second reading, and nothing else changes; a failed save is a 500 and a missing
      record a 404, both with no change. */
  method RejectFromList(store: Store, id: int, now: Instant, later: Instant, saved: bool, delivered: bool)
    returns (resp: Response)
    requires store.Valid()
    modifies store
    ensures store.Valid()
    ensures !IsInt32(id) ==> resp == BadRequest([]) && store.rows == old(store.rows) && store.forms == old(store.forms)
    ensures IsInt32(id) && Lookup(old(store.rows), id).None? ==>
      resp == NotFound && store.rows == old(store.rows) && store.forms == old(store.forms)
    ensures IsInt32(id) && Lookup(old(store.rows), id).Some? && !saved ==>
      resp == ServerError && store.rows == old(store.rows) && store.forms == old(store.forms)
    ensures IsInt32(id) && Lookup(old(store.rows), id).Some? && saved ==>
      var record := Lookup(old(store.rows), id).value;
      resp == NoContent
      && store.rows == ReplaceRow(old(store.rows), id, record.(status := Rejected, updatedAt := Some(now)))
      && store.forms == old(store.forms)[record.formId :=
        old(store.forms)[record.formId].(status := Name(Rejected), updatedAt := Some(later))]
  {
    var request := FormsList.StatusRequestFor(id, "Rejected");
    FormsList.DecisionsBind();
    assert BindStatus(request.body) == Some(Code(Rejected));
    var notice;
    resp, notice := store.UpdateStatus(id, request.body, now, later, saved, delivered);
  }

  /** The same for Approve. */
  method ApproveFromList(store: Store, id: int, now: Instant, later: Instant, saved: bool, delivered: bool)
    returns (resp: Response)
    requires store.Valid()
    modifies store
    ensures store.Valid()
    ensures !IsInt32(id) ==> resp == BadRequest([]) && store.rows == old(store.rows) && store.forms == old(store.forms)
    ensures IsInt32(id) && Lookup(old(store.rows), id).None? ==>
      resp == NotFound && store.rows == old(store.rows) && store.forms == old(store.forms)
    ensures IsInt32(id) && Lookup(old(store.rows), id).Some? && !saved ==>
      resp == ServerError && store.rows == old(store.rows) && store.forms == old(store.forms)
    ensures IsInt32(id) && Lookup(old(store.rows), id).Some? && saved ==>
      var record := Lookup(old(store.rows), id).value;
      resp == NoContent
      && store.rows == ReplaceRow(old(store.rows), id, record.(status := Approved, updatedAt := Some(now)))
      && store.forms == old(store.forms)[record.formId :=
        old(store.forms)[record.formId].(status := Name(Approved), updatedAt := Some(later))]
  {
    var request := FormsList.StatusRequestFor(id, "Approved");
    FormsList.DecisionsBind();
    assert BindStatus(request.body) == Some(Code(Approved));
    var notice;
    resp, notice := store.UpdateStatus(id, request.body, now, later, saved, delivered);
  }

  /** `{"status": 3000000000}` does not bind, so the API answers 400 whatever the id,
      stored or not, and nothing changes. */
  method StatusBeyondInt32(store: Store, id: int, now: Instant, later: Instant, saved: bool, delivered: bool)
    returns (resp: Response)
    requires store.Valid()
    modifies store
    ensures store.Valid()
    ensures resp == BadRequest([]) && store.rows == old(store.rows) && store.forms == old(store.forms)
  {
    NumberBeyondInt32();
    var notice;
    resp, notice := store.UpdateStatus(id, StatusNumber(3000000000), now, later, saved, delivered);
  }
}
