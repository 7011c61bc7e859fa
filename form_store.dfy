/** The MCR API over its database: a store of two tables, the envelopes (Forms) and the
    MCR records (MCRForms) linked one-to-one through FormId, and the controller actions
    that create, read, list, re-status, edit and delete records.

    Saving can fail (the database is unreachable, a statement is refused); each action
    takes the outcome of each save as a parameter, so every path of the controller is
    modelled. A notification the controller tries to send is returned as a value, and
    whether its delivery succeeds is a parameter the result does not depend on. Each
    reading of the clock is a parameter of its own (now, and later for a second reading
    in the same action); nothing relates two readings. A route id binds to a C# int:
    one beyond Int32 is refused with 400 before the action runs. */
module FormStore {
  import opened Strings
  import opened Calendar
  import opened FormStatus
  import opened Records
  import opened Lists

  /** The outcome of an action, by HTTP status. */
  datatype Response =
    | Created(id: int, form: McrForm)       // 201, with the stored record
    | Found(form: McrForm)                  // 200, one record
    | Listed(forms: seq<McrForm>)           // 200, every record
    | NoContent                             // 204
    | BadRequest(errors: seq<FieldError>)   // 400; errors is empty unless validation failed
    | NotFound                              // 404
    | ServerError                           // 500

  /** A message the controller hands to the mail service. */
  datatype Notice =
    | SubmissionNotice(tenantName: string, mcrType: string, formId: int, specialistName: string)
    | StatusNotice(to: string, subject: string)

  // ---------------------------------------------------------------------------
  // The MCR table as a sequence of rows in key order

  /** Row keys strictly increase: the table is kept in the order of its identity key. */
  predicate IdsIncreasing(rows: seq<McrForm>) {
    forall i, j :: 0 <= i < j < |rows| ==> rows[i].id < rows[j].id
  }

  /** FirstOrDefault(m => m.Id == id). */
  function Lookup(rows: seq<McrForm>, id: int): (r: Option<McrForm>)
    ensures r.Some? ==> r.value in rows && r.value.id == id
    ensures r.None? <==> forall i :: 0 <= i < |rows| ==> rows[i].id != id
  {
    if rows == [] then None
    else if rows[0].id == id then Some(rows[0])
    else Lookup(rows[1..], id)
  }

  /** With distinct keys the row found is the one at the key's position. */
  lemma LookupAt(rows: seq<McrForm>, i: int)
    requires IdsIncreasing(rows) && 0 <= i < |rows|
    ensures Lookup(rows, rows[i].id) == Some(rows[i])
  {
    var r := Lookup(rows, rows[i].id);
    var j :| 0 <= j < |rows| && rows[j] == r.value;
    assert rows[j].id == rows[i].id;
  }

  /** The rows with the row keyed id replaced by r. */
  function ReplaceRow(rows: seq<McrForm>, id: int, r: McrForm): (res: seq<McrForm>)
    ensures |res| == |rows|
    ensures forall i :: 0 <= i < |rows| ==> res[i] == if rows[i].id == id then r else rows[i]
  {
    seq(|rows|, i requires 0 <= i < |rows| => if rows[i].id == id then r else rows[i])
  }

  /** Rows drawn in order from the tail of an increasing table may follow its head. */
  lemma KeepFirstIncreasing(rows: seq<McrForm>, rest: seq<McrForm>)
    requires rows != []
    requires IdsIncreasing(rows) ==> IdsIncreasing(rest)
    requires forall r :: r in rest ==> r in rows[1..]
    ensures IdsIncreasing(rows) ==> IdsIncreasing([rows[0]] + rest)
  {
    if IdsIncreasing(rows) {
      var res := [rows[0]] + rest;
      forall i, j | 0 <= i < j < |res| ensures res[i].id < res[j].id {
        assert res[j] == rest[j - 1] && res[j] in rest;
        var k :| 0 <= k < |rows[1..]| && rows[1..][k] == res[j];
        assert rows[k + 1] == res[j];
        if i > 0 {
          assert res[i] == rest[i - 1];
        }
      }
    }
  }

  // ---------------------------------------------------------------------------
  // Listing newest first

  predicate NewestFirst(s: seq<McrForm>) {
    forall i, j :: 0 <= i < j < |s| ==> s[i].createdAt >= s[j].createdAt
  }

  /** x placed before the first row that is not newer. */
  function InsertByCreatedAt(x: McrForm, s: seq<McrForm>): (r: seq<McrForm>)
    ensures multiset(r) == multiset(s) + multiset{x}
  {
    if s == [] || x.createdAt >= s[0].createdAt then [x] + s
    else
      assert s == [s[0]] + s[1..];
      [s[0]] + InsertByCreatedAt(x, s[1..])
  }

  lemma {:induction false} InsertKeepsNewestFirst(x: McrForm, s: seq<McrForm>)
    requires NewestFirst(s)
    ensures NewestFirst(InsertByCreatedAt(x, s))
  {
    if s != [] && x.createdAt < s[0].createdAt {
      var rest := InsertByCreatedAt(x, s[1..]);
      InsertKeepsNewestFirst(x, s[1..]);
      forall k | 0 <= k < |rest| ensures rest[k].createdAt <= s[0].createdAt {
        assert rest[k] in multiset(rest);
        assert rest[k] == x || rest[k] in multiset(s[1..]);
        if rest[k] != x {
          var j :| 0 <= j < |s[1..]| && s[1..][j] == rest[k];
          assert s[j + 1] == rest[k];
        }
      }
    }
  }

  /** OrderByDescending(f => f.CreatedAt) over the rows. */
  function SortNewestFirst(rows: seq<McrForm>): (r: seq<McrForm>)
    ensures multiset(r) == multiset(rows)
    ensures NewestFirst(r)
  {
    if rows == [] then []
    else
      assert rows == [rows[0]] + rows[1..];
      var sorted := SortNewestFirst(rows[1..]);
      InsertKeepsNewestFirst(rows[0], sorted);
      InsertByCreatedAt(rows[0], sorted)
  }

  // ---------------------------------------------------------------------------
  // The database's constraints, as predicates on the table contents

  /** Every envelope is keyed by its Id, below the next identity value, and is an MCR
      envelope. */
  predicate EnvelopesOk(forms: map<int, Envelope>, nextFormId: int) {
    nextFormId >= 1
    && forall k :: k in forms ==> forms[k].id == k && 1 <= k < nextFormId && forms[k].formType == "MCR"
  }

  /** Record keys increase and lie below the next identity value; every FormId names an
      envelope (the foreign key), and no two records share one (the unique index). */
  predicate RowsOk(rows: seq<McrForm>, envelopes: set<int>, nextRowId: int) {
    nextRowId >= 1
    && IdsIncreasing(rows)
    && (forall i :: 0 <= i < |rows| ==> 1 <= rows[i].id < nextRowId && rows[i].formId in envelopes)
    && (forall i, j :: 0 <= i < |rows| && 0 <= j < |rows| && rows[i].formId == rows[j].formId ==> i == j)
  }

  /** A FormId no record but the one keyed id points at. */
  predicate FreeFor(rows: seq<McrForm>, formId: int, id: int) {
    forall i :: 0 <= i < |rows| && rows[i].formId == formId ==> rows[i].id == id
  }

  /** The database accepts a record with this FormId under key id: the envelope exists
      and no other record points at it. */
  predicate LinkAllowed(forms: map<int, Envelope>, rows: seq<McrForm>, formId: int, id: int) {
    formId in forms && FreeFor(rows, formId, id)
  }

  lemma RowsOkMoreEnvelopes(rows: seq<McrForm>, envelopes: set<int>, more: set<int>, nextRowId: int)
    requires RowsOk(rows, envelopes, nextRowId) && envelopes <= more
    ensures RowsOk(rows, more, nextRowId)
  {
  }

  lemma AppendRowOk(rows: seq<McrForm>, envelopes: set<int>, nextRowId: int, r: McrForm)
    requires RowsOk(rows, envelopes, nextRowId)
    requires r.id == nextRowId && r.formId in envelopes && FreeFor(rows, r.formId, r.id)
    ensures RowsOk(rows + [r], envelopes, nextRowId + 1)
  {
    forall i | 0 <= i < |rows| ensures rows[i].formId != r.formId {
      assert rows[i].id < r.id;
    }
  }

  lemma ReplaceRowOk(rows: seq<McrForm>, envelopes: set<int>, nextRowId: int, id: int, r: McrForm)
    requires RowsOk(rows, envelopes, nextRowId) && Lookup(rows, id).Some?
    requires r.id == id && r.formId in envelopes && FreeFor(rows, r.formId, id)
    ensures RowsOk(ReplaceRow(rows, id, r), envelopes, nextRowId)
  {
    var res := ReplaceRow(rows, id, r);
    assert forall i :: 0 <= i < |rows| ==> res[i].id == rows[i].id;
    assert forall i :: 0 <= i < |rows| && rows[i].id != id ==> rows[i].formId != r.formId;
  }

  /** A new envelope under the next identity value keeps the constraints, and no
      record points at it yet. */
  lemma AddEnvelopeOk(forms: map<int, Envelope>, nextFormId: int, rows: seq<McrForm>, nextRowId: int, e: Envelope)
    requires EnvelopesOk(forms, nextFormId) && RowsOk(rows, forms.Keys, nextRowId)
    requires e.id == nextFormId && e.formType == "MCR"
    ensures EnvelopesOk(forms[nextFormId := e], nextFormId + 1)
    ensures RowsOk(rows, forms[nextFormId := e].Keys, nextRowId)
    ensures forall id :: FreeFor(rows, nextFormId, id)
  {
    RowsOkMoreEnvelopes(rows, forms.Keys, forms[nextFormId := e].Keys, nextRowId);
  }

  /** A stored record's FormId names an envelope. */
  lemma LookupLinked(rows: seq<McrForm>, envelopes: set<int>, nextRowId: int, id: int)
    requires RowsOk(rows, envelopes, nextRowId) && Lookup(rows, id).Some?
    ensures Lookup(rows, id).value.formId in envelopes
  {
    var i :| 0 <= i < |rows| && rows[i] == Lookup(rows, id).value;
  }

  /** Replacing a record by one with the same key and FormId keeps the constraints. */
  lemma SameLinkRowOk(rows: seq<McrForm>, envelopes: set<int>, nextRowId: int, id: int, r: McrForm)
    requires RowsOk(rows, envelopes, nextRowId) && Lookup(rows, id).Some?
    requires r.id == id && r.formId == Lookup(rows, id).value.formId
    ensures r.formId in envelopes
    ensures RowsOk(ReplaceRow(rows, id, r), envelopes, nextRowId)
  {
    var i :| 0 <= i < |rows| && rows[i] == Lookup(rows, id).value;
    assert FreeFor(rows, r.formId, id) by {
      forall j | 0 <= j < |rows| && rows[j].formId == r.formId ensures rows[j].id == id {
        assert rows[j].formId == rows[i].formId;
      }
    }
    ReplaceRowOk(rows, envelopes, nextRowId, id, r);
  }

  /** Replacing an envelope by one with the same key and type keeps the constraints. */
  lemma RestampEnvelopeOk(forms: map<int, Envelope>, nextFormId: int, k: int, e: Envelope)
    requires EnvelopesOk(forms, nextFormId) && k in forms
    requires e.id == forms[k].id && e.formType == forms[k].formType
    ensures EnvelopesOk(forms[k := e], nextFormId)
    ensures forms[k := e].Keys == forms.Keys
  {
  }

  /** Removing rows keeps the constraints. */
  lemma FilterRowsOk(rows: seq<McrForm>, envelopes: set<int>, nextRowId: int, p: McrForm -> bool)
    requires RowsOk(rows, envelopes, nextRowId)
    ensures RowsOk(Filter(rows, p), envelopes, nextRowId)
  {
    FilterIdsIncreasing(rows, p);
    SubsequenceRowsOk(rows, Filter(rows, p), envelopes, nextRowId);
  }

  /** What the cascade keeps is consistent without the removed envelope. */
  lemma CascadeRowsOk(rows: seq<McrForm>, envelopes: set<int>, nextRowId: int, formId: int)
    requires RowsOk(rows, envelopes, nextRowId)
    ensures RowsOk(Filter(rows, (r: McrForm) => r.formId != formId), envelopes - {formId}, nextRowId)
  {
    var keep := (r: McrForm) => r.formId != formId;
    var kept := Filter(rows, keep);
    FilterRowsOk(rows, envelopes, nextRowId, keep);
    forall i | 0 <= i < |kept| ensures kept[i].formId in envelopes - {formId} {
      assert kept[i] in kept;
    }
  }

  /** Rows drawn from a consistent table, in increasing key order, are consistent. */
  lemma SubsequenceRowsOk(rows: seq<McrForm>, res: seq<McrForm>, envelopes: set<int>, nextRowId: int)
    requires RowsOk(rows, envelopes, nextRowId) && IdsIncreasing(res)
    requires forall r :: r in res ==> r in rows
    ensures RowsOk(res, envelopes, nextRowId)
  {
    forall i | 0 <= i < |res|
      ensures 1 <= res[i].id < nextRowId && res[i].formId in envelopes
    {
      assert res[i] in rows;
    }
    forall i, j | 0 <= i < |res| && 0 <= j < |res| && res[i].formId == res[j].formId
      ensures i == j
    {
      assert res[i] in rows && res[j] in rows;
      var a :| 0 <= a < |rows| && rows[a] == res[i];
      var b :| 0 <= b < |rows| && rows[b] == res[j];
      assert a == b;
      assert res[i].id == res[j].id;
    }
  }

  /** Filtering a table keeps its key order. */
  lemma {:induction false} FilterIdsIncreasing(rows: seq<McrForm>, p: McrForm -> bool)
    ensures IdsIncreasing(rows) ==> IdsIncreasing(Filter(rows, p))
  {
    if rows != [] {
      var rest := Filter(rows[1..], p);
      FilterIdsIncreasing(rows[1..], p);
      assert IdsIncreasing(rows) ==> IdsIncreasing(rows[1..]);
      if p(rows[0]) {
        KeepFirstIncreasing(rows, rest);
        assert Filter(rows, p) == [rows[0]] + rest;
      } else {
        assert Filter(rows, p) == rest;
      }
    }
  }

  class Store {
    /** The Forms table, by key. */
    var forms: map<int, Envelope>
    /** The MCRForms table, in key order. */
    var rows: seq<McrForm>
    /** The next identity value of each table. */
    var nextFormId: int
    var nextRowId: int

    /** The database's constraints: keys match and lie below the next identity value;
        every envelope here is an MCR envelope; every record's FormId names an envelope
        (the foreign key), and no two records share one (the unique FormId index). */
    ghost predicate Valid()
      reads this
    {
      EnvelopesOk(forms, nextFormId) && RowsOk(rows, forms.Keys, nextRowId)
    }

    /** An empty database. */
    constructor ()
      ensures Valid()
      ensures forms == map[] && rows == []
    {
      forms := map[];
      rows := [];
      nextFormId := 1;
      nextRowId := 1;
    }

    /** POST /api/MCR (SubmitMCRForm). An invalid body is refused with its validation
        errors. Otherwise an MCR envelope stamped now is saved first; only then is the
        record, with that envelope's key, the clock's second reading later and status
        Pending, saved. A failure of the second save leaves the envelope behind. The
        outcome does not depend on whether the notification is delivered. */
    method Submit(body: McrForm, now: Instant, later: Instant, envelopeSaved: bool, recordSaved: bool, delivered: bool)
      returns (resp: Response, notice: Option<Notice>)
      requires Valid()
      modifies this
      ensures Valid()
      ensures !IsValid(body) ==>
        resp == BadRequest(ValidationErrors(body)) && notice.None?
        && forms == old(forms) && rows == old(rows)
      ensures IsValid(body) && !envelopeSaved ==>
        resp == ServerError && notice.None? && forms == old(forms) && rows == old(rows)
      ensures IsValid(body) && envelopeSaved ==>
        forms == old(forms)[old(nextFormId) := Envelope(old(nextFormId), "MCR", now, None, "Pending")]
      ensures IsValid(body) && envelopeSaved && (!recordSaved || body.id != 0) ==>
        resp == ServerError && notice.None? && rows == old(rows)
      ensures IsValid(body) && envelopeSaved && recordSaved && body.id == 0 ==>
        var record := body.(id := old(nextRowId), formId := old(nextFormId), createdAt := later, status := Pending);
        resp == Created(old(nextRowId), record)
        && rows == old(rows) + [record]
        && notice == Some(SubmissionNotice(body.tenantName, body.mcrType, old(nextRowId), body.housingSpecialistName))
    {
      notice := None;
      if !IsValid(body) {
        resp := BadRequest(ValidationErrors(body));
        return;
      }
      var form := NewEnvelope(now).(formType := "MCR", createdAt := now, status := "Pending");
      if !envelopeSaved {
        resp := ServerError;
        return;
      }
      form := form.(id := nextFormId);
      AddEnvelopeOk(forms, nextFormId, rows, nextRowId, form);
      forms := forms[form.id := form];
      nextFormId := nextFormId + 1;

      var record := body.(formId := form.id, createdAt := later, status := Pending);
      // An explicit key on the identity column is refused by the database.
      if !recordSaved || record.id != 0 {
        resp := ServerError;
        return;
      }
      record := record.(id := nextRowId);
      AppendRowOk(rows, forms.Keys, nextRowId, record);
      rows := rows + [record];
      nextRowId := nextRowId + 1;

      notice := Some(SubmissionNotice(record.tenantName, record.mcrType, record.id, record.housingSpecialistName));
      // Delivery may fail; the controller logs that and answers 201 all the same.
      resp := Created(record.id, record);
    }

    /** GET /api/MCR/{id} (GetMCRForm). */
    method Get(id: int) returns (resp: Response)
      ensures !IsInt32(id) ==> resp == BadRequest([])
      ensures IsInt32(id) && Lookup(rows, id).Some? ==> resp == Found(Lookup(rows, id).value)
      ensures IsInt32(id) && Lookup(rows, id).None? ==> resp == NotFound
    {
      if !IsInt32(id) {
        resp := BadRequest([]);
        return;
      }
      var found := Lookup(rows, id);
      if found.None? {
        resp := NotFound;
      } else {
        resp := Found(found.value);
      }
    }

    /** GET /api/MCR (GetMCRForms): every record, newest first; 500 when the query
        fails. */
    method List(queried: bool) returns (resp: Response)
      ensures !queried ==> resp == ServerError
      ensures queried ==>
        resp.Listed? && multiset(resp.forms) == multiset(rows) && NewestFirst(resp.forms)
    {
      if !queried {
        resp := ServerError;
      } else {
        resp := Listed(SortNewestFirst(rows));
      }
    }

    /** PUT /api/MCR/{id}/status (UpdateMCRFormStatus). A route id beyond Int32 or a
        body whose status does not bind is refused before the action runs. An unknown id is then
        NotFound before the status is looked at; an undefined status is refused.
        Otherwise the record takes the requested status and the UpdatedAt stamp now, and
        its envelope the status name and the stamp of a second reading of the clock,
        later. Neither the current status nor the caller is checked. */
    method UpdateStatus(id: int, body: StatusJson, now: Instant, later: Instant, saved: bool, delivered: bool)
      returns (resp: Response, notice: Option<Notice>)
      requires Valid()
      modifies this
      ensures Valid()
      ensures nextFormId == old(nextFormId) && nextRowId == old(nextRowId)
      ensures !IsInt32(id) || BindStatus(body).None? ==>
        resp == BadRequest([]) && forms == old(forms) && rows == old(rows) && notice.None?
      ensures IsInt32(id) && BindStatus(body).Some? && Lookup(old(rows), id).None? ==>
        resp == NotFound && forms == old(forms) && rows == old(rows) && notice.None?
      ensures IsInt32(id) && BindStatus(body).Some? && Lookup(old(rows), id).Some? && !IsDefined(BindStatus(body).value) ==>
        resp == BadRequest([]) && forms == old(forms) && rows == old(rows) && notice.None?
      ensures IsInt32(id) && BindStatus(body).Some? && Lookup(old(rows), id).Some? && IsDefined(BindStatus(body).value) && !saved ==>
        resp == ServerError && forms == old(forms) && rows == old(rows) && notice.None?
      ensures IsInt32(id) && BindStatus(body).Some? && Lookup(old(rows), id).Some? && IsDefined(BindStatus(body).value) && saved ==>
        var record := Lookup(old(rows), id).value;
        var status := FromCode(BindStatus(body).value).value;
        resp == NoContent
        && rows == ReplaceRow(old(rows), id, record.(status := status, updatedAt := Some(now)))
        && forms == old(forms)[record.formId := old(forms)[record.formId].(status := Name(status), updatedAt := Some(later))]
        && notice == Some(StatusNotice(record.housingSpecialistEmail,
             "MCR Form Status Updated - " + record.tenantName + " (ID: " + IntToString(id) + ")"))
    {
      notice := None;
      var requested := BindStatus(body);
      if !IsInt32(id) || requested.None? {
        resp := BadRequest([]);
        return;
      }
      var existing := Lookup(rows, id);
      if existing.None? {
        resp := NotFound;
        return;
      }
      var code := requested.value;
      if !IsDefined(code) {
        resp := BadRequest([]);
        return;
      }
      var status := FromCode(code).value;
      var record := existing.value.(status := status, updatedAt := Some(now));
      SameLinkRowOk(rows, forms.Keys, nextRowId, id, record);
      var envelope := forms[record.formId].(status := Name(status), updatedAt := Some(later));
      RestampEnvelopeOk(forms, nextFormId, record.formId, envelope);
      if !saved {
        resp := ServerError;
        return;
      }
      rows := ReplaceRow(rows, id, record);
      forms := forms[record.formId := envelope];
      notice := Some(StatusNotice(record.housingSpecialistEmail,
        "MCR Form Status Updated - " + record.tenantName + " (ID: " + IntToString(id) + ")"));
      resp := NoContent;
    }

    /** PUT /api/MCR/{id} (UpdateMCRForm). An invalid body is refused with its
        validation errors, a body whose Id is not the route id with a plain 400, an
        unknown id with NotFound. Otherwise the stored record takes every property of
        the body (SetValues), the UpdatedAt stamp set just before included, so it keeps
        the body's UpdatedAt; the envelope keeps its own stamp, the clock reading now.
        (The record's stamp is a separate reading, and SetValues overwrites it.) The database refuses a
        FormId that names no envelope or another record's envelope. */
    method UpdateFields(id: int, body: McrForm, now: Instant, saved: bool) returns (resp: Response)
      requires Valid()
      modifies this
      ensures Valid()
      ensures nextFormId == old(nextFormId) && nextRowId == old(nextRowId)
      ensures !IsInt32(id) ==> resp == BadRequest([]) && forms == old(forms) && rows == old(rows)
      ensures IsInt32(id) && !IsValid(body) ==>
        resp == BadRequest(ValidationErrors(body)) && forms == old(forms) && rows == old(rows)
      ensures IsInt32(id) && IsValid(body) && id != body.id ==>
        resp == BadRequest([]) && forms == old(forms) && rows == old(rows)
      ensures IsInt32(id) && IsValid(body) && id == body.id && Lookup(old(rows), id).None? ==>
        resp == NotFound && forms == old(forms) && rows == old(rows)
      ensures IsInt32(id) && IsValid(body) && id == body.id && Lookup(old(rows), id).Some? && !saved ==>
        resp == ServerError && forms == old(forms) && rows == old(rows)
      ensures (IsInt32(id) && IsValid(body) && id == body.id && Lookup(old(rows), id).Some?
               && !LinkAllowed(old(forms), old(rows), body.formId, id)) ==>
        resp == ServerError && forms == old(forms) && rows == old(rows)
      ensures (IsInt32(id) && IsValid(body) && id == body.id && Lookup(old(rows), id).Some?
               && saved && LinkAllowed(old(forms), old(rows), body.formId, id)) ==>
        var envelopeId := Lookup(old(rows), id).value.formId;
        resp == NoContent
        && rows == ReplaceRow(old(rows), id, body)
        && forms == old(forms)[envelopeId := old(forms)[envelopeId].(updatedAt := Some(now))]
    {
      if !IsInt32(id) {
        resp := BadRequest([]);
        return;
      }
      if !IsValid(body) {
        resp := BadRequest(ValidationErrors(body));
        return;
      }
      if id != body.id {
        resp := BadRequest([]);
        return;
      }
      var existing := Lookup(rows, id);
      if existing.None? {
        resp := NotFound;
        return;
      }
      var envelopeId := existing.value.formId;
      LookupLinked(rows, forms.Keys, nextRowId, id);
      var stamped := existing.value.(updatedAt := Some(now));
      var envelope := forms[envelopeId].(updatedAt := Some(now));
      RestampEnvelopeOk(forms, nextFormId, envelopeId, envelope);
      // SetValues copies every scalar property of the body, UpdatedAt included.
      var record := body;
      if !saved || !LinkAllowed(forms, rows, record.formId, id) {
        resp := ServerError;
        return;
      }
      ReplaceRowOk(rows, forms.Keys, nextRowId, id, record);
      rows := ReplaceRow(rows, id, record);
      forms := forms[envelopeId := envelope];
      resp := NoContent;
    }

    /** DELETE /api/MCR/{id} (DeleteMCRForm): only the MCR record is removed; its
        envelope stays in the Forms table. */
    method Delete(id: int, saved: bool) returns (resp: Response)
      requires Valid()
      modifies this
      ensures Valid()
      ensures nextFormId == old(nextFormId) && nextRowId == old(nextRowId)
      ensures forms == old(forms)
      ensures !IsInt32(id) ==> resp == BadRequest([]) && rows == old(rows)
      ensures IsInt32(id) && Lookup(old(rows), id).None? ==> resp == NotFound && rows == old(rows)
      ensures IsInt32(id) && Lookup(old(rows), id).Some? && !saved ==> resp == ServerError && rows == old(rows)
      ensures IsInt32(id) && Lookup(old(rows), id).Some? && saved ==>
        resp == NoContent && rows == Filter(old(rows), (r: McrForm) => r.id != id)
    {
      if !IsInt32(id) {
        resp := BadRequest([]);
        return;
      }
      var existing := Lookup(rows, id);
      if existing.None? {
        resp := NotFound;
        return;
      }
      if !saved {
        resp := ServerError;
        return;
      }
      var keep := (r: McrForm) => r.id != id;
      FilterRowsOk(rows, forms.Keys, nextRowId, keep);
      rows := Filter(rows, keep);
      resp := NoContent;
    }

    /** Removing an envelope, which no action of the controller does: the relation's
        cascade removes its MCR record with it. */
    method DeleteEnvelope(formId: int)
      requires Valid()
      modifies this
      ensures Valid()
      ensures forms == map k | k in old(forms) && k != formId :: old(forms)[k]
      ensures rows == Filter(old(rows), (r: McrForm) => r.formId != formId)
    {
      CascadeRowsOk(rows, forms.Keys, nextRowId, formId);
      rows := Filter(rows, (r: McrForm) => r.formId != formId);
      forms := map k | k in forms && k != formId :: forms[k];
      assert forms.Keys == old(forms).Keys - {formId};
    }
  }
}
