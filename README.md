# Housing MCR forms — a Dafny model

A model of the Manual Check Request (MCR) system of the City of Vallejo housing
program. It covers both sides.

The ASP.NET API stores MCR records with their `Form` envelopes. It creates, lists,
updates, re-statuses and deletes them, and it signs users in against the directory.

The React client has these screens:
- the MCR form page, with proration, the landlord check and request building;
- the forms list, with the approver allow-list, filters, counters and the optimistic
  status update;
- the details dialog;
- the specialist dashboard;
- the report viewer, with filters, pagination, unique specialists, analytics and the
  CSV export;
- the reports catalogue;
- the sign-in form.

Each part is modelled in the form its code takes:
- The API's database becomes a `class Store` with two tables. Its methods change them
  and state the whole new state.
- The screens whose handlers update state step by step become classes:
  `FormPage.McrFormPage`, `FormsList.FormsListPage`, `Dashboard.DashboardPage`,
  `ReportViewer.ReportViewerPage` and `Login.LoginForm`.
- Pure mappings, filters and string helpers become functions. Lemmas relate them to
  independent statements of what they mean.

Modules:

| module | file | what it holds |
|---|---|---|
| `Strings` | strings.dfy | case mapping, JS and .NET white space, trim, substring search, split/join, decimal digits, UTF-16 length |
| `Calendar` | calendar.dfy | instants, Gregorian dates, days in month, previous month |
| `Money` | money.dfy | exact decimals, half-away-from-zero rounding, `parseFloat`, `toFixed(2)` |
| `Lists` | lists.dfy | filter and count over sequences |
| `StringOrder` | string_order.dfy | code-point string order and an insertion sort |
| `FormStatus` | form_status.dfy | the status enum, its codes, its names and how a JSON status binds |
| `Records` | records.dfy | the envelope and MCR record, their defaults and data-annotation validation |
| `FormStore` | form_store.dfy | the two-table store and the six controller actions |
| `Binding` | binding.dfy | the record model binding makes of the page's JSON body |
| `Proration` | proration.dfy | `calculateProratedAmount` |
| `Usernames` | usernames.dfy | `formatUsernameToName` |
| `Wire` | wire.dfy | the record as JSON, and the status label and colour mappings |
| `FormPage` | mcr_form_page.dfy | the MCR form page |
| `FormsList` | forms_list.dfy | the forms list |
| `FormDetails` | form_details.dfy | the details dialog |
| `Dashboard` | dashboard.dfy | the dashboard |
| `Csv` | csv.dfy | the CSV file both report screens write |
| `ReportViewer` | report_viewer.dfy | the report viewer |
| `Reports` | reports.dfy | the reports catalogue |
| `Auth` | auth.dfy | `AuthController` |
| `Login` | login.dfy | the sign-in form |
| `Scenarios` | scenarios.dfy | what the screens' requests do once they reach the API |

Assumptions, where the shown code leaves a gap:
- The `MCRFormStatus` enum is not part of this model's sources. Its order is taken from
  the client's name table (FormsList.tsx:157): Pending, Approved, Rejected, InReview,
  with codes 0 to 3.
- `MCRForm.ParseStatus` is not shown either. It is taken to map a status's name back to
  that status and any other text to Pending.
- `Models/MCRForm.cs` is stale: it declares `Status` as a string and has neither `FormId`
  nor `EntityName`. The field set therefore follows the controller and
  `ApplicationDbContext.cs`. The status is the enum, and `EntityName` is optional.
  Where the two disagree, the model follows the code that uses the fields.
- The API writes the status as its integer code, and `StatusUpdateRequest` binds a
  string status by name, ignoring case.
- `[Required]` on a string refuses null, empty and white-space-only values.
  `[EmailAddress]` is modelled by the .NET rule: exactly one '@', neither first nor
  last.
- The client reads `username` from local storage. Here it is an input.
- The outcome of every save, fetch, mail delivery and directory call is a parameter.
  So is the current instant, and the browser's local calendar date of an instant. No
  I/O is modelled.

## Model

| member | source | states |
|---|---|---|
| FormStatus.Code | HousingProject.API/Controllers/MCRController.cs:138 | a status's code is one of the four defined values 0..3 |
| FormStatus.FromCode | HousingProject.API/Controllers/MCRController.cs:138-143 | `Enum.IsDefined`: a code yields a status exactly when it is defined, and then the status with that code |
| FormStatus.ParseStatus | HousingProject.API/Data/ApplicationDbContext.cs:37-40 | text that names no status reads back as Pending |
| FormStatus.ParseStatusName | HousingProject.API/Data/ApplicationDbContext.cs:37-40 | storing a status as its name and reading it back gives the same status |
| FormStatus.NameInjective | HousingProject.API/Data/ApplicationDbContext.cs:39 | no two statuses share a name, so the column conversion loses nothing |
| FormStatus.CodeRoundTrip | HousingProject.API/Controllers/MCRController.cs:138-143 | every status's code is accepted and names that status again |
| FormStatus.FromNameIgnoringCase | HousingProject.API/Models/StatusUpdateRequest.cs:9-10 | a string found is equal, ignoring case, to that status's name |
| FormStatus.BindStatus | HousingProject.API/Models/StatusUpdateRequest.cs:9-10 | a JSON number binds to itself exactly when it fits an Int32, and to nothing beyond; a missing status binds to Pending's code |
| FormStatus.BindStatusString | HousingProject.API/Models/StatusUpdateRequest.cs:9-10 | a JSON string binds exactly when it is a status name up to case or an integer within Int32; a name binds to its status's code and an integer to its own value |
| FormStatus.NumericValue | HousingProject.API/Models/StatusUpdateRequest.cs:9-10 | an integer read from a string lies within Int32 and starts with a digit or a sign |
| FormStatus.NameNotNumeric | HousingProject.API/Models/StatusUpdateRequest.cs:9-10 | no text is both a status name and an integer, so the two readings never compete |
| FormStatus.NumberBeyondInt32 | HousingProject.API/Models/StatusUpdateRequest.cs:9-10 | the number 3000000000 does not bind, while Int32's largest value binds to itself |
| FormStatus.NumericValueOfDigits | HousingProject.API/Models/StatusUpdateRequest.cs:9-10 | digits within Int32, with an optional '-', read back as their value, negated after '-' |
| FormStatus.NumericStatusStrings | HousingProject.API/Models/StatusUpdateRequest.cs:9-10 | "1" binds to Approved's code; "7" and "-1" bind to codes no status has |
| Records.NewEnvelope | HousingProject.API/Models/Form.cs:9-15 | a new envelope is Pending, created now and never updated |
| Records.NewMcrForm | HousingProject.API/Models/MCRForm.cs:90-93 | a new record is Pending, created now and never updated, with no key or envelope yet |
| Records.RequiredStrings | HousingProject.API/Models/MCRForm.cs:9-67 | the thirteen `[Required]` string properties, in declaration order |
| Records.RequiredErrors | HousingProject.API/Models/MCRForm.cs:9-67 | one Required error per blank required field, naming that field, and no other error |
| Records.ValidIff | HousingProject.API/Models/MCRForm.cs:9-67 | model state is valid iff every required string is non-blank, the email is an address and the SSN part is exactly 4 UTF-16 code units long, as .NET counts string length |
| Records.ValidationErrors | HousingProject.API/Models/MCRForm.cs:9-67 | a Required error for exactly the blank required fields, an EmailAddress error exactly when the email is not an address, a StringLength error exactly when the SSN part is not 4 code units, and no other error |
| Records.ValidHasRequiredFields | HousingProject.API/Models/MCRForm.cs:9-67 | a valid record names the specialist, program, tenant, owner account, address, both landlord names and the MCR type, with an SSN part of 4 UTF-16 code units and an email address |
| Records.OptionalFieldsIrrelevant | HousingProject.API/Models/MCRForm.cs:36-88 | address line 2, entity name, comments, selected type, description, dates, amounts and signature play no part in validation |
| FormStore.Lookup | HousingProject.API/Controllers/MCRController.cs:128-130 | `FirstOrDefault` by key: a row found has that key, and none is found iff no row has it |
| FormStore.LookupAt | HousingProject.API/Controllers/MCRController.cs:128-130 | with distinct keys the row found is the one stored under the key |
| FormStore.InsertKeepsNewestFirst | HousingProject.API/Controllers/MCRController.cs:112 | inserting a row into a newest-first list keeps it newest first |
| FormStore.SortNewestFirst | HousingProject.API/Controllers/MCRController.cs:110-113 | `OrderByDescending(CreatedAt)`: a permutation of the rows, newest first |
| FormStore.Store.constructor | HousingProject.API/Data/ApplicationDbContext.cs:21-49 | an empty database satisfies every key, identity and one-to-one constraint |
| FormStore.Store.Submit | HousingProject.API/Controllers/MCRController.cs:24-86 | invalid body: 400 with its errors and no change; otherwise the "MCR" envelope is saved first, then the record with that envelope's key, status Pending and a second reading of the clock. A failed second save leaves the envelope behind with 500. The mail outcome never changes the 201 |
| FormStore.Store.Get | HousingProject.API/Controllers/MCRController.cs:88-101 | a route id beyond Int32: 400; otherwise the stored record for the key, or NotFound |
| FormStore.Store.List | HousingProject.API/Controllers/MCRController.cs:103-123 | every record, newest first, or 500 when the query fails |
| FormStore.Store.UpdateStatus | HousingProject.API/Controllers/MCRController.cs:125-219 | route id beyond Int32 or unbindable status: 400; unknown id: NotFound before the status is looked at; undefined status: 400; all with no change. Otherwise the record takes the status and a clock reading, and its envelope the status name and a second, separate reading, whatever the current status or the caller |
| FormStore.Store.UpdateFields | HousingProject.API/Controllers/MCRController.cs:221-259 | route id beyond Int32: 400; route id ≠ body Id: 400; unknown id: NotFound; all with no change. Otherwise the record becomes the body, keeping the body's UpdatedAt; only the envelope keeps the new stamp |
| FormStore.Store.Delete | HousingProject.API/Controllers/MCRController.cs:261-278 | route id beyond Int32: 400; unknown id: NotFound; otherwise the rows become exactly those whose key differs from the id, and the envelopes are unchanged |
| FormStore.Store.DeleteEnvelope | HousingProject.API/Data/ApplicationDbContext.cs:45-48 | removing an envelope cascades: the rows become exactly those not linked to it, in their order, and the other envelopes stay |
| FormStore.FilterIdsIncreasing | HousingProject.API/Controllers/MCRController.cs:261-278 | dropping rows keeps the keys in increasing order, so identity keys stay ordered after any delete |
| Binding.BindPayload | HousingProject.API/Controllers/MCRController.cs:25 | the page's body binds to a record with key 0, envelope 0, status Pending, created now and no signature |
| Binding.BoundRequiredStrings | HousingProject.API/Models/MCRForm.cs:9-67 | the bound record's required strings are the body's fields |
| Binding.BoundValidIff | HousingProject.API/Models/MCRForm.cs:9-67 | a body passes validation exactly when its required fields are filled in, its email is an address and its SSN part is 4 UTF-16 code units long |
| FormPage.Cleared | housingproject.web/src/components/MCRForm.tsx:318-346 | `resetForm` keeps the specialist's name and email, restores Vallejo, California and no prorated amount |
| FormPage.ClearedIsInitial | housingproject.web/src/components/MCRForm.tsx:71-98 | a reset page is the freshly opened page with the same specialist |
| FormPage.ClearedIdempotent | housingproject.web/src/components/MCRForm.tsx:318-346 | resetting twice is resetting once |
| FormPage.HasLandlordIdentification | housingproject.web/src/components/MCRForm.tsx:212-223 | an entity name, or both landlord names, that is not all JS white space |
| FormPage.PayloadOf | housingproject.web/src/components/MCRForm.tsx:230-260 | no body exactly when one of the five date slots holds an Invalid Date; otherwise the HAP amount is the parsed amount or 0, and the prorated amount is the slot's cents, null for NaN |
| FormPage.InstantOf | housingproject.web/src/components/MCRForm.tsx:247-252 | `d?.toISOString()`: undefined for no date, the instant for a date, and a thrown RangeError (None) for an Invalid Date |
| FormPage.JsonCents | housingproject.web/src/components/MCRForm.tsx:259 | `JSON.stringify` writes the prorated amount as its cents, and NaN and null both as null |
| FormPage.RequestFor | housingproject.web/src/components/MCRForm.tsx:265-269 | no request exactly when the body cannot be built; otherwise PUT to /api/MCR/{id} exactly when a record is being edited, else POST to /api/MCR, with that body |
| FormPage.BoundPayloadHasNoIdentity | housingproject.web/src/components/MCRForm.tsx:230-260 | whatever the slots, a body that can be built binds on the API to Id 0 and FormId 0 |
| FormPage.EntityNameAloneIsRefusedByApi | housingproject.web/src/components/MCRForm.tsx:213-223 | an entity name alone passes the page's landlord check, but any body built from it fails the API's required landlord names |
| FormPage.ValidBodyPassesLandlordCheck | HousingProject.API/Models/MCRForm.cs:48-52 | a body built from the slots that the API accepts passes the page's landlord check, provided the names hold no U+FEFF |
| FormPage.ByteOrderMarkName | housingproject.web/src/components/MCRForm.tsx:213-223 | U+FEFF is JS white space but not .NET white space: a name of that one character is not blank to the API yet trims to nothing |
| FormPage.BlankVersusTrim | housingproject.web/src/components/MCRForm.tsx:213-223 | a string non-blank to .NET and free of U+FEFF stays non-empty after JS trim |
| FormPage.PopulateRoundTrip | housingproject.web/src/components/MCRForm.tsx:145-199 | a loaded record can be sent back unless its vacate slot is empty and the page held an Invalid Date there; sent back unchanged it carries its own fields and amounts |
| FormPage.Populated | housingproject.web/src/components/MCRForm.tsx:145-199 | the loaded slots always have a city and a state; the prorated slot is either empty or a non-zero amount; an empty specialist name keeps the page's |
| FormPage.PopulatedDates | housingproject.web/src/components/MCRForm.tsx:172-188 | a loaded page holds an Invalid Date exactly when the record has no vacate date and the page's vacate slot already held one |
| FormPage.PopulatedAmountReadsBack | housingproject.web/src/components/MCRForm.tsx:163 | the loaded HAP text reads back through `parseFloat(text) \|\| 0` as the record's cents |
| FormPage.CentsOfCents | HousingProject.API/Data/ApplicationDbContext.cs:32-33 | an amount with two decimals keeps its cents in the decimal(18,2) column |
| FormPage.McrFormPage.constructor | housingproject.web/src/components/MCRForm.tsx:71-106 | the page opens with the initial slots and a closed snackbar |
| FormPage.McrFormPage.FillSpecialist | housingproject.web/src/components/MCRForm.tsx:134-142 | a stored username fills the specialist's display name and email; without one nothing changes |
| FormPage.McrFormPage.RecalculateProration | housingproject.web/src/components/MCRForm.tsx:129-131 | only the prorated amount changes, to the proration of the amount and the vacate date |
| FormPage.McrFormPage.Populate | housingproject.web/src/components/MCRForm.tsx:145-199 | a record being edited is written over the slots; otherwise nothing changes |
| FormPage.McrFormPage.ResetForm | housingproject.web/src/components/MCRForm.tsx:318-346 | the slots become the reset ones |
| FormPage.McrFormPage.CloseSnackbar | housingproject.web/src/components/MCRForm.tsx:348-350 | the snackbar closes and keeps its message |
| FormPage.McrFormPage.HandleSubmit | housingproject.web/src/components/MCRForm.tsx:207-316 | without landlord identification no request is sent and an error shows; with an Invalid Date in a slot `toISOString` throws, no request is sent and "Error submitting form: RangeError: Invalid time value" shows with the slots kept; otherwise the request for the slots is sent, and the outcome decides the message and whether the form resets |
| FormPage.McrFormPage.ReportOutcome | housingproject.web/src/components/MCRForm.tsx:284-312 | a 2xx response shows the success message, resets the form and reports the submission; any other outcome shows its error and leaves the slots alone |
| Proration.JsLastDay | housingproject.web/src/components/MCRForm.tsx:121 | `new Date(y, m + 1, 0).getDate()` is a month length between 28 and 31 |
| Proration.JsLastDayIsCalendar | housingproject.web/src/components/MCRForm.tsx:121 | outside year 0 it is the Gregorian month length |
| Proration.ProratedCents | housingproject.web/src/components/MCRForm.tsx:108-127 | a value is computed exactly when the amount text is non-empty, a date is chosen and the text parses, and it is NaN exactly when that date is an Invalid Date |
| Proration.ProratedIsNearestCent | housingproject.web/src/components/MCRForm.tsx:121-126 | for a real date the result is amount ÷ last day × day rounded to the cent, a tie going away from zero |
| Proration.LastDayPaysFullAmount | housingproject.web/src/components/MCRForm.tsx:121-126 | on the month's last day the whole amount is due |
| Proration.ProratedWithinAmount | housingproject.web/src/components/MCRForm.tsx:121-126 | for a non-negative amount and a vacate date outside year 0, the prorated amount lies between 0 and the amount |
| Proration.YearZeroFebruaryOverpays | housingproject.web/src/components/MCRForm.tsx:121 | in year 0 the constructor's 1900 rule gives February 28 days, so on February 29 every positive whole monthly amount prorates to more than the amount itself |
| Proration.ProrationExamples | housingproject.web/src/components/MCRForm.tsx:121-126 | half of June on 930.00 is 465.00; 10 days of January on 100.00 is 32.26 |
| Money.ExponentExamples | housingproject.web/src/components/MCRForm.tsx:114 | `parseFloat` reads an exponent part: "1e3" is 1000, "2.5E-1" is 0.25, and "7e" stops before the incomplete exponent |
| Money.ParseWhole | housingproject.web/src/components/MCRForm.tsx:114 | `parseFloat` reads the decimal digits of any whole number back as exactly that number |
| Money.ScaledValue | housingproject.web/src/components/MCRForm.tsx:114 | applying an exponent keeps the number's value: mantissa and scale change by exactly that power of ten |
| Money.ParseToFixed2 | housingproject.web/src/components/MCRForm.tsx:126 | `parseFloat` of what `toFixed(2)` printed gives back the same cents |
| Money.ParseAmount | housingproject.web/src/components/MCRForm.tsx:114 | `parseFloat` gives a number exactly when, after leading whitespace and one optional sign, the text starts with a digit or with '.' and a digit; otherwise NaN |
| Money.ToFixed2 | housingproject.web/src/components/MCRForm.tsx:126 | `toFixed(2)` text: a '-' first exactly for a negative amount, and always a '.' followed by two digits at the end |
| Money.AmountOrZero | housingproject.web/src/components/MCRForm.tsx:258 | `parseFloat(text) \|\| 0`: zero when the text reads as NaN, the parsed amount otherwise, and the amount itself for a `toFixed(2)` text |
| Usernames.CapitalizeAll | housingproject.web/src/components/MCRForm.tsx:37-45 | each part capitalised, part for part |
| Usernames.FormatUsernameToName | housingproject.web/src/components/MCRForm.tsx:37-45 | for ASCII letters, one character per username character: '.' becomes a space, the first letter of each part is upper-cased and the rest lower-cased; an empty username gives '' |
| Usernames.SinglePartName | housingproject.web/src/components/MCRForm.tsx:37-45 | a username without '.' is one capitalised word |
| Usernames.FormatExample | housingproject.web/src/components/MCRForm.tsx:37-45 | "JANE.DOE" becomes "Jane Doe" |
| Usernames.CapitalizedSplitIsNameChars | housingproject.web/src/components/MCRForm.tsx:37-45 | split, capitalise and join equals the character-by-character rule |
| Usernames.NameCharsPointwise | housingproject.web/src/components/MCRForm.tsx:37-45 | the character-by-character rule, position by position |
| Wire.ToApiForm | HousingProject.API/Controllers/MCRController.cs:116 | the record the API writes carries its status as the integer code, with its own key and envelope |
| Wire.ToApiFormKeepsCents | HousingProject.API/Data/ApplicationDbContext.cs:32-33 | an amount with at most two decimals is written with exactly its value |
| Wire.StatusLabel | housingproject.web/src/components/FormsList.tsx:156-158 | the list's and dashboard's label is never empty |
| Wire.LabelOfCodeIsName | housingproject.web/src/components/FormsList.tsx:156-158 | a code the server sends is labelled with its status's name, InReview included |
| Wire.LabelDefaults | housingproject.web/src/components/FormsList.tsx:156-158 | the label is Pending iff the status is Pending, a number outside 0..3, null or empty; other strings pass through |
| Wire.CodeLabelIsName | housingproject.web/src/components/FormsList.tsx:156-158 | any number is labelled with one of the four names |
| Wire.ChipLabel | housingproject.web/src/components/ReportViewer.tsx:172-179 | the viewer's chip is Pending, Approved, Rejected or Unknown |
| Wire.DownloadLabel | housingproject.web/src/components/Reports.tsx:191 | the download's label is Pending, Approved, Rejected or Unknown |
| Wire.ReportLabelsOnServerCodes | housingproject.web/src/components/ReportViewer.tsx:172-179 | on server codes both report labels agree with each other and with the list's, except InReview, which they call Unknown |
| Wire.ChipAndDownloadDiffer | housingproject.web/src/components/Reports.tsx:191 | on numbers the two report labels agree; on the string "1" the chip says Approved and the download Unknown |
| Wire.StatusColorIgnoresCase | housingproject.web/src/components/FormsList.tsx:197-216 | the list's and the dashboard's chip colour ignore case |
| Wire.StatusColor | housingproject.web/src/components/FormsList.tsx:197-216 | Success, Warning, Info, Error exactly for "Approved", "Pending", "InReview" or "In Review", "Rejected" up to case; Default otherwise |
| Wire.DashboardStatusColor | housingproject.web/src/components/Dashboard.tsx:338-351 | the same, except that only "In Review" is Info: "InReview" in any case is Default |
| Wire.ColorsOfNames | housingproject.web/src/components/FormDetails.tsx:101-115 | Approved success, Pending warning, InReview info, Rejected error; the dashboard agrees except for InReview, which it leaves default |
| FormsList.RowOf | housingproject.web/src/components/FormsList.tsx:147-183 | a fetched record becomes a row with the mapped label, not updating |
| FormsList.IsUserAuthorized | housingproject.web/src/components/FormsList.tsx:90-101 | authorized iff a username is stored and it equals one of the four listed ids up to case |
| FormsList.StatusRequestFor | housingproject.web/src/components/FormsList.tsx:284-290 | PUT to the record's `/status` URL under the API base; the body binds to the status named by the text (up to case) or its number, and to nothing otherwise |
| FormsList.FormsListPage.CloseError | housingproject.web/src/components/FormsList.tsx:714-723 | closing the error snackbar clears the error and changes nothing else |
| FormsList.NoUserNotAuthorized | housingproject.web/src/components/FormsList.tsx:98-101 | no stored username, or an empty one, is never authorized |
| FormsList.FullAddress | housingproject.web/src/components/FormDetails.tsx:117-122 | written out: line 1, then line 2 only when it is present and non-empty, then "city, state zip", separated by ", " |
| FormsList.EmptySecondLineIsMissing | housingproject.web/src/components/FormDetails.tsx:117-122 | an empty second line and a missing one give the same address |
| FormsList.FilteredForms | housingproject.web/src/components/FormsList.tsx:218-233 | a row is kept iff it passes the status filter ("All" or the exact label) and the case-insensitive search over tenant, address, label and specialist |
| FormsList.ClearedFiltersKeepAll | housingproject.web/src/components/FormsList.tsx:416-421 | the cleared filters keep the list as it is |
| FormsList.SearchIgnoresCase | housingproject.web/src/components/FormsList.tsx:218-233 | the search term's case does not matter |
| FormsList.CountStatus | housingproject.web/src/components/FormsList.tsx:605-636 | a counter never exceeds the number of rows |
| FormsList.RowsOfServerRecordsHaveNames | housingproject.web/src/components/FormsList.tsx:147-183 | rows made of the server's records carry status names |
| FormsList.InReviewCounterAlwaysZero | housingproject.web/src/components/FormsList.tsx:631-636 | as written the In Review counter is 0 on every list whose labels are names |
| FormsList.InReviewCounterExample | housingproject.web/src/components/FormsList.tsx:631-636 | one InReview record: the counter as written shows 0 and the intended one 1 |
| FormsList.CountersWithinTotal | housingproject.web/src/components/FormsList.tsx:605-636 | the Approved, Pending and intended In Review counters add up to at most the total |
| FormsList.ActionsOf | housingproject.web/src/components/FormsList.tsx:548-579 | Approve/Reject iff the row is Pending and the user authorized, disabled while updating; "View only" iff Pending and not authorized |
| FormsList.WithRow | housingproject.web/src/components/FormsList.tsx:271-339 | only the rows with that id change, to the status given, if any, and the flag given |
| FormsList.WithRowKeepsRecords | housingproject.web/src/components/FormsList.tsx:271-339 | the update keeps every record and the order of the rows |
| FormsList.FailedUpdateRestores | housingproject.web/src/components/FormsList.tsx:271-339 | a failed update leaves a list with no update in flight exactly as it was |
| FormsList.SucceededUpdateSetsStatus | housingproject.web/src/components/FormsList.tsx:271-339 | a successful update gives the rows with that id the new status and clears their flag, and leaves the others alone |
| FormsList.DecisionsBind | housingproject.web/src/components/FormsList.tsx:284-291 | the bodies `{status: "Approved"}` and `{status: "Rejected"}` bind on the API to those statuses |
| FormsList.FormsListPage.constructor | housingproject.web/src/components/FormsList.tsx:78-87 | the screen opens with no rows, the filter on Pending and every dialog closed |
| FormsList.FormsListPage.Load | housingproject.web/src/components/FormsList.tsx:124-195 | the rows of the records, or the load error, and nothing else changes |
| FormsList.FormsListPage.ClearFilters | housingproject.web/src/components/FormsList.tsx:416-421 | empty search and "All", so every row is shown |
| FormsList.FormsListPage.BeginStatusUpdate | housingproject.web/src/components/FormsList.tsx:276-282 | the rows with that id show the spinner; nothing else changes |
| FormsList.FormsListPage.FinishStatusUpdate | housingproject.web/src/components/FormsList.tsx:295-338 | success: those rows take the new status and the error clears; failure: they keep their status and the outcome's exact message shows; the spinner stops either way |
| FormsList.UpdateError | housingproject.web/src/components/FormsList.tsx:307-338 | no error exactly on success; a refused request gives "Failed to update status: " with its status and body text, a thrown error "Error updating status: " with its message |
| FormsList.FormsListPage.UpdateFormStatus | housingproject.web/src/components/FormsList.tsx:271-339 | both stages, with the status request for that id: the rows with that id take the new status only on success, and the error becomes the outcome's message |
| FormsList.FormsListPage.RejectClick | housingproject.web/src/components/FormsList.tsx:104-108 | the rejection dialog opens for that row with an empty reason |
| FormsList.FormsListPage.SetRejectionReason | housingproject.web/src/components/FormsList.tsx:692 | the reason takes the typed text |
| FormsList.FormsListPage.CloseRejectionDialog | housingproject.web/src/components/FormsList.tsx:110-114 | the dialog closes with no row and an empty reason |
| FormsList.FormsListPage.SubmitRejection | housingproject.web/src/components/FormsList.tsx:116-121 | a rejection is sent only with a row chosen and a reason that trims to something, the rows and the error then follow the outcome and the dialog resets; otherwise nothing happens |
| FormsList.FormsListPage.ViewDetails | housingproject.web/src/components/FormsList.tsx:261-264 | the details open on that row |
| FormsList.FormsListPage.CloseDetails | housingproject.web/src/components/FormsList.tsx:266-269 | the details close |
| FormsList.FormsListPage.DecideFromDetails | housingproject.web/src/components/FormsList.tsx:651-657 | the details callbacks update the status with no allow-list or reason check, the rows and the error following the outcome, then close the details |
| FormsList.FormsListPage.ApproveFromRow | housingproject.web/src/components/FormsList.tsx:548-560 | a row's Approve click sends Approved only when the row is Pending, not updating and the user is on the allow-list, the rows and the error then following the outcome; otherwise no request and the rows unchanged |
| FormsList.FormsListPage.RejectFromRow | housingproject.web/src/components/FormsList.tsx:562-571 | a row's Reject click opens the rejection dialog under the same condition; it never changes the rows |
| FormsList.FormsListPage.DecideFromDetailsCorrected | housingproject.web/src/components/FormsList.tsx:647-665 | with the callbacks passed only to the allow-list, an unauthorized user sends nothing and changes no row from the details dialog; an authorized user on a Pending row decides, the rows and the error follow the outcome, and the dialog closes |
| FormDetails.DetailsBypassAllowList | housingproject.web/src/components/FormsList.tsx:647-665 | as written a user not on the allow-list gets the details dialog's buttons on a Pending form, though the row offers none |
| FormDetails.OnlyAuthorizedDecide | housingproject.web/src/components/FormDetails.tsx:490-511 | with the callbacks passed only to the allow-list, the dialog's buttons appear exactly when the row's do: a Pending row and an authorized user |
| FormDetails.ReadOnlyText | housingproject.web/src/components/FormDetails.tsx:125-146 | a field shows its value, or "N/A" for an empty one |
| FormDetails.ShownDescription | housingproject.web/src/components/FormDetails.tsx:424-428 | the description shows iff the selected type is "other" and the description is non-empty |
| FormDetails.Render | housingproject.web/src/components/FormDetails.tsx:80-511 | nothing for a null form; the buttons iff the label is exactly "Pending" and both callbacks are supplied; the chip, id and joined address of the row |
| FormDetails.ButtonsNeedExactLabel | housingproject.web/src/components/FormDetails.tsx:490 | a "pending" label gets the Pending colour but no buttons |
| FormDetails.ListAlwaysOffersButtonsOnPending | housingproject.web/src/components/FormDetails.tsx:490-511 | opened from the list, a Pending row always gets the buttons, allow-list or not |
| Dashboard.DisplayNameSpec | housingproject.web/src/components/Dashboard.tsx:114-122 | "User" without a username; otherwise the form page's display name |
| Dashboard.UserForms | housingproject.web/src/components/Dashboard.tsx:164-167 | a record is kept iff its specialist name is non-empty and equals the display name ignoring case |
| Dashboard.RowOf | housingproject.web/src/components/Dashboard.tsx:170-184 | a row keeps the record, its id and its mapped label |
| Dashboard.RowsOf | housingproject.web/src/components/Dashboard.tsx:170-188 | one row per record, in the records' order: the comparator reads a missing field and sorts nothing |
| Dashboard.UserFormsKeepOrder | housingproject.web/src/components/Dashboard.tsx:164-188 | the user's records keep the API's newest-first order |
| Dashboard.StatsOf | housingproject.web/src/components/Dashboard.tsx:208-230 | the total card is the number of the user's records; pending + approved + rejected ≤ total; this month and last month each ≤ total |
| Dashboard.LastMonthIsPreviousMonth | housingproject.web/src/components/Dashboard.tsx:193-206 | the last-month card counts exactly the records of the calendar month before now |
| Dashboard.JanuaryFollowsDecember | housingproject.web/src/components/Dashboard.tsx:201-206 | before January 2025 is December 2024; before June is May of the same year |
| Calendar.PreviousMonth | housingproject.web/src/components/Dashboard.tsx:201-206 | the month before is a month index 0..11, one month earlier |
| Dashboard.RecentForms | housingproject.web/src/components/Dashboard.tsx:246-255 | "All" keeps every row; otherwise a row is kept iff its label equals the filter ignoring case |
| Dashboard.RecentFormsIgnoreCase | housingproject.web/src/components/Dashboard.tsx:246-255 | the filter's case does not matter |
| Dashboard.HandleFormClick | housingproject.web/src/components/Dashboard.tsx:69-77 | a rejected row opens the editor on its original record; any other opens its details by id |
| Dashboard.RejectedOpensEditor | housingproject.web/src/components/Dashboard.tsx:69-77 | a record the server calls Rejected opens the editor on itself |
| Dashboard.GenerateNotifications | housingproject.web/src/components/Dashboard.tsx:259-314 | the notifications pushed one after another are those of the list |
| Dashboard.Notifications | housingproject.web/src/components/Dashboard.tsx:259-314 | at most three notices with distinct ids; each of the rejected, old-pending and this-week notices appears, carrying its count, exactly when that count is positive |
| Dashboard.RejectedNoticeIff | housingproject.web/src/components/Dashboard.tsx:263-273 | the rejected notice appears iff a row is rejected, with their count, "forms" iff more than one |
| Dashboard.OnlyRejectedNoticeAsWritten | housingproject.web/src/components/Dashboard.tsx:276-311 | as written the pending and recent notices never appear: they read a row's missing createdAt |
| Dashboard.RecentActivityWithCreatedAt | housingproject.web/src/components/Dashboard.tsx:295-311 | with the record's own CreatedAt, a record created now gets the recent-activity notice, which the code as written never shows |
| Dashboard.OldPendingWithCreatedAt | housingproject.web/src/components/Dashboard.tsx:276-292 | with the record's own CreatedAt, the pending alert appears iff some pending row is over 7 days old |
| Dashboard.DashboardPage.constructor | housingproject.web/src/components/Dashboard.tsx:125-140 | zero cards, no rows, filter "All", no notifications |
| Dashboard.DashboardPage.FetchUserForms | housingproject.web/src/components/Dashboard.tsx:143-243 | without a username nothing; on failure the error; otherwise the user's rows and their cards |
| Dashboard.DashboardPage.ApplyStatusFilter | housingproject.web/src/components/Dashboard.tsx:246-255 | the recent list becomes the filtered rows |
| Dashboard.DashboardPage.RefreshNotifications | housingproject.web/src/components/Dashboard.tsx:316-319 | only a non-empty list recomputes the notices |
| Dashboard.DashboardPage.CardClick | housingproject.web/src/components/Dashboard.tsx:90-111 | each status card sets its filter; only the month card leaves for the forms list |
| Dashboard.DashboardPage.NotificationAction | housingproject.web/src/components/Dashboard.tsx:83-88 | the rejected notice filters on Rejected; the menu closes |
| Csv.AmountField | housingproject.web/src/components/ReportViewer.tsx:225-234 | empty exactly for a zero amount, otherwise starting with "$" |
| Csv.AmountFieldReadsBack | housingproject.web/src/components/ReportViewer.tsx:225-234 | after the "$", a non-zero amount's cell reads back as the same cents |
| Csv.RecordFields | housingproject.web/src/components/ReportViewer.tsx:225-234 | one cell per header |
| Csv.Quote | housingproject.web/src/components/ReportViewer.tsx:236-238 | the field between double quotes, unchanged |
| Csv.QuotedLineReadsBack | housingproject.web/src/components/ReportViewer.tsx:236-238 | a line of fields free of commas and newlines splits and unquotes back to the fields |
| Csv.ReadText | housingproject.web/src/components/ReportViewer.tsx:236-238 | such a table reads back from its text cell for cell |
| Csv.QuotesNotEscaped | housingproject.web/src/components/ReportViewer.tsx:236-238 | embedded quotes are not doubled: one cell `Smith","Jones` prints as the two cells Smith and Jones |
| Csv.Table | housingproject.web/src/components/ReportViewer.tsx:214-234 | the header row and one row per record |
| Csv.Export | housingproject.web/src/components/ReportViewer.tsx:214-238 | when no cell holds a comma or a newline, the file reads back as exactly the table it was written from |
| Csv.TableRows | housingproject.web/src/components/ReportViewer.tsx:214-234 | the table is the 8 headers, then each record's 8 cells, in list order |
| Csv.TableShape | housingproject.web/src/components/ReportViewer.tsx:214-234 | every row of the table has as many cells as the header row |
| ReportViewer.Filtered | housingproject.web/src/components/ReportViewer.tsx:137-170 | a record is kept iff it passes the search, the status filter and the specialist filter |
| ReportViewer.StatusFilterMatchesChip | housingproject.web/src/components/ReportViewer.tsx:150-159 | on a numeric status the status filter keeps exactly the records whose chip lower-cases to it |
| ReportViewer.SearchIgnoresCase | housingproject.web/src/components/ReportViewer.tsx:141-148 | the search term's case does not matter |
| ReportViewer.PageOf | housingproject.web/src/components/ReportViewer.tsx:1087-1089 | a page holds at most rows-per-page rows: none when the page starts past the end, otherwise the rows from page·rpp on, rpp of them or as many as remain, position i being row page·rpp + i |
| ReportViewer.RowOnItsPage | housingproject.web/src/components/ReportViewer.tsx:1087-1089 | row i is on page i ÷ rpp at position i mod rpp |
| ReportViewer.PagesArePrefix | housingproject.web/src/components/ReportViewer.tsx:1087-1089 | the first n pages are the first n·rpp rows |
| ReportViewer.PagesPartition | housingproject.web/src/components/ReportViewer.tsx:1087-1089 | the pages one after another are exactly the list |
| ReportViewer.PageCountCovers | housingproject.web/src/components/ReportViewer.tsx:1087-1089 | enough pages cover every row |
| ReportViewer.FirstOccurrences | housingproject.web/src/components/ReportViewer.tsx:345-350 | the names kept are non-empty, distinct and each at its first position |
| ReportViewer.FirstOccurrencesComplete | housingproject.web/src/components/ReportViewer.tsx:345-350 | every non-empty name is kept at its first position |
| ReportViewer.UniqueSpecialists | housingproject.web/src/components/ReportViewer.tsx:345-350 | exactly the distinct non-empty specialist names, sorted |
| ReportViewer.RangeForms | housingproject.web/src/components/ReportViewer.tsx:355-367 | a record is kept iff it lies within the chosen dates |
| ReportViewer.Rate | housingproject.web/src/components/ReportViewer.tsx:369-375 | count ÷ total × 100, between 0 and 100, and 0 when there are no records |
| ReportViewer.RoundTenth | housingproject.web/src/components/ReportViewer.tsx:372-375 | within 0.05 of the rate, and still between 0 and 100 |
| ReportViewer.AddFormCorrect | housingproject.web/src/components/ReportViewer.tsx:387-398 | one step of the reduce keeps one correct tally per month seen |
| ReportViewer.MonthlyOfCorrect | housingproject.web/src/components/ReportViewer.tsx:387-398 | the reduce holds one entry per month with a record, each counting that month's pending, approved and rejected records |
| ReportViewer.MonthlyOf | housingproject.web/src/components/ReportViewer.tsx:387-398 | at most one month entry per record, and at least one when there is a record |
| ReportViewer.MonthlyOfSnoc | housingproject.web/src/components/ReportViewer.tsx:387-398 | the reduce over one more record is one more step |
| ReportViewer.LastSix | housingproject.web/src/components/ReportViewer.tsx:400-409 | exactly min(6, n) entries taken from the end of the n entered: the last six months entered, all of them when there are six or fewer |
| ReportViewer.AnalyticsOf | housingproject.web/src/components/ReportViewer.tsx:353-410 | rejected + approved + pending ≤ total, both rates 0 for no records and within 0..100, and exactly min(6, n) months where n is the number of months among the records in range |
| ReportViewer.MonthlyNewestFirst | housingproject.web/src/components/ReportViewer.tsx:386-397 | over records that come newest first by month, the months are entered newest first, the last one being the last record's month |
| ReportViewer.AddFormNewestFirst | housingproject.web/src/components/ReportViewer.tsx:387-396 | a record no later than the last month entered keeps the months newest first and its month ends up last |
| ReportViewer.NewMonthIsOldest | housingproject.web/src/components/ReportViewer.tsx:389-391 | a month earlier than every month entered is not found, so it gets a new entry at the end |
| ReportViewer.LastSixDropsNewest | housingproject.web/src/components/ReportViewer.tsx:408 | as written, with more than six months of newest-first records the newest month is not kept, and every kept month is older than it |
| ReportViewer.RecentSix | housingproject.web/src/components/ReportViewer.tsx:408 | exactly min(6, n) entries of the n, taken from the front: all of them when there are six or fewer |
| ReportViewer.RecentSixAreLatest | housingproject.web/src/components/ReportViewer.tsx:408 | over newest-first records six months are kept (all when there are fewer) and every month left out is older than every month kept |
| ReportViewer.AnalyticsMonthlyCorrect | housingproject.web/src/components/ReportViewer.tsx:387-409 | the months shown are the last min(6, n) of the n month tallies, each a correct tally of the records in range |
| ReportViewer.ReportTitle | housingproject.web/src/components/ReportViewer.tsx:194-201 | "Report" iff the report type is none of the three known |
| ReportViewer.ReportViewerPage.constructor | housingproject.web/src/components/ReportViewer.tsx:78-84 | no records, 25 rows per page, no filters |
| ReportViewer.ReportViewerPage.ApplyFilters | housingproject.web/src/components/ReportViewer.tsx:137-170 | the three stages leave the filtered records, and the page goes back to 0 |
| ReportViewer.ReportViewerPage.Load | housingproject.web/src/components/ReportViewer.tsx:111-134 | the records and their filtering, or the error |
| ReportViewer.ReportViewerPage.SetSearchTerm | housingproject.web/src/components/ReportViewer.tsx:137-170 | the new term refilters and resets the page |
| ReportViewer.ReportViewerPage.SetStatusFilter | housingproject.web/src/components/ReportViewer.tsx:137-170 | the new status filter refilters and resets the page |
| ReportViewer.ReportViewerPage.SetSpecialistFilter | housingproject.web/src/components/ReportViewer.tsx:137-170 | the new specialist filter refilters and resets the page |
| ReportViewer.ReportViewerPage.ChangePage | housingproject.web/src/components/ReportViewer.tsx:336-338 | only the page changes |
| ReportViewer.ReportViewerPage.ChangeRowsPerPage | housingproject.web/src/components/ReportViewer.tsx:340-343 | the new size, back to page 0 |
| ReportViewer.ReportViewerPage.VisibleRows | housingproject.web/src/components/ReportViewer.tsx:1087-1089 | the current page of the filtered records: none when it starts past the end, otherwise min(rpp, remaining) rows, position i being filtered row page·rpp + i |
| ReportViewer.ReportViewerPage.GetAnalyticsData | housingproject.web/src/components/ReportViewer.tsx:353-410 | the analytics of the records in range |
| ReportViewer.MonthlyTrend | housingproject.web/src/components/ReportViewer.tsx:387-398 | the loop computes the reduce over the records in order |
| ReportViewer.CountRecord | housingproject.web/src/components/ReportViewer.tsx:388-397 | one call of the reduce's callback |
| Reports.Listed | housingproject.web/src/components/Reports.tsx:143-149 | every report of a category, carrying the category's name and colour |
| Reports.FlatMapIff | housingproject.web/src/components/Reports.tsx:143-149 | a report is listed iff it belongs to one of the categories, with that category's name and colour |
| Reports.FilteredReports | housingproject.web/src/components/Reports.tsx:141-154 | a report is listed iff its category passes the category filter and it passes the status filter, carrying its category's name and colour |
| Reports.AllCategories | housingproject.web/src/components/Reports.tsx:103-149 | "all" lists the whole catalogue |
| Reports.RecentIsSummaryOnly | housingproject.web/src/components/Reports.tsx:150-154 | "recent" keeps only the summary, the one report run hours ago |
| Reports.ScheduledIsAll | housingproject.web/src/components/Reports.tsx:150-154 | "scheduled" keeps all three reports |
| Reports.OtherCategoryIsEmpty | housingproject.web/src/components/Reports.tsx:141-142 | a category other than "all" and "forms" lists nothing |
| Reports.ReportTitle | housingproject.web/src/components/Reports.tsx:248-255 | "Report" iff the id is none of the three known |
| Reports.TitlesAgree | housingproject.web/src/components/Reports.tsx:248-255 | the titles match the catalogue; the viewer's title adds " Report" except for the approval report |
| Reports.DownloadReport | housingproject.web/src/components/Reports.tsx:163-215 | the file of every record with the download's labels, or the alert when the fetch fails |
| Reports.DownloadIgnoresReport | housingproject.web/src/components/Reports.tsx:163-215 | the report id plays no part in the download |
| Reports.ViewerDownloadMatches | housingproject.web/src/components/Reports.tsx:186-199 | on numeric statuses the viewer's unfiltered download is byte for byte this one |
| Auth.Login | HousingProject.API/Controllers/AuthController.cs:44-91 | success only with a found account, reported as authenticated under its account name |
| Auth.EmptyFieldSkipsDirectory | HousingProject.API/Controllers/AuthController.cs:54-57 | 400 iff a field is null or empty, whatever the directory would say |
| Auth.LoginOkIff | HousingProject.API/Controllers/AuthController.cs:59-84 | success iff both fields, accepted credentials and a found account; 401 iff refused credentials or no account |
| Auth.DirectoryExceptionIs500 | HousingProject.API/Controllers/AuthController.cs:87-90 | an exception from the directory is a 500 |
| Auth.NameParts | HousingProject.API/Controllers/AuthController.cs:105-106 | the display name is the part after the last '\', the domain the part before the first |
| Auth.NameWithoutDomain | HousingProject.API/Controllers/AuthController.cs:105-106 | a name without '\' gives itself as both |
| Auth.DomainAndUser | HousingProject.API/Controllers/AuthController.cs:105-106 | `DOMAIN\user` splits back into DOMAIN and user |
| Auth.GetCurrentUser | HousingProject.API/Controllers/AuthController.cs:93-113 | the caller's name and its parts iff authenticated, otherwise 401 |
| Strings.Utf16Length | housingproject.web/src/components/Login.tsx:55-61 | a JavaScript or .NET string length (UTF-16 code units) lies between the character count and twice it |
| Login.PasswordMessage | housingproject.web/src/components/Login.tsx:55-61 | exactly one password message: required when empty, too short under 6, none otherwise |
| Login.UsernameMessage | housingproject.web/src/components/Login.tsx:50-53 | "Username is required" iff the username is empty |
| Login.ThreeAstralCharactersAreEnough | housingproject.web/src/components/Login.tsx:55-61 | three characters outside the BMP count as six |
| Login.LoginForm.constructor | housingproject.web/src/components/Login.tsx:31-35 | empty fields, hidden password, no errors |
| Login.LoginForm.ChangeUsername | housingproject.web/src/components/Login.tsx:37-40 | the new username with its error cleared; the password's error stays |
| Login.LoginForm.ChangePassword | housingproject.web/src/components/Login.tsx:42-45 | the new password with its error cleared; the username's error stays |
| Login.LoginForm.TogglePasswordVisibility | housingproject.web/src/components/Login.tsx:73-75 | only the visibility flips |
| Login.LoginForm.ValidateForm | housingproject.web/src/components/Login.tsx:47-64 | valid iff a username and a password of at least 6; each field gets its message |
| Login.LoginForm.HandleSubmit | housingproject.web/src/components/Login.tsx:66-71 | `onLogin` with the two fields iff the form is valid |
| Login.WindowsSignIn | housingproject.web/src/components/Login.tsx:77-99 | `onLogin` iff the API reports a user, with that username and the fixed password |
| Login.WindowsSignInKeepsDomain | housingproject.web/src/components/Login.tsx:77-99 | the Windows sign-in passes the whole `DOMAIN\user` name on |
| Scenarios.EditAsWritten | housingproject.web/src/components/MCRForm.tsx:230-269 | the page's edit, as written, sends nothing when a date is invalid and otherwise always gets 400; either way the store is unchanged |
| Scenarios.CorrectedEditBody | housingproject.web/src/components/MCRForm.tsx:230-260 | the edit body built from the slots with the record's Id and FormId added |
| Scenarios.BindEditBody | HousingProject.API/Controllers/MCRController.cs:222-224 | that body binds to its keys and the same required fields |
| Scenarios.EditCorrected | HousingProject.API/Controllers/MCRController.cs:221-259 | with the keys sent, a valid edit of a record whose id fits an Int32 is saved in place and its envelope takes the new update stamp; only a failed save is a 500; an id beyond Int32 is a 400 with no change |
| Scenarios.OwnEnvelopeAllowed | HousingProject.API/Data/ApplicationDbContext.cs:45-47 | a stored record may keep its own envelope |
| Scenarios.RejectFromList | housingproject.web/src/components/FormsList.tsx:271-339 | the list's Reject reaches the API as Rejected: on a saved update the record is Rejected and stamped and its envelope takes the name Rejected and the second stamp; a failed save is a 500, a missing record a 404 and an id beyond Int32 a 400, each with both tables unchanged |
| Scenarios.ApproveFromList | housingproject.web/src/components/FormsList.tsx:556 | the list's Approve reaches the API as Approved: on a saved update the record is Approved and stamped and its envelope takes the name Approved and the second stamp; a failed save is a 500, a missing record a 404 and an id beyond Int32 a 400, each with both tables unchanged |
| Scenarios.StatusBeyondInt32 | HousingProject.API/Models/StatusUpdateRequest.cs:9-10 | a status update whose number is beyond Int32 is a 400 and changes nothing, whatever the id |

## Left out

- Dashboard.IsThisWeek: `weekAgo.setDate(weekAgo.getDate() - 7)` moves back seven days on the local calendar; the model takes that as exactly 7 × 24 hours, so across a daylight-saving change its boundary is off by an hour.
- Model binding's own `[Required]` checks on the `LoginRequest` strings are not modelled. Null and empty fields reach the action's own check.
- I/O: HTTP, `fetch`, local storage, mail transport, database connections and the directory are left out. Their outcomes are parameters.
- The HTML body of the status-change mail (MCRController.cs:159-200) is not modelled. The notice carries only its subject data.
- Response headers and logging are left out.
- The `DbUpdateConcurrencyException` path of UpdateMCRForm is left out. Without concurrency it cannot arise.
- DeleteMCRForm has no try/catch. A failing save is modelled as a 500.
- Floating point: amounts are exact decimals and cents.
  - The analytics' rates are reals, rounded by `RoundTenth`.
  - Binary rounding quirks of `toFixed` and `parseFloat` are not modelled.
- Locale: `toLocaleDateString` is a `dateText` parameter, and the month label of the analytics is a (year, month) key.
- `Intl.NumberFormat`, `formatDate` and `formatCurrency` are left out, because they are display only.
- The 'N/A' fallbacks of the viewer's table cells are left out, because they are display only.
- ReportViewer.UniqueSpecialists: strings are ordered by code point. JavaScript's `sort` compares UTF-16 code units; the two orders differ only beyond the Basic Multilingual Plane.
- `parseInt` of the rows-per-page menu is left out. The size arrives as a number.
- The mock rejection reasons (ReportViewer.tsx:377-384) are left out: `Math.random`-style sample data.
- The viewer's rejection-analysis download (ReportViewer.tsx:252-334) is left out: it is built from those mock reasons.
- `getReportDescription` (ReportViewer.tsx:203-210) is left out: a constant text table.
- The viewer's sample notifications (ReportViewer.tsx:100-108) are left out.
- The download file names, Blob and link plumbing are left out.
- Reports' run and schedule handlers (Reports.tsx:156-160, 218-246) are left out: navigation and dialog state with no data behind them.
- The dashboard's loading flags and the drawer and menu toggles are left out.
- The SVG charts are left out.
- Clock: "now" is a parameter. The date-range bounds are computed by the browser and given as instants.
- Concurrency and re-render timing are left out. Each effect is a method called when its inputs change.
- Case mapping is modelled for ASCII letters only; other characters map to themselves. JavaScript's `toUpperCase`/`toLowerCase` and .NET's `ToLower` also map other letters, and some change the length ('ß' upper-cases to "SS").
- Usernames.FormatUsernameToName: its "one character per username character" holds of the model's ASCII case mapping. With a letter such as 'ß', JavaScript's `toUpperCase` gives two characters, so the length is not kept.
- FormsList.FilteredForms: the search is case-insensitive for ASCII letters only. "peña" and "PEÑA" do not match in the model, but they do in the browser.
- ReportViewer.Filtered: the same ASCII-only case mapping as FormsList.FilteredForms, in the search and the specialist filter.
- Dashboard.UserForms: `EqualsIgnoreCase` ignores case for ASCII letters only. .NET's and JavaScript's comparisons also fold other letters.
- FormsList.IsUserAuthorized: the allow-list match lower-cases ASCII letters only. In the browser the one non-ASCII character that lower-cases to a single ASCII letter is the Kelvin sign (to 'k'), and no listed id contains a 'k'. So the missing mappings can only turn a name into text that is not ASCII, which no listed id matches.
- FormStatus.BindStatusString: white space around a name or number and comma-separated lists of names (flag combinations) are not modelled. For these, System.Text.Json's enum converter may bind where the model answers None. Exact-case matching before case-insensitive matching is not modelled separately, because both give the same code.
- ReportViewer.RecentSixAreLatest: it assumes the records come newest first by month. The API orders them by their CreatedAt instant, and the browser's calendar is taken to keep that order; the model does not relate instants to local months.
- Money.ParseAmount: the word `Infinity` and exponents beyond the range of a double are not modelled. There `parseFloat` gives Infinity, 0 or a rounded double; the model keeps the exact decimal.
- Proration.ProratedCents: because of Money.ParseAmount, an amount like "1e400" is prorated exactly. The browser would get Infinity, and `toFixed` would print "Infinity".
- FormPage.PayloadOf: the same gap in the body's HAP amount, which is `parseFloat(hapAmount) || 0`.
- FormStatus.BindStatus: a JSON number with a fraction or an exponent (1.5, 1e2) fails `TryGetInt32` and is a 400. The model's status body holds only integers, so it does not capture this.
- FormStore.Store.Get: the route id is taken as an integer. A route segment that is not a number at all ("abc") is also a 400 from model binding; that is not modelled. The same holds for UpdateStatus, UpdateFields and Delete.
- FormStore.Store.Submit: the body is taken as already bound. A body whose values do not fit their C# types (an Id or FormId beyond Int32, a date outside DateTime's range, an amount beyond decimal's) is a 400 before the action runs; that is not modelled.
- FormStore.Store.UpdateFields: the same gap as Submit for the body's values; only the route id's Int32 range is modelled.
- Wire.ToApiForm: the model takes the decimal(18,2) conversion to round half away from zero, as Cents does. The SQL client's actual rounding mode is not modelled, and the 201 body of a submission carries the amounts as sent.
- FormPage.McrFormPage.HandleSubmit: "RangeError: Invalid time value" is V8's text for the exception; other engines word it differently.
- FormPage.JsonCents: the prorated field's display text (`toFixed(2)`, which shows "NaN" for an Invalid Date, MCRForm.tsx:838) is not modelled.

## Findings

| source | as written | input that shows it | evidently intended | confidence | as-written member | corrected member |
|---|---|---|---|---|---|---|
| housingproject.web/src/components/FormsList.tsx:631-636 | the In Review counter compares the label with "in review" | a list holding one record with status code 3, labelled "InReview" | count labels that lower-case to "inreview" | not executed | FormsList.InReviewCounterAlwaysZero | FormsList.CountersWithinTotal |
| housingproject.web/src/components/MCRForm.tsx:230-269 | the edit body has no `Id`, while the API compares the route id with the body's (MCRController.cs:224-227) | editing the stored record with id 1 | send the record's Id and FormId with the fields | not executed | Scenarios.EditAsWritten | Scenarios.EditCorrected |
| housingproject.web/src/components/FormsList.tsx:651-657 | the details dialog's Approve/Reject call `updateFormStatus` with no allow-list check and no reason | a user not on the allow-list opening a Pending form's details | the same allow-list as the row's buttons | not executed | FormDetails.DetailsBypassAllowList | FormsList.FormsListPage.DecideFromDetailsCorrected |
| housingproject.web/src/components/Dashboard.tsx:276-300 | the old-pending and this-week notices read `form.createdAt`, which the transformed rows lack | one row of a Pending record created eight days ago | read the record's own CreatedAt | not executed | Dashboard.OnlyRejectedNoticeAsWritten | Dashboard.OldPendingWithCreatedAt |
| housingproject.web/src/components/ReportViewer.tsx:408 | the trend keeps `Object.entries(monthlyData).slice(-6)`, the last six months entered, while the API lists records newest first (MCRController.cs:112), so the months are entered newest first | records in seven different months, newest first | the six most recent months | not executed | ReportViewer.LastSixDropsNewest | ReportViewer.RecentSixAreLatest |
