/** The report viewer: the records of GET /api/MCR behind a search box, a status filter
    and a specialist filter, shown a page at a time; the specialist choices; the
    rejection analytics with its monthly trend; and the CSV download of the filtered
    list. */
module ReportViewer {
  import opened Strings
  import opened Calendar
  import opened Wire
  import opened Lists
  import opened StringOrder
  import opened Csv

  // ---------------------------------------------------------------------------
  // The three filter stages

  /** The lower-cased term occurs in the lower-cased tenant name, first address line,
      city or specialist name. */
  predicate MatchesSearch(a: ApiForm, term: string) {
    var t := ToLower(term);
    Includes(ToLower(a.tenantName), t) || Includes(ToLower(a.addressLine1), t)
    || Includes(ToLower(a.city), t) || Includes(ToLower(a.housingSpecialistName), t)
  }

  /** The search stage runs only for a non-empty term. */
  predicate PassesSearch(a: ApiForm, term: string) {
    term == [] || MatchesSearch(a, term)
  }

  /** "all" skips the stage; "pending", "approved" and "rejected" need the status number
      0, 1 or 2 exactly; any other value keeps the record. */
  predicate PassesStatus(a: ApiForm, statusFilter: string) {
    if statusFilter == "pending" then a.status == StatusCode(0)
    else if statusFilter == "approved" then a.status == StatusCode(1)
    else if statusFilter == "rejected" then a.status == StatusCode(2)
    else true
  }

  /** "all" skips the stage; any other value must equal the specialist name exactly. */
  predicate PassesSpecialist(a: ApiForm, specialistFilter: string) {
    specialistFilter == "all" || a.housingSpecialistName == specialistFilter
  }

  function SearchFn(term: string): ApiForm -> bool {
    (a: ApiForm) => PassesSearch(a, term)
  }

  function StatusFn(statusFilter: string): ApiForm -> bool {
    (a: ApiForm) => PassesStatus(a, statusFilter)
  }

  function SpecialistFn(specialistFilter: string): ApiForm -> bool {
    (a: ApiForm) => PassesSpecialist(a, specialistFilter)
  }

  function SearchAndStatusFn(term: string, statusFilter: string): ApiForm -> bool {
    (a: ApiForm) => PassesSearch(a, term) && PassesStatus(a, statusFilter)
  }

  function KeepsFn(term: string, statusFilter: string, specialistFilter: string): ApiForm -> bool {
    (a: ApiForm) => PassesSearch(a, term) && PassesStatus(a, statusFilter) && PassesSpecialist(a, specialistFilter)
  }

  /** What the filter effect leaves in filteredForms: the records that pass all three
      stages, in list order. */
  function Filtered(forms: seq<ApiForm>, term: string, statusFilter: string, specialistFilter: string): (r: seq<ApiForm>)
    ensures |r| <= |forms|
    ensures forall a :: a in r <==>
      (a in forms && PassesSearch(a, term) && PassesStatus(a, statusFilter) && PassesSpecialist(a, specialistFilter))
  {
    Filter(forms, KeepsFn(term, statusFilter, specialistFilter))
  }

  /** The status filter agrees with the chip the table shows: on a numeric status,
      "pending", "approved" and "rejected" keep exactly the records whose chip reads that
      word; code 3 (InReview) shows "Unknown" and passes none of them. */
  lemma StatusFilterMatchesChip(a: ApiForm, f: string)
    requires a.status.StatusCode?
    requires f == "pending" || f == "approved" || f == "rejected"
    ensures PassesStatus(a, f) <==> ToLower(ChipLabel(a.status)) == f
  {
    assert ToLower("Pending") == "pending";
    assert ToLower("Approved") == "approved";
    assert ToLower("Rejected") == "rejected";
    assert ToLower("Unknown") == "unknown";
  }

  /** The search ignores the case of the term. */
  lemma SearchIgnoresCase(a: ApiForm, t1: string, t2: string)
    requires EqualsIgnoreCase(t1, t2) && t1 != [] && t2 != []
    ensures PassesSearch(a, t1) <==> PassesSearch(a, t2)
  {
  }

  // ---------------------------------------------------------------------------
  // Pagination

  function Min(a: int, b: int): int {
    if a <= b then a else b
  }

  /** `rows.slice(page * rowsPerPage, page * rowsPerPage + rowsPerPage)`. */
  function PageOf<T>(rows: seq<T>, page: nat, rowsPerPage: nat): (r: seq<T>)
    ensures |r| <= rowsPerPage
    ensures |r| == if |rows| <= page * rowsPerPage then 0 else Min(rowsPerPage, |rows| - page * rowsPerPage)
    ensures forall i :: 0 <= i < |r| ==> r[i] == rows[page * rowsPerPage + i]
  {
    rows[Min(page * rowsPerPage, |rows|)..Min(page * rowsPerPage + rowsPerPage, |rows|)]
  }

  /** Row i of the list is on page i / rowsPerPage, at position i % rowsPerPage. */
  lemma RowOnItsPage<T>(rows: seq<T>, rowsPerPage: nat, i: nat)
    requires rowsPerPage > 0 && i < |rows|
    ensures var p := PageOf(rows, i / rowsPerPage, rowsPerPage);
      i % rowsPerPage < |p| && p[i % rowsPerPage] == rows[i]
  {
    var q := i / rowsPerPage;
    assert q * rowsPerPage + i % rowsPerPage == i;
    assert q * rowsPerPage <= i;
  }

  /** The first n pages, one after the other. */
  function Pages<T>(rows: seq<T>, rowsPerPage: nat, n: nat): seq<T> {
    if n == 0 then [] else Pages(rows, rowsPerPage, n - 1) + PageOf(rows, n - 1, rowsPerPage)
  }

  /** The first n pages are the list up to row n * rowsPerPage, without gaps or repeats. */
  lemma {:induction false} PagesArePrefix<T>(rows: seq<T>, rowsPerPage: nat, n: nat)
    ensures Pages(rows, rowsPerPage, n) == rows[..Min(n * rowsPerPage, |rows|)]
  {
    if n > 0 {
      PagesArePrefix(rows, rowsPerPage, n - 1);
      var a := Min((n - 1) * rowsPerPage, |rows|);
      var b := Min(n * rowsPerPage, |rows|);
      assert (n - 1) * rowsPerPage + rowsPerPage == n * rowsPerPage;
      assert a <= b;
      assert rows[..a] + rows[a..b] == rows[..b];
    }
  }

  /** Enough pages to cover the list. */
  function PageCount(count: nat, rowsPerPage: nat): nat
    requires rowsPerPage > 0
  {
    (count + rowsPerPage - 1) / rowsPerPage
  }

  /** The pages partition the list: together, in order, they are exactly the list. */
  lemma PagesPartition<T>(rows: seq<T>, rowsPerPage: nat)
    requires rowsPerPage > 0
    ensures Pages(rows, rowsPerPage, PageCount(|rows|, rowsPerPage)) == rows
  {
    var n := PageCount(|rows|, rowsPerPage);
    PagesArePrefix(rows, rowsPerPage, n);
    PageCountCovers(|rows|, rowsPerPage);
  }

  lemma PageCountCovers(count: nat, rowsPerPage: nat)
    requires rowsPerPage > 0
    ensures PageCount(count, rowsPerPage) * rowsPerPage >= count
  {
    var c := count + rowsPerPage - 1;
    var n := c / rowsPerPage;
    assert n * rowsPerPage + c % rowsPerPage == c;
    assert c % rowsPerPage < rowsPerPage;
  }

  // ---------------------------------------------------------------------------
  // getUniqueSpecialists

  function SpecialistNames(forms: seq<ApiForm>): (r: seq<string>)
    ensures |r| == |forms|
  {
    seq(|forms|, i requires 0 <= i < |forms| => forms[i].housingSpecialistName)
  }

  /** Array.prototype.indexOf: the first position of x, or -1. */
  function IndexOf(s: seq<string>, x: string): (i: int)
    ensures -1 <= i < |s|
    ensures i >= 0 ==> s[i] == x && forall j :: 0 <= j < i ==> s[j] != x
    ensures i < 0 <==> x !in s
  {
    if s == [] then -1
    else if s[0] == x then 0
    else
      var k := IndexOf(s[1..], x);
      if k < 0 then -1 else k + 1
  }

  /** `filter((name, index, self) => name && self.indexOf(name) === index)` from
      position i on: each non-empty name at its first position. */
  function FirstOccurrences(s: seq<string>, i: nat): (r: seq<string>)
    requires i <= |s|
    ensures forall x :: x in r ==> x != [] && exists j :: i <= j < |s| && s[j] == x && IndexOf(s, x) == j
    ensures Distinct(r)
    decreases |s| - i
  {
    if i == |s| then []
    else
      var rest := FirstOccurrences(s, i + 1);
      if s[i] != [] && IndexOf(s, s[i]) == i then
        assert s[i] !in rest;
        [s[i]] + rest
      else rest
  }

  /** Every non-empty name from position i on whose first position is at least i is
      kept. */
  lemma {:induction false} FirstOccurrencesComplete(s: seq<string>, i: nat, x: string)
    requires i <= |s| && x != [] && x in s && IndexOf(s, x) >= i
    ensures x in FirstOccurrences(s, i)
    decreases |s| - i
  {
    if IndexOf(s, x) != i {
      FirstOccurrencesComplete(s, i + 1, x);
    }
  }

  /** The specialist choices: exactly the non-empty names some record carries, each
      once, in ascending order. */
  function UniqueSpecialists(forms: seq<ApiForm>): (r: seq<string>)
    ensures Sorted(r) && Distinct(r)
    ensures forall x :: x in r <==> (x != [] && exists i :: 0 <= i < |forms| && forms[i].housingSpecialistName == x)
  {
    SortedFirstOccurrences(forms);
    Sort(FirstOccurrences(SpecialistNames(forms), 0))
  }

  lemma SortedFirstOccurrences(forms: seq<ApiForm>)
    ensures var r := Sort(FirstOccurrences(SpecialistNames(forms), 0));
      Sorted(r) && Distinct(r)
      && forall x :: x in r <==> (x != [] && exists i :: 0 <= i < |forms| && forms[i].housingSpecialistName == x)
  {
    var names := SpecialistNames(forms);
    var kept := FirstOccurrences(names, 0);
    var r := Sort(kept);
    DistinctSorted(kept);
    forall x ensures x in r <==> (x != [] && exists i :: 0 <= i < |forms| && forms[i].housingSpecialistName == x)
    {
      assert x in r <==> x in multiset(r);
      assert x in kept <==> x in multiset(kept);
      if x in kept {
        var j :| 0 <= j < |names| && names[j] == x && IndexOf(names, x) == j;
        assert forms[j].housingSpecialistName == x;
      }
      if x != [] && exists i :: 0 <= i < |forms| && forms[i].housingSpecialistName == x {
        var i :| 0 <= i < |forms| && forms[i].housingSpecialistName == x;
        assert names[i] == x;
        FirstOccurrencesComplete(names, 0, x);
      }
    }
  }

  // ---------------------------------------------------------------------------
  // getAnalyticsData

  /** The bounds `new Date(...)` makes of the date-range inputs; an empty input gives
      no bound. */
  datatype DateRange = DateRange(start: Option<Instant>, end: Option<Instant>)

  predicate InRange(a: ApiForm, range: DateRange) {
    (range.start.None? || a.createdAt.instant >= range.start.value)
    && (range.end.None? || a.createdAt.instant <= range.end.value)
  }

  function InRangeFn(range: DateRange): ApiForm -> bool {
    (a: ApiForm) => InRange(a, range)
  }

  /** The records the analytics look at: all of them without bounds, otherwise those
      created within the bounds. */
  function RangeForms(forms: seq<ApiForm>, range: DateRange): (r: seq<ApiForm>)
    ensures forall a :: a in r <==> a in forms && InRange(a, range)
  {
    if range.start.None? && range.end.None? then forms else Filter(forms, InRangeFn(range))
  }

  function CodeIs(n: int): ApiForm -> bool {
    (a: ApiForm) => a.status == StatusCode(n)
  }

  /** `count / total * 100`, and 0 for an empty list. */
  function Rate(count: nat, total: nat): (r: real)
    requires count <= total
    ensures 0.0 <= r <= 100.0
    ensures total == 0 ==> r == 0.0
    ensures total > 0 ==> r * (total as real) == (count as real) * 100.0
  {
    if total > 0 then (count as real / total as real) * 100.0 else 0.0
  }

  /** `Math.round(x * 10) / 10`. */
  function RoundTenth(x: real): (r: real)
    ensures x - 0.05 < r <= x + 0.05
    ensures 0.0 <= x <= 100.0 ==> 0.0 <= r <= 100.0
  {
    ((x * 10.0 + 0.5).Floor as real) / 10.0
  }

  /** The month a record was created in, by the browser's calendar; it stands for the
      en-US "short month, numeric year" label, which names each month once. */
  datatype MonthKey = MonthKey(year: int, month: int)

  datatype MonthTally = MonthTally(key: MonthKey, approved: nat, rejected: nat, pending: nat)

  function MonthOf(a: ApiForm): MonthKey {
    MonthKey(a.createdAt.local.year, a.createdAt.local.month)
  }

  /** The position of a month among the tallies, or -1. */
  function KeyIndex(acc: seq<MonthTally>, k: MonthKey): (j: int)
    ensures -1 <= j < |acc|
    ensures j >= 0 ==> acc[j].key == k
    ensures j < 0 ==> forall i :: 0 <= i < |acc| ==> acc[i].key != k
  {
    if acc == [] then -1
    else if acc[|acc| - 1].key == k then |acc| - 1
    else KeyIndex(acc[..|acc| - 1], k)
  }

  /** The counter a status moves: 0 pending, 1 approved, 2 rejected, anything else none. */
  function Bump(t: MonthTally, status: WireStatus): MonthTally {
    if status == StatusCode(0) then t.(pending := t.pending + 1)
    else if status == StatusCode(1) then t.(approved := t.approved + 1)
    else if status == StatusCode(2) then t.(rejected := t.rejected + 1)
    else t
  }

  /** One step of the reduce: the month's entry is made on its first record, then the
      record's status is counted in it. */
  function AddForm(acc: seq<MonthTally>, a: ApiForm): (r: seq<MonthTally>)
    ensures |r| == |acc| || |r| == |acc| + 1
    ensures r != []
  {
    var j := KeyIndex(acc, MonthOf(a));
    if j < 0 then acc + [Bump(MonthTally(MonthOf(a), 0, 0, 0), a.status)]
    else acc[j := Bump(acc[j], a.status)]
  }

  /** The accumulator after the records of s, in order: at most one entry per record,
      and at least one when there is a record. */
  function MonthlyOf(s: seq<ApiForm>): (r: seq<MonthTally>)
    ensures |r| <= |s|
    ensures s != [] <==> r != []
  {
    if s == [] then [] else AddForm(MonthlyOf(s[..|s| - 1]), s[|s| - 1])
  }

  function InMonthWith(k: MonthKey, code: int): ApiForm -> bool {
    (a: ApiForm) => MonthOf(a) == k && a.status == StatusCode(code)
  }

  /** The tally a month should have: how many of its records carry each status. */
  function TallyOf(s: seq<ApiForm>, k: MonthKey): MonthTally {
    MonthTally(k, Count(s, InMonthWith(k, 1)), Count(s, InMonthWith(k, 2)), Count(s, InMonthWith(k, 0)))
  }

  /** Some entry of the accumulator is for month k. */
  ghost predicate HasEntry(r: seq<MonthTally>, k: MonthKey) {
    exists j :: 0 <= j < |r| && r[j].key == k
  }

  /** Some record of s was created in month k. */
  ghost predicate HasRecordIn(s: seq<ApiForm>, k: MonthKey) {
    exists i :: 0 <= i < |s| && MonthOf(s[i]) == k
  }

  ghost predicate MonthlyCorrect(s: seq<ApiForm>, r: seq<MonthTally>) {
    (forall i, j :: 0 <= i < j < |r| ==> r[i].key != r[j].key)
    && (forall k :: HasEntry(r, k) <==> HasRecordIn(s, k))
    && (forall j :: 0 <= j < |r| ==> r[j] == TallyOf(s, r[j].key))
  }

  lemma TallyStep(p: seq<ApiForm>, x: ApiForm, t: MonthTally)
    requires t == TallyOf(p, t.key)
    ensures TallyOf(p + [x], t.key) == (if MonthOf(x) == t.key then Bump(t, x.status) else t)
  {
    CountSnoc(p, x, InMonthWith(t.key, 0));
    CountSnoc(p, x, InMonthWith(t.key, 1));
    CountSnoc(p, x, InMonthWith(t.key, 2));
  }

  lemma NoRecordNoCount(p: seq<ApiForm>, k: MonthKey, c: int)
    requires !HasRecordIn(p, k)
    ensures Count(p, InMonthWith(k, c)) == 0
  {
    forall a | a in p ensures !InMonthWith(k, c)(a) {
      var i :| 0 <= i < |p| && p[i] == a;
    }
    CountNone(p, InMonthWith(k, c));
  }

  lemma NewMonthStep(p: seq<ApiForm>, x: ApiForm)
    requires !HasRecordIn(p, MonthOf(x))
    ensures TallyOf(p + [x], MonthOf(x)) == Bump(MonthTally(MonthOf(x), 0, 0, 0), x.status)
  {
    var k := MonthOf(x);
    NoRecordNoCount(p, k, 0);
    NoRecordNoCount(p, k, 1);
    NoRecordNoCount(p, k, 2);
    TallyStep(p, x, MonthTally(k, 0, 0, 0));
  }

  /** One step of the reduce keeps the accumulator correct. */
  lemma AddFormCorrect(p: seq<ApiForm>, acc: seq<MonthTally>, x: ApiForm)
    requires MonthlyCorrect(p, acc)
    ensures MonthlyCorrect(p + [x], AddForm(acc, x))
  {
    var r := AddForm(acc, x);
    DistinctStep(acc, x);
    TalliesStep(p, acc, x);
    forall k ensures HasEntry(r, k) <==> HasRecordIn(p + [x], k) {
      KeysStep(p, acc, x, k);
    }
  }

  lemma DistinctStep(acc: seq<MonthTally>, x: ApiForm)
    requires forall i, j :: 0 <= i < j < |acc| ==> acc[i].key != acc[j].key
    ensures var r := AddForm(acc, x); forall i, j :: 0 <= i < j < |r| ==> r[i].key != r[j].key
  {
  }

  lemma TalliesStep(p: seq<ApiForm>, acc: seq<MonthTally>, x: ApiForm)
    requires forall k :: HasEntry(acc, k) <==> HasRecordIn(p, k)
    requires forall j :: 0 <= j < |acc| ==> acc[j] == TallyOf(p, acc[j].key)
    requires forall i, j :: 0 <= i < j < |acc| ==> acc[i].key != acc[j].key
    ensures var r := AddForm(acc, x); forall j :: 0 <= j < |r| ==> r[j] == TallyOf(p + [x], r[j].key)
  {
    var r := AddForm(acc, x);
    var j := KeyIndex(acc, MonthOf(x));
    forall m | 0 <= m < |acc| ensures r[m] == TallyOf(p + [x], r[m].key) {
      TallyStep(p, x, acc[m]);
    }
    if j < 0 {
      assert !HasEntry(acc, MonthOf(x));
      NewMonthStep(p, x);
    }
  }

  lemma KeysStep(p: seq<ApiForm>, acc: seq<MonthTally>, x: ApiForm, k: MonthKey)
    requires forall k :: HasEntry(acc, k) <==> HasRecordIn(p, k)
    ensures HasEntry(AddForm(acc, x), k) <==> HasRecordIn(p + [x], k)
  {
    var s := p + [x];
    var r := AddForm(acc, x);
    var j := KeyIndex(acc, MonthOf(x));
    if HasRecordIn(s, k) {
      var i :| 0 <= i < |s| && MonthOf(s[i]) == k;
      if i < |p| {
        assert MonthOf(p[i]) == k;
        assert HasEntry(acc, k);
        var m :| 0 <= m < |acc| && acc[m].key == k;
        assert r[m].key == k;
      } else if j < 0 {
        assert r[|acc|].key == k;
      } else {
        assert r[j].key == k;
      }
    }
    if HasEntry(r, k) {
      var m :| 0 <= m < |r| && r[m].key == k;
      if m < |acc| && acc[m].key == k {
        assert HasEntry(acc, k);
        var i :| 0 <= i < |p| && MonthOf(p[i]) == k;
        assert s[i] == p[i];
      } else {
        assert MonthOf(s[|s| - 1]) == k;
      }
    }
  }

  /** The monthly trend holds one entry per month that has a record, and each entry
      counts that month's pending, approved and rejected records. */
  lemma {:induction false} MonthlyOfCorrect(s: seq<ApiForm>)
    ensures MonthlyCorrect(s, MonthlyOf(s))
  {
    if s != [] {
      var p := s[..|s| - 1];
      assert s == p + [s[|s| - 1]];
      MonthlyOfCorrect(p);
      AddFormCorrect(p, MonthlyOf(p), s[|s| - 1]);
    }
  }

  lemma MonthlyOfSnoc(p: seq<ApiForm>, x: ApiForm)
    ensures MonthlyOf(p + [x]) == AddForm(MonthlyOf(p), x)
  {
    assert (p + [x])[..|p|] == p;
  }

  /** `Object.entries(monthlyData).slice(-6)`: the last six months entered. */
  function LastSix(entries: seq<MonthTally>): (r: seq<MonthTally>)
    ensures |r| == if |entries| <= 6 then |entries| else 6
    ensures |entries| <= 6 ==> r == entries
    ensures entries == entries[..|entries| - |r|] + r
  {
    if |entries| <= 6 then entries else entries[|entries| - 6..]
  }

  // ---------------------------------------------------------------------------
  // Which six months the trend keeps

  /** Month a is earlier than month b. */
  predicate MonthBefore(a: MonthKey, b: MonthKey) {
    a.year < b.year || (a.year == b.year && a.month < b.month)
  }

  /** Records in the API's newest-first order, read by month: no record is of a later
      month than one before it. */
  predicate NewestMonthFirst(s: seq<ApiForm>) {
    forall i, j :: 0 <= i < j < |s| ==> !MonthBefore(MonthOf(s[i]), MonthOf(s[j]))
  }

  /** Tallies whose months strictly decrease. */
  predicate KeysNewestFirst(t: seq<MonthTally>) {
    forall i, j :: 0 <= i < j < |t| ==> MonthBefore(t[j].key, t[i].key)
  }

  /** Over newest-first records the reduce enters the months newest first, the last
      entry being the month of the last record. */
  lemma {:induction false} MonthlyNewestFirst(s: seq<ApiForm>)
    requires NewestMonthFirst(s)
    ensures KeysNewestFirst(MonthlyOf(s))
    ensures s != [] ==> MonthlyOf(s) != [] && MonthlyOf(s)[|MonthlyOf(s)| - 1].key == MonthOf(s[|s| - 1])
  {
    if s != [] {
      var p := s[..|s| - 1];
      var x := s[|s| - 1];
      assert NewestMonthFirst(p) by {
        forall i, j | 0 <= i < j < |p| ensures !MonthBefore(MonthOf(p[i]), MonthOf(p[j])) {
          assert p[i] == s[i] && p[j] == s[j];
        }
      }
      MonthlyNewestFirst(p);
      var acc := MonthlyOf(p);
      assert MonthlyOf(s) == AddForm(acc, x);
      if p != [] {
        assert acc[|acc| - 1].key == MonthOf(s[|p| - 1]);
      }
      AddFormNewestFirst(acc, x);
    }
  }

  /** Entering a record no later than the last month entered keeps the tallies newest
      first, and its month is then the last. */
  lemma AddFormNewestFirst(acc: seq<MonthTally>, x: ApiForm)
    requires KeysNewestFirst(acc)
    requires acc != [] ==> !MonthBefore(acc[|acc| - 1].key, MonthOf(x))
    ensures KeysNewestFirst(AddForm(acc, x))
    ensures AddForm(acc, x) != [] && AddForm(acc, x)[|AddForm(acc, x)| - 1].key == MonthOf(x)
  {
    if acc != [] && MonthOf(x) == acc[|acc| - 1].key {
      assert KeyIndex(acc, MonthOf(x)) == |acc| - 1;
      var r := AddForm(acc, x);
      assert forall i :: 0 <= i < |acc| ==> r[i].key == acc[i].key;
    } else if acc != [] {
      NewMonthIsOldest(acc, MonthOf(x));
    }
  }

  /** A month earlier than the last of newest-first tallies is not among them, and
      entering it keeps them newest first. */
  lemma NewMonthIsOldest(acc: seq<MonthTally>, k: MonthKey)
    requires KeysNewestFirst(acc) && acc != []
    requires MonthBefore(k, acc[|acc| - 1].key)
    ensures KeyIndex(acc, k) < 0
    ensures forall t: MonthTally :: t.key == k ==> KeysNewestFirst(acc + [t])
  {
    forall i | 0 <= i < |acc| ensures MonthBefore(k, acc[i].key) {
      if i < |acc| - 1 {
        assert MonthBefore(acc[|acc| - 1].key, acc[i].key);
      }
    }
  }

  /** As written, over newest-first records with more than six months, the newest
      month is not among the six kept: every kept month is older than it. */
  lemma LastSixDropsNewest(s: seq<ApiForm>)
    requires NewestMonthFirst(s) && |MonthlyOf(s)| > 6
    ensures var all := MonthlyOf(s);
      all[0] !in LastSix(all) && forall t :: t in LastSix(all) ==> MonthBefore(t.key, all[0].key)
  {
    var all := MonthlyOf(s);
    MonthlyNewestFirst(s);
    forall t | t in LastSix(all) ensures MonthBefore(t.key, all[0].key) {
      var i :| 0 <= i < 6 && LastSix(all)[i] == t;
      assert t == all[|all| - 6 + i];
    }
  }

  /** The six months the "Last 6 months" trend evidently means: the first six entries,
      the newest when the records come newest first. */
  function RecentSix(entries: seq<MonthTally>): (r: seq<MonthTally>)
    ensures |r| == if |entries| <= 6 then |entries| else 6
    ensures |entries| <= 6 ==> r == entries
    ensures entries == r + entries[|r|..]
  {
    if |entries| <= 6 then entries else entries[..6]
  }

  /** Over newest-first records, RecentSix keeps six months (all of them when there are
      fewer), and every month it leaves out is older than every month it keeps. */
  lemma RecentSixAreLatest(s: seq<ApiForm>)
    requires NewestMonthFirst(s)
    ensures var all := MonthlyOf(s); var r := RecentSix(all);
      |r| == (if |all| <= 6 then |all| else 6) &&
      forall i, j :: 0 <= i < |r| <= j < |all| ==> MonthBefore(all[j].key, r[i].key)
  {
    MonthlyNewestFirst(s);
    var all := MonthlyOf(s);
    var r := RecentSix(all);
    forall i, j | 0 <= i < |r| <= j < |all| ensures MonthBefore(all[j].key, r[i].key) {
      assert r[i] == all[i];
    }
  }

  /** What getAnalyticsData returns, the rejection reasons aside. */
  datatype Analytics = Analytics(
    totalForms: nat,
    rejectedForms: nat,
    approvedForms: nat,
    pendingForms: nat,
    rejectionRate: real,
    approvalRate: real,
    monthlyData: seq<MonthTally>)

  function AnalyticsOf(forms: seq<ApiForm>, range: DateRange): (r: Analytics)
    ensures r.rejectedForms + r.approvedForms + r.pendingForms <= r.totalForms
    ensures r.totalForms == 0 ==> r.rejectionRate == 0.0 && r.approvalRate == 0.0
    ensures 0.0 <= r.rejectionRate <= 100.0 && 0.0 <= r.approvalRate <= 100.0
    ensures var n := |MonthlyOf(RangeForms(forms, range))|;
      |r.monthlyData| == if n <= 6 then n else 6
  {
    var s := RangeForms(forms, range);
    var rejected := Count(s, CodeIs(2));
    var approved := Count(s, CodeIs(1));
    var pending := Count(s, CodeIs(0));
    CountDisjoint3(s, CodeIs(2), CodeIs(1), CodeIs(0));
    Analytics(|s|, rejected, approved, pending,
      RoundTenth(Rate(rejected, |s|)), RoundTenth(Rate(approved, |s|)), LastSix(MonthlyOf(s)))
  }

  /** The monthly entries of the analytics are correct tallies of months of the records
      in range, the last six entered (all of them when there are six or fewer). */
  lemma AnalyticsMonthlyCorrect(forms: seq<ApiForm>, range: DateRange)
    ensures var s := RangeForms(forms, range); var all := MonthlyOf(s);
      var k := if |all| <= 6 then 0 else |all| - 6;
      AnalyticsOf(forms, range).monthlyData == all[k..]
      && forall j :: 0 <= j < |all| ==> all[j] == TallyOf(s, all[j].key)
  {
    MonthlyOfCorrect(RangeForms(forms, range));
  }

  /** The report's title. */
  function ReportTitle(reportType: string): (r: string)
    ensures r == "Report" <==> reportType !in ["mcr-summary", "rejected-forms", "form-approvals"]
  {
    if reportType == "mcr-summary" then "MCR Form Summary Report"
    else if reportType == "rejected-forms" then "Rejected Forms Analysis Report"
    else if reportType == "form-approvals" then "Form Approval Report"
    else "Report"
  }

  const LoadError: string := "Failed to load report data. Please try again."

  /** The viewer's state. */
  class ReportViewerPage {
    var forms: seq<ApiForm>
    var filteredForms: seq<ApiForm>
    var page: nat
    var rowsPerPage: nat
    var searchTerm: string
    var statusFilter: string
    var specialistFilter: string
    var error: Option<string>

    /** The filtered list is what the filter effect makes of the records and filters. */
    predicate Valid()
      reads this
    {
      filteredForms == Filtered(forms, searchTerm, statusFilter, specialistFilter)
    }

    /** The first render: no records, 25 rows per page, no filters. */
    constructor()
      ensures Valid()
      ensures forms == [] && filteredForms == [] && page == 0 && rowsPerPage == 25
      ensures searchTerm == "" && statusFilter == "all" && specialistFilter == "all" && error.None?
    {
      forms := [];
      filteredForms := [];
      page := 0;
      rowsPerPage := 25;
      searchTerm := "";
      statusFilter := "all";
      specialistFilter := "all";
      error := None;
    }

    /** The filter effect: three stages, each run only when its input is set, then
        back to the first page. */
    method ApplyFilters()
      modifies this
      ensures Valid() && page == 0
      ensures forms == old(forms) && rowsPerPage == old(rowsPerPage) && error == old(error)
      ensures searchTerm == old(searchTerm) && statusFilter == old(statusFilter)
      ensures specialistFilter == old(specialistFilter)
    {
      var filtered := forms;
      if searchTerm != [] {
        filtered := Filter(filtered, SearchFn(searchTerm));
      } else {
        FilterKeepsAll(forms, SearchFn(searchTerm));
      }
      ghost var afterSearch := filtered;
      if statusFilter != "all" {
        filtered := Filter(filtered, StatusFn(statusFilter));
      } else {
        FilterKeepsAll(filtered, StatusFn(statusFilter));
      }
      FilterFilter(forms, SearchFn(searchTerm), StatusFn(statusFilter), SearchAndStatusFn(searchTerm, statusFilter));
      if specialistFilter != "all" {
        filtered := Filter(filtered, SpecialistFn(specialistFilter));
      } else {
        FilterKeepsAll(filtered, SpecialistFn(specialistFilter));
      }
      FilterFilter(forms, SearchAndStatusFn(searchTerm, statusFilter), SpecialistFn(specialistFilter),
        KeepsFn(searchTerm, statusFilter, specialistFilter));
      filteredForms := filtered;
      page := 0;
    }

    /** The fetch: on success both lists take the records and the filter effect runs on
        them; on failure only the error message is set. */
    method Load(outcome: LoadOutcome)
      requires Valid()
      modifies this
      ensures Valid()
      ensures outcome.Loaded? ==> forms == outcome.data && page == 0 && error.None?
      ensures outcome.LoadFailed? ==>
        forms == old(forms) && filteredForms == old(filteredForms) && page == old(page)
        && error == Some(LoadError)
      ensures rowsPerPage == old(rowsPerPage) && searchTerm == old(searchTerm)
      ensures statusFilter == old(statusFilter) && specialistFilter == old(specialistFilter)
    {
      error := None;
      match outcome
      case Loaded(data) =>
        forms := data;
        filteredForms := data;
        ApplyFilters();
      case LoadFailed =>
        error := Some(LoadError);
    }

    method SetSearchTerm(term: string)
      modifies this
      ensures Valid() && searchTerm == term && page == 0
      ensures forms == old(forms) && rowsPerPage == old(rowsPerPage) && error == old(error)
      ensures statusFilter == old(statusFilter) && specialistFilter == old(specialistFilter)
    {
      searchTerm := term;
      ApplyFilters();
    }

    method SetStatusFilter(value: string)
      modifies this
      ensures Valid() && statusFilter == value && page == 0
      ensures forms == old(forms) && rowsPerPage == old(rowsPerPage) && error == old(error)
      ensures searchTerm == old(searchTerm) && specialistFilter == old(specialistFilter)
    {
      statusFilter := value;
      ApplyFilters();
    }

    method SetSpecialistFilter(value: string)
      modifies this
      ensures Valid() && specialistFilter == value && page == 0
      ensures forms == old(forms) && rowsPerPage == old(rowsPerPage) && error == old(error)
      ensures searchTerm == old(searchTerm) && statusFilter == old(statusFilter)
    {
      specialistFilter := value;
      ApplyFilters();
    }

    /** handleChangePage. */
    method ChangePage(newPage: nat)
      requires Valid()
      modifies this
      ensures Valid()
      ensures page == newPage && rowsPerPage == old(rowsPerPage)
      ensures forms == old(forms) && filteredForms == old(filteredForms) && error == old(error)
      ensures searchTerm == old(searchTerm) && statusFilter == old(statusFilter)
      ensures specialistFilter == old(specialistFilter)
    {
      page := newPage;
    }

    /** handleChangeRowsPerPage: the new size, back to the first page. */
    method ChangeRowsPerPage(size: nat)
      requires Valid()
      modifies this
      ensures Valid()
      ensures rowsPerPage == size && page == 0
      ensures forms == old(forms) && filteredForms == old(filteredForms) && error == old(error)
      ensures searchTerm == old(searchTerm) && statusFilter == old(statusFilter)
      ensures specialistFilter == old(specialistFilter)
    {
      rowsPerPage := size;
      page := 0;
    }

    /** The rows the table shows. */
    function VisibleRows(): (r: seq<ApiForm>)
      reads this
      ensures |r| <= rowsPerPage
      ensures |r| == if |filteredForms| <= page * rowsPerPage then 0
        else Min(rowsPerPage, |filteredForms| - page * rowsPerPage)
      ensures forall i :: 0 <= i < |r| ==> r[i] == filteredForms[page * rowsPerPage + i]
      ensures forall a :: a in r ==> a in filteredForms
    {
      PageOf(filteredForms, page, rowsPerPage)
    }

    /** The specialist choices. */
    function Specialists(): seq<string>
      reads this
    {
      UniqueSpecialists(forms)
    }

    /** The download of the filtered list, with the chip's status labels. */
    function CsvFile(dateText: Date -> string): string
      reads this
    {
      Export(filteredForms, ChipLabel, dateText)
    }

    /** getAnalyticsData over all the records, with the reduce written as the loop it
        is. */
    method GetAnalyticsData(range: DateRange) returns (a: Analytics)
      ensures a == AnalyticsOf(forms, range)
    {
      var s := RangeForms(forms, range);
      var monthly := MonthlyTrend(s);
      var rejected := Count(s, CodeIs(2));
      var approved := Count(s, CodeIs(1));
      var pending := Count(s, CodeIs(0));
      a := Analytics(|s|, rejected, approved, pending,
        RoundTenth(Rate(rejected, |s|)), RoundTenth(Rate(approved, |s|)), LastSix(monthly));
    }
  }

  /** The monthly reduce over the records in order. */
  method MonthlyTrend(s: seq<ApiForm>) returns (acc: seq<MonthTally>)
    ensures acc == MonthlyOf(s)
  {
    acc := [];
    var i := 0;
    while i < |s|
      invariant 0 <= i <= |s|
      invariant acc == MonthlyOf(s[..i])
    {
      assert s[..i] + [s[i]] == s[..i + 1];
      MonthlyOfSnoc(s[..i], s[i]);
      acc := CountRecord(acc, s[i]);
      assert acc == MonthlyOf(s[..i + 1]);
      i := i + 1;
    }
    assert s[..|s|] == s;
  }

  /** The reduce callback: the month's entry is made on its first record, and the
      counter of the record's status in it is incremented. */
  method CountRecord(acc: seq<MonthTally>, form: ApiForm) returns (next: seq<MonthTally>)
    ensures next == AddForm(acc, form)
  {
    var month := MonthOf(form);
    var j := KeyIndex(acc, month);
    var entry := if j < 0 then MonthTally(month, 0, 0, 0) else acc[j];
    ghost var created := entry;
    if form.status == StatusCode(0) {
      entry := entry.(pending := entry.pending + 1);
    } else if form.status == StatusCode(1) {
      entry := entry.(approved := entry.approved + 1);
    } else if form.status == StatusCode(2) {
      entry := entry.(rejected := entry.rejected + 1);
    }
    assert entry == Bump(created, form.status);
    if j < 0 {
      next := acc + [entry];
    } else {
      next := acc[j := entry];
    }
  }
}
