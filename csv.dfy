/** The CSV export of MCR records that both report screens build: a header line and one
    line of eight cells per record, every cell wrapped in double quotes with nothing
    escaped, cells joined by commas and lines by newlines. */
module Csv {
  import opened Strings
  import opened Calendar
  import opened Money
  import opened Wire

  const Headers: seq<string> := ["Form ID", "Tenant Name", "Property Address", "Program Type",
    "Status", "Housing Specialist", "Created Date", "Amount"]

  /** The address cell: the five address parts, a null second line as '', separated by
      single spaces and trimmed. */
  function AddressField(a: ApiForm): string {
    Trim(a.addressLine1 + " " + a.addressLine2.GetOr("") + " " + a.city + " " + a.state + " " + a.zipCode)
  }

  /** The amount cell: empty for a zero amount, otherwise "$" and the amount with two
      decimals. */
  function AmountField(cents: int): (r: string)
    ensures r == [] <==> cents == 0
    ensures r != [] ==> r[0] == '$'
  {
    if cents == 0 then "" else "$" + ToFixed2(cents)
  }

  /** What follows the "$" of a non-empty amount cell reads back as the same number of
      cents. */
  lemma AmountFieldReadsBack(cents: int)
    requires cents != 0
    ensures ParseAmount(AmountField(cents)[1..]) == Some(Decimal(cents, 2))
  {
    ParseToFixed2(cents);
    assert AmountField(cents)[1..] == ToFixed2(cents);
  }

  /** The cells of a record under the headers, given the status label of the screen and
      the creation date as the browser's locale prints it. */
  function RecordFields(a: ApiForm, statusLabel: string, createdText: string): (r: seq<string>)
    ensures |r| == |Headers|
  {
    [IntToString(a.id), a.tenantName, AddressField(a), a.programType, statusLabel,
      a.housingSpecialistName, createdText, AmountField(a.hapAmount)]
  }

  /** `"${field}"`. */
  function Quote(f: string): (r: string)
    ensures |r| == |f| + 2 && r[0] == '"' && r[|r| - 1] == '"' && r[1..|r| - 1] == f
  {
    "\"" + f + "\""
  }

  /** Drops the first and the last character of a cell of at least two. */
  function Unquote(q: string): string {
    if |q| >= 2 then q[1..|q| - 1] else q
  }

  function QuoteAll(row: seq<string>): (r: seq<string>)
    ensures |r| == |row|
  {
    seq(|row|, k requires 0 <= k < |row| => Quote(row[k]))
  }

  function UnquoteAll(cells: seq<string>): (r: seq<string>)
    ensures |r| == |cells|
  {
    seq(|cells|, k requires 0 <= k < |cells| => Unquote(cells[k]))
  }

  /** A CSV line: the quoted cells joined with commas. */
  function Line(row: seq<string>): string {
    Join(QuoteAll(row), ",")
  }

  function Lines(table: seq<seq<string>>): (r: seq<string>)
    ensures |r| == |table|
  {
    seq(|table|, i requires 0 <= i < |table| => Line(table[i]))
  }

  /** The whole file: the lines joined with newlines. */
  function Text(table: seq<seq<string>>): string {
    Join(Lines(table), "\n")
  }

  /** The plain reading of a CSV text: lines at newlines, cells at commas, each cell's
      outer characters dropped. */
  function Read(text: string): (r: seq<seq<string>>)
    ensures |r| == |Split(text, '\n')|
  {
    var lines := Split(text, '\n');
    seq(|lines|, i requires 0 <= i < |lines| => UnquoteAll(Split(lines[i], ',')))
  }

  /** No cell holds a comma or a newline. */
  predicate Plain(table: seq<seq<string>>) {
    forall i, k :: 0 <= i < |table| && 0 <= k < |table[i]| ==> ',' !in table[i][k] && '\n' !in table[i][k]
  }

  lemma QuotedLineReadsBack(row: seq<string>)
    requires |row| >= 1
    requires forall k :: 0 <= k < |row| ==> ',' !in row[k] && '\n' !in row[k]
    ensures '\n' !in Line(row)
    ensures UnquoteAll(Split(Line(row), ',')) == row
  {
    var q := QuoteAll(row);
    forall k | 0 <= k < |q| ensures ',' !in q[k] && '\n' !in q[k] {
      assert q[k] == "\"" + row[k] + "\"";
    }
    JoinAvoids(q, ",", '\n');
    SplitJoin(q, ',');
  }

  /** A table whose cells hold no comma and no newline reads back from its text cell for
      cell: the file has one line per row and each line one cell per column. */
  lemma ReadText(table: seq<seq<string>>)
    requires |table| >= 1
    requires forall i :: 0 <= i < |table| ==> |table[i]| >= 1
    requires Plain(table)
    ensures Read(Text(table)) == table
  {
    var lines := Lines(table);
    forall i | 0 <= i < |table| ensures '\n' !in lines[i] && UnquoteAll(Split(lines[i], ',')) == table[i] {
      QuotedLineReadsBack(table[i]);
    }
    SplitJoin(lines, '\n');
  }

  /** Quotes inside a cell are not doubled: a cell holding `Smith","Jones` prints exactly
      as the two cells Smith and Jones, so a reader that honours quotes cannot tell the two
      apart. */
  lemma QuotesNotEscaped()
    ensures Line(["Smith\",\"Jones"]) == Line(["Smith", "Jones"])
  {
    var one := QuoteAll(["Smith\",\"Jones"]);
    assert one == [Quote("Smith\",\"Jones")];
    assert Join(one, ",") == Quote("Smith\",\"Jones") == "\"Smith\",\"Jones\"";
    var two := QuoteAll(["Smith", "Jones"]);
    assert two == [Quote("Smith"), Quote("Jones")];
    assert two[1..] == [Quote("Jones")];
    assert Join(two, ",") == Quote("Smith") + "," + Quote("Jones");
  }

  // ---------------------------------------------------------------------------
  // The export of a list of records

  /** The header row, then one row of cells per record in list order. */
  function Table(forms: seq<ApiForm>, statusLabel: WireStatus -> string, dateText: Date -> string): (t: seq<seq<string>>)
    ensures |t| == |forms| + 1
  {
    [Headers] + seq(|forms|, i requires 0 <= i < |forms| =>
      RecordFields(forms[i], statusLabel(forms[i].status), dateText(forms[i].createdAt)))
  }

  /** The CSV text of the list. When no cell holds a comma or a newline, the file reads
      back as the table: the headers, then the eight cells of each record, in list
      order (TableRows). */
  function Export(forms: seq<ApiForm>, statusLabel: WireStatus -> string, dateText: Date -> string): (r: string)
    ensures Plain(Table(forms, statusLabel, dateText)) ==> Read(r) == Table(forms, statusLabel, dateText)
  {
    PlainTableReadsBack(forms, statusLabel, dateText);
    Text(Table(forms, statusLabel, dateText))
  }

  lemma PlainTableReadsBack(forms: seq<ApiForm>, statusLabel: WireStatus -> string, dateText: Date -> string)
    ensures var t := Table(forms, statusLabel, dateText); Plain(t) ==> Read(Text(t)) == t
  {
    if Plain(Table(forms, statusLabel, dateText)) {
      TableShape(forms, statusLabel, dateText);
      ReadText(Table(forms, statusLabel, dateText));
    }
  }

  /** Every row of the table has the eight cells of the header row. */
  lemma TableShape(forms: seq<ApiForm>, statusLabel: WireStatus -> string, dateText: Date -> string)
    ensures var t := Table(forms, statusLabel, dateText);
      forall i :: 0 <= i < |t| ==> |t[i]| == |Headers|
  {
    var t := Table(forms, statusLabel, dateText);
    forall i | 0 <= i < |t| ensures |t[i]| == |Headers| {
      if i > 0 {
        TableRow(forms, statusLabel, dateText, i - 1);
      }
    }
  }

  /** The rows of the table: the headers, then each record's cells. */
  lemma TableRows(forms: seq<ApiForm>, statusLabel: WireStatus -> string, dateText: Date -> string)
    ensures var t := Table(forms, statusLabel, dateText);
      t[0] == Headers && |Headers| == 8
      && forall i :: 0 <= i < |forms| ==>
        t[i + 1] == RecordFields(forms[i], statusLabel(forms[i].status), dateText(forms[i].createdAt))
  {
    forall i | 0 <= i < |forms|
      ensures Table(forms, statusLabel, dateText)[i + 1]
        == RecordFields(forms[i], statusLabel(forms[i].status), dateText(forms[i].createdAt))
    {
      TableRow(forms, statusLabel, dateText, i);
    }
  }

  /** The row of the i-th record. */
  lemma TableRow(forms: seq<ApiForm>, statusLabel: WireStatus -> string, dateText: Date -> string, i: int)
    requires 0 <= i < |forms|
    ensures Table(forms, statusLabel, dateText)[i + 1]
      == RecordFields(forms[i], statusLabel(forms[i].status), dateText(forms[i].createdAt))
    ensures |Table(forms, statusLabel, dateText)[i + 1]| == |Headers|
  {
    var t := Table(forms, statusLabel, dateText);
    assert t[i + 1] == RecordFields(forms[i], statusLabel(forms[i].status), dateText(forms[i].createdAt));
  }
}
