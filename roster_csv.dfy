/**
 * The roster parser shared by both importers: split the text on "\n", find
 * the "Email Address" and "Name" columns by header text, then walk the data
 * rows. Fields are found by a plain split on every comma (quoted fields are
 * not recognised), exactly as the importers do.
 */
module RosterCsv {
  import opened Wrappers
  import JsText
  import opened Records

  const EmailHeader: string := "Email Address"
  const NameHeader: string := "Name"
  const FormatErrorMessage: string := "CSV format is not as expected. Could not find Email Address or Name columns."
  /** The message of the TypeError that `.trim()` on `undefined` throws in the V8 engine. */
  const UndefinedTrimMessage: string := "Cannot read properties of undefined (reading 'trim')"

  /** Why parsing stopped: a required header is missing, or a short row made `.trim()` run on `undefined`. */
  datatype ParseError = MissingHeaders | UndefinedColumn

  /** `headers.findIndex(h => h.trim() === title)`: the first matching header cell, or -1. */
  function FindColumn(headers: seq<string>, title: string): (i: int)
    ensures -1 <= i < |headers|
    ensures i >= 0 ==> JsText.Trim(headers[i]) == title
    ensures forall j :: 0 <= j < |headers| && (i == -1 || j < i) ==> JsText.Trim(headers[j]) != title
  {
    if |headers| == 0 then -1
    else if JsText.Trim(headers[0]) == title then 0
    else
      var k := FindColumn(headers[1..], title);
      if k == -1 then -1 else k + 1
  }

  /** What one data row contributes to the import. */
  datatype RowOutcome = BlankRow | ShortRow | SkippedRow | Emitted(user: AuthorizedUser)

  /**
   * One data row: blank after trimming is passed over; too few comma-separated
   * fields to reach a column crashes; otherwise a record with the trimmed fields
   * is emitted exactly when both are non-empty.
   */
  function ClassifyRow(row: string, emailIndex: nat, nameIndex: nat): (r: RowOutcome)
    ensures r.BlankRow? <==> JsText.Trim(row) == ""
    ensures r.Emitted? ==> r.user.email != "" && r.user.name != ""
  {
    if JsText.Trim(row) == "" then BlankRow
    else
      var columns := JsText.Split(row, ',');
      if emailIndex >= |columns| || nameIndex >= |columns| then ShortRow
      else
        var email := JsText.Trim(columns[emailIndex]);
        var name := JsText.Trim(columns[nameIndex]);
        if email != "" && name != "" then Emitted(AuthorizedUser(email, name)) else SkippedRow
  }

  /** The outcome of every row of the text, the header row included (its outcome is never used). */
  function Outcomes(rows: seq<string>, emailIndex: nat, nameIndex: nat): seq<RowOutcome>
  {
    seq(|rows|, k requires 0 <= k < |rows| => ClassifyRow(rows[k], emailIndex, nameIndex))
  }

  /** The records that outcomes 1 .. n-1 yield, in row order, or the crash of the first short row. */
  function Collected(outcomes: seq<RowOutcome>, n: nat): Result<seq<AuthorizedUser>, ParseError>
    requires n <= |outcomes|
  {
    if n <= 1 then Success([])
    else Absorb(Collected(outcomes, n - 1), outcomes[n - 1])
  }

  /** Folds one row's outcome into the records collected so far. */
  function Absorb(acc: Result<seq<AuthorizedUser>, ParseError>, outcome: RowOutcome): Result<seq<AuthorizedUser>, ParseError>
  {
    match acc
    case Failure(e) => Failure(e)
    case Success(users) =>
      match outcome
      case ShortRow => Failure(UndefinedColumn)
      case Emitted(u) => Success(users + [u])
      case _ => Success(users)
  }

  lemma CollectedStep(outcomes: seq<RowOutcome>, i: nat)
    requires 1 <= i < |outcomes|
    ensures Collected(outcomes, i + 1) == Absorb(Collected(outcomes, i), outcomes[i])
  {
  }

  /** Once a row has crashed the import, no later row changes the outcome. */
  lemma {:induction false} FailureSticks(outcomes: seq<RowOutcome>, m: nat, n: nat)
    requires m <= n <= |outcomes|
    requires Collected(outcomes, m).Failure?
    ensures Collected(outcomes, n) == Collected(outcomes, m)
    decreases n - m
  {
    if m < n {
      FailureSticks(outcomes, m, n - 1);
    }
  }

  /** The column positions the header row names, or None when either is missing. */
  function Columns(text: string): Option<(nat, nat)>
  {
    var headers := JsText.Split(JsText.Split(text, '\n')[0], ',');
    var emailIndex := FindColumn(headers, EmailHeader);
    var nameIndex := FindColumn(headers, NameHeader);
    if emailIndex == -1 || nameIndex == -1 then None else Some((emailIndex, nameIndex))
  }

  /** The message the importers report for a parse failure. */
  function ErrorMessage(e: ParseError): (m: string)
    ensures e == MissingHeaders ==> m == FormatErrorMessage
    ensures e == UndefinedColumn ==> m == UndefinedTrimMessage
  {
    match e
    case MissingHeaders => FormatErrorMessage
    case UndefinedColumn => UndefinedTrimMessage
  }

  /** What the importers compute from the roster text before touching the store. */
  function ParseRoster(text: string): Result<seq<AuthorizedUser>, ParseError>
  {
    match Columns(text)
    case None => Failure(MissingHeaders)
    case Some((emailIndex, nameIndex)) =>
      var rows := JsText.Split(text, '\n');
      Collected(Outcomes(rows, emailIndex, nameIndex), |rows|)
  }

  /** The importers' row loop: pushes each emitted record, fails on the first short row. */
  method CollectRecords(rows: seq<string>, emailIndex: nat, nameIndex: nat)
    returns (r: Result<seq<AuthorizedUser>, ParseError>)
    requires |rows| >= 1
    ensures r == Collected(Outcomes(rows, emailIndex, nameIndex), |rows|)
  {
    ghost var outcomes := Outcomes(rows, emailIndex, nameIndex);
    assert RowsClassified(rows, emailIndex, nameIndex, outcomes);
    r := CollectRows(rows, emailIndex, nameIndex, outcomes);
  }

  /**
   * `outcomes[k]` is the outcome of row `k`. The trigger keeps the verifier
   * from expanding a row's classification until a proof asks for it.
   */
  predicate RowsClassified(rows: seq<string>, emailIndex: nat, nameIndex: nat, outcomes: seq<RowOutcome>) {
    |outcomes| == |rows|
    && forall k {:trigger ClassifyRow(rows[k], emailIndex, nameIndex)} :: 0 <= k < |rows| ==>
         outcomes[k] == ClassifyRow(rows[k], emailIndex, nameIndex)
  }

  /** The row loop, given the outcome each row has (which it recomputes row by row). */
  method CollectRows(rows: seq<string>, emailIndex: nat, nameIndex: nat, ghost outcomes: seq<RowOutcome>)
    returns (r: Result<seq<AuthorizedUser>, ParseError>)
    requires |rows| >= 1 && RowsClassified(rows, emailIndex, nameIndex, outcomes)
    ensures r == Collected(outcomes, |rows|)
  {
    var users: seq<AuthorizedUser> := [];
    var i := 1;
    while i < |rows|
      invariant 1 <= i <= |rows|
      invariant Collected(outcomes, i) == Success(users)
    {
      var outcome := ReadRow(rows, i, emailIndex, nameIndex, outcomes);
      CollectedStep(outcomes, i);
      match outcome {
        case ShortRow =>
          FailureSticks(outcomes, i + 1, |rows|);
          return Failure(UndefinedColumn);
        case Emitted(u) =>
          users := users + [u];
        case _ =>
      }
      i := i + 1;
    }
    return Success(users);
  }

  /** The body of the row loop for row `i`: skip a blank row, crash on a short one, else read both trimmed fields. */
  method ReadRow(rows: seq<string>, i: nat, emailIndex: nat, nameIndex: nat, ghost outcomes: seq<RowOutcome>)
    returns (outcome: RowOutcome)
    requires i < |rows| && RowsClassified(rows, emailIndex, nameIndex, outcomes)
    ensures outcome == outcomes[i]
  {
    assert outcomes[i] == ClassifyRow(rows[i], emailIndex, nameIndex);
    if JsText.Trim(rows[i]) == "" {
      return BlankRow;
    }
    var columns := JsText.Split(rows[i], ',');
    if emailIndex >= |columns| || nameIndex >= |columns| {
      return ShortRow;
    }
    var email := JsText.Trim(columns[emailIndex]);
    var name := JsText.Trim(columns[nameIndex]);
    if email != "" && name != "" {
      return Emitted(AuthorizedUser(email, name));
    }
    return SkippedRow;
  }

  /** The importers' parsing step: header lookup, then the row loop. */
  method ParseRosterText(text: string) returns (r: Result<seq<AuthorizedUser>, ParseError>)
    ensures r == ParseRoster(text)
  {
    var rows := JsText.Split(text, '\n');
    var headers := JsText.Split(rows[0], ',');
    var emailIndex := FindColumn(headers, EmailHeader);
    var nameIndex := FindColumn(headers, NameHeader);
    if emailIndex == -1 || nameIndex == -1 {
      return Failure(MissingHeaders);
    }
    r := CollectRecords(rows, emailIndex, nameIndex);
  }

  /** The data rows that emit a record, in increasing row order; the header row is never among them. */
  function EmittingRows(outcomes: seq<RowOutcome>, n: nat): (ks: seq<nat>)
    requires n <= |outcomes|
    ensures forall j :: 0 <= j < |ks| ==> 1 <= ks[j] < n && outcomes[ks[j]].Emitted?
    ensures forall j, l :: 0 <= j < l < |ks| ==> ks[j] < ks[l]
    ensures forall k :: 1 <= k < n && outcomes[k].Emitted? ==> k in ks
  {
    if n <= 1 then []
    else if outcomes[n - 1].Emitted? then EmittingRows(outcomes, n - 1) + [n - 1]
    else EmittingRows(outcomes, n - 1)
  }

  /**
   * A successful parse yields exactly one record per emitting row, in row
   * order: the j-th record is the one the j-th emitting row produced.
   */
  lemma {:induction false} RecordsFollowRows(outcomes: seq<RowOutcome>, n: nat)
    requires n <= |outcomes|
    requires Collected(outcomes, n).Success?
    ensures |Collected(outcomes, n).value| == |EmittingRows(outcomes, n)|
    ensures forall j :: 0 <= j < |EmittingRows(outcomes, n)| ==>
      outcomes[EmittingRows(outcomes, n)[j]] == Emitted(Collected(outcomes, n).value[j])
  {
    if n > 1 {
      RecordsFollowRows(outcomes, n - 1);
    }
  }

  /** The parse fails with the crash exactly when some data row is too short, and succeeds otherwise. */
  lemma {:induction false} FailsIffShortRow(outcomes: seq<RowOutcome>, n: nat)
    requires n <= |outcomes|
    ensures Collected(outcomes, n).Failure? <==> exists k :: 1 <= k < n && outcomes[k] == ShortRow
    ensures Collected(outcomes, n).Failure? ==> Collected(outcomes, n).error == UndefinedColumn
  {
    if n > 1 {
      FailsIffShortRow(outcomes, n - 1);
      if Collected(outcomes, n - 1).Failure? {
        var k :| 1 <= k < n - 1 && outcomes[k] == ShortRow;
        assert 1 <= k < n && outcomes[k] == ShortRow;
      }
    }
  }

  /** An emitted record carries both fields already trimmed and non-empty. */
  lemma EmittedFieldsClean(row: string, emailIndex: nat, nameIndex: nat)
    requires ClassifyRow(row, emailIndex, nameIndex).Emitted?
    ensures var u := ClassifyRow(row, emailIndex, nameIndex).user;
      u.email != "" && u.name != "" && JsText.Trim(u.email) == u.email && JsText.Trim(u.name) == u.name
  {
    var columns := JsText.Split(row, ',');
    JsText.TrimIdempotent(columns[emailIndex]);
    JsText.TrimIdempotent(columns[nameIndex]);
  }

  /** Every record a successful parse returns has a trimmed, non-empty email and name. */
  lemma ParsedRecordsClean(text: string)
    requires ParseRoster(text).Success?
    ensures forall u :: u in ParseRoster(text).value ==>
      u.email != "" && u.name != "" && JsText.Trim(u.email) == u.email && JsText.Trim(u.name) == u.name
  {
    var (emailIndex, nameIndex) := Columns(text).value;
    var rows := JsText.Split(text, '\n');
    var outcomes := Outcomes(rows, emailIndex, nameIndex);
    var users := ParseRoster(text).value;
    RecordsFollowRows(outcomes, |rows|);
    var ks := EmittingRows(outcomes, |rows|);
    forall u | u in users
      ensures u.email != "" && u.name != "" && JsText.Trim(u.email) == u.email && JsText.Trim(u.name) == u.name
    {
      var j :| 0 <= j < |users| && users[j] == u;
      EmittedFieldsClean(rows[ks[j]], emailIndex, nameIndex);
    }
  }

  /** Collecting the first n outcomes looks at nothing beyond them. */
  lemma {:induction false} CollectedPrefix(a: seq<RowOutcome>, b: seq<RowOutcome>, n: nat)
    requires n <= |a| <= |b| && a == b[..|a|]
    ensures Collected(a, n) == Collected(b, n)
  {
    if n > 1 {
      CollectedPrefix(a, b, n - 1);
      assert a[n - 1] == b[n - 1];
    }
  }

  /** A blank last row contributes nothing. */
  lemma BlankRowAppended(rows: seq<string>, emailIndex: nat, nameIndex: nat)
    ensures Collected(Outcomes(rows + [""], emailIndex, nameIndex), |rows| + 1)
         == Collected(Outcomes(rows, emailIndex, nameIndex), |rows|)
  {
    var before := Outcomes(rows, emailIndex, nameIndex);
    var after := Outcomes(rows + [""], emailIndex, nameIndex);
    assert before == after[..|rows|];
    CollectedPrefix(before, after, |rows|);
    assert after[|rows|] == ClassifyRow("", emailIndex, nameIndex) == BlankRow;
  }

  /** A trailing newline leaves the header row, and so the columns, as they were. */
  lemma TrailingNewlineColumns(text: string)
    ensures JsText.Split(text + "\n", '\n') == JsText.Split(text, '\n') + [""]
    ensures Columns(text + "\n") == Columns(text)
  {
    JsText.SplitAppendSeparator(text, '\n');
    assert (JsText.Split(text, '\n') + [""])[0] == JsText.Split(text, '\n')[0];
  }

  /** A trailing newline, as most exported CSV files have, adds only a blank row and changes nothing. */
  lemma TrailingNewlineIgnored(text: string)
    ensures ParseRoster(text + "\n") == ParseRoster(text)
  {
    TrailingNewlineColumns(text);
    if Columns(text).Some? {
      var (emailIndex, nameIndex) := Columns(text).value;
      BlankRowAppended(JsText.Split(text, '\n'), emailIndex, nameIndex);
    }
  }

  /** The roster with one data row of two cells, under a two-cell header. */
  function TwoColumnRoster(header1: string, header2: string, cell1: string, cell2: string): string
  {
    header1 + "," + header2 + "\n" + cell1 + "," + cell2
  }

  lemma TwoColumnRows(header1: string, header2: string, cell1: string, cell2: string)
    requires ',' !in header1 && ',' !in header2 && ',' !in cell1 && ',' !in cell2
    requires '\n' !in header1 && '\n' !in header2 && '\n' !in cell1 && '\n' !in cell2
    ensures var rows := JsText.Split(TwoColumnRoster(header1, header2, cell1, cell2), '\n');
      rows == [header1 + "," + header2, cell1 + "," + cell2]
      && JsText.Split(rows[0], ',') == [header1, header2]
      && JsText.Split(rows[1], ',') == [cell1, cell2]
  {
    var h := header1 + "," + header2;
    var d := cell1 + "," + cell2;
    assert TwoColumnRoster(header1, header2, cell1, cell2) == h + ['\n'] + d;
    JsText.SplitTwo(h, d, '\n');
    JsText.SplitTwo(header1, header2, ',');
    JsText.SplitTwo(cell1, cell2, ',');
  }

  /** A row holding a comma is never blank, because a comma is not whitespace. */
  lemma CommaRowNotBlank(row: string)
    requires ',' in row
    ensures JsText.Trim(row) != ""
  {
    JsText.TrimShape(row);
    var k :| 0 <= k < |row| && row[k] == ',';
    assert !JsText.IsJsWhitespace(row[k]);
  }

  /** The record one data row under the two required headers yields, whichever order the columns come in. */
  function ExpectedRecords(email: string, name: string): seq<AuthorizedUser>
  {
    if JsText.Trim(email) != "" && JsText.Trim(name) != "" then [AuthorizedUser(JsText.Trim(email), JsText.Trim(name))] else []
  }

  /** With one data row, the parse is that row's outcome alone. */
  lemma SingleDataRow(header1: string, header2: string, cell1: string, cell2: string, emailIndex: nat, nameIndex: nat)
    requires ',' !in header1 && ',' !in header2 && ',' !in cell1 && ',' !in cell2
    requires '\n' !in header1 && '\n' !in header2 && '\n' !in cell1 && '\n' !in cell2
    requires Columns(TwoColumnRoster(header1, header2, cell1, cell2)) == Some((emailIndex, nameIndex))
    ensures ParseRoster(TwoColumnRoster(header1, header2, cell1, cell2))
         == Absorb(Success([]), ClassifyRow(cell1 + "," + cell2, emailIndex, nameIndex))
  {
    TwoColumnRows(header1, header2, cell1, cell2);
    HeaderAndOneRow(header1 + "," + header2, cell1 + "," + cell2, emailIndex, nameIndex);
  }

  lemma HeaderAndOneRow(header: string, row: string, emailIndex: nat, nameIndex: nat)
    ensures Collected(Outcomes([header, row], emailIndex, nameIndex), 2)
         == Absorb(Success([]), ClassifyRow(row, emailIndex, nameIndex))
  {
    assert Outcomes([header, row], emailIndex, nameIndex)[1] == ClassifyRow(row, emailIndex, nameIndex);
  }

  /** The outcome of a two-cell row, given where the email and the name are. */
  lemma TwoCellRow(cell1: string, cell2: string, emailIndex: nat, nameIndex: nat)
    requires ',' !in cell1 && ',' !in cell2
    requires (emailIndex, nameIndex) == (0, 1) || (emailIndex, nameIndex) == (1, 0)
    ensures var cells := [cell1, cell2];
      Absorb(Success([]), ClassifyRow(cell1 + "," + cell2, emailIndex, nameIndex))
      == Success(ExpectedRecords(cells[emailIndex], cells[nameIndex]))
  {
    var row := cell1 + "," + cell2;
    JsText.SplitTwo(cell1, cell2, ',');
    assert JsText.Split(row, ',') == [cell1, cell2];
    CommaRowNotBlank(row);
    var cells := [cell1, cell2];
    var email := JsText.Trim(cells[emailIndex]);
    var name := JsText.Trim(cells[nameIndex]);
    if email != "" && name != "" {
      assert ClassifyRow(row, emailIndex, nameIndex) == Emitted(AuthorizedUser(email, name));
      assert [] + [AuthorizedUser(email, name)] == [AuthorizedUser(email, name)];
    } else {
      assert ClassifyRow(row, emailIndex, nameIndex) == SkippedRow;
    }
  }

  /** Both required titles are found in either order of a two-cell header. */
  lemma HeaderTitlesFound()
    ensures FindColumn([EmailHeader, NameHeader], EmailHeader) == 0
    ensures FindColumn([EmailHeader, NameHeader], NameHeader) == 1
    ensures FindColumn([NameHeader, EmailHeader], EmailHeader) == 1
    ensures FindColumn([NameHeader, EmailHeader], NameHeader) == 0
  {
    JsText.TrimUntouched(EmailHeader);
    JsText.TrimUntouched(NameHeader);
  }

  /** The header row "Email Address,Name" puts the email first and "Name,Email Address" puts it second. */
  lemma HeaderColumns(header1: string, header2: string, cell1: string, cell2: string)
    requires (header1, header2) == (EmailHeader, NameHeader) || (header1, header2) == (NameHeader, EmailHeader)
    requires ',' !in cell1 && ',' !in cell2 && '\n' !in cell1 && '\n' !in cell2
    ensures Columns(TwoColumnRoster(header1, header2, cell1, cell2))
         == if header1 == EmailHeader then Some((0, 1)) else Some((1, 0))
  {
    HeaderTitlesFound();
    TwoColumnRows(header1, header2, cell1, cell2);
  }

  /** Columns are found by header text, so the two orders of the columns give the same records. */
  lemma ColumnOrderIrrelevant(email: string, name: string)
    requires ',' !in email && ',' !in name && '\n' !in email && '\n' !in name
    ensures ParseRoster(TwoColumnRoster(EmailHeader, NameHeader, email, name))
         == ParseRoster(TwoColumnRoster(NameHeader, EmailHeader, name, email))
         == Success(ExpectedRecords(email, name))
  {
    HeaderColumns(EmailHeader, NameHeader, email, name);
    SingleDataRow(EmailHeader, NameHeader, email, name, 0, 1);
    TwoCellRow(email, name, 0, 1);
    HeaderColumns(NameHeader, EmailHeader, name, email);
    SingleDataRow(NameHeader, EmailHeader, name, email, 1, 0);
    TwoCellRow(name, email, 1, 0);
  }
}
