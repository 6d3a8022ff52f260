/** The server's CSV check: the blank-row filter applied to an uploaded file, and the
    report of errors (which block generation) and warnings (which do not). */
module Validation {
  import opened Text
  import opened Values
  import opened Rows
  import Dates

  /** `REQUIRED_HEADERS`, in the order missing ones are reported. */
  const RequiredHeaders: seq<string> := ["Date", "Pack Number", "Scout Name", "Award Name", "Den Leader", "Cubmaster"]

  /** `_parse_csv_bytes` after decoding: a file without a header row gives no columns and
      no rows; otherwise the columns and the rows with some non-blank cell. */
  function ParseCsv(csv: Csv): (seq<string>, seq<Row>)
  {
    if csv.header == [] then ([], []) else (csv.header, KeepRowsWithContent(csv.rows))
  }

  /** The server reads rows exactly as the generators do: whenever the upload has a header
      row, the rows it validates are the rows the generator will fill. */
  lemma ParseCsvAgreesWithReadRows(csv: Csv)
    ensures ReadRows(csv).Ok? <==> ParseCsv(csv).0 != []
    ensures ReadRows(csv).Ok? ==> ReadRows(csv).value == ParseCsv(csv).1
    ensures ParseCsv(csv).0 == [] ==> ParseCsv(csv).1 == []
  {
  }

  /** The required headers absent from `fieldnames`, in the order of `required`. */
  function Missing(required: seq<string>, fieldnames: seq<string>): (r: seq<string>)
    ensures |r| <= |required|
    ensures forall h :: h in r <==> h in required && h !in fieldnames
  {
    if required == [] then []
    else (if required[0] in fieldnames then [] else [required[0]]) + Missing(required[1..], fieldnames)
  }

  /** Missing headers keep their relative order: the check of a concatenation is the
      concatenation of the checks. */
  lemma {:induction false} MissingConcat(a: seq<string>, b: seq<string>, fieldnames: seq<string>)
    ensures Missing(a + b, fieldnames) == Missing(a, fieldnames) + Missing(b, fieldnames)
  {
    if a == [] {
      assert a + b == b;
    } else {
      assert (a + b)[1..] == a[1..] + b;
      MissingConcat(a[1..], b, fieldnames);
    }
  }

  /** One finding of the report; rows are numbered as a spreadsheet shows them, the
      header being row 1. */
  datatype Issue =
    | MissingHeaders(headers: seq<string>)
    | NoRows
    | ScoutNameRequired(row: int)
    | AwardNameRequired(row: int)
    | PackNumberEmpty(row: int)
    | DateUnrecognized(row: int, value: string)

  /** The message the report shows for an issue. */
  function IssueText(issue: Issue): string
  {
    match issue
    case MissingHeaders(headers) => "Missing required headers: " + Join(headers)
    case NoRows => "CSV has no data rows."
    case ScoutNameRequired(row) => RowPrefix(row) + "Scout Name is required."
    case AwardNameRequired(row) => RowPrefix(row) + "Award Name is required."
    case PackNumberEmpty(row) => RowPrefix(row) + "Pack Number is empty."
    case DateUnrecognized(row, value) => RowPrefix(row) + "Date '" + value + "' is not in a recognized format."
  }

  function RowPrefix(row: int): string
  {
    "Row " + (if row < 0 then "-" + NatToString(-row) else NatToString(row)) + ": "
  }

  /** `", ".join(headers)`. */
  function Join(headers: seq<string>): string
  {
    if headers == [] then ""
    else if |headers| == 1 then headers[0]
    else headers[0] + ", " + Join(headers[1..])
  }

  /** Two issues of the same kind about different rows never read the same. */
  lemma RowMessagesDistinct(a: nat, b: nat)
    requires a != b
    ensures IssueText(ScoutNameRequired(a)) != IssueText(ScoutNameRequired(b))
    ensures IssueText(AwardNameRequired(a)) != IssueText(AwardNameRequired(b))
    ensures IssueText(PackNumberEmpty(a)) != IssueText(PackNumberEmpty(b))
  {
    if RowPrefix(a) == RowPrefix(b) {
      PrefixNumber(a, b);
    }
    if IssueText(ScoutNameRequired(a)) == IssueText(ScoutNameRequired(b)) {
      SameTail(RowPrefix(a), RowPrefix(b), "Scout Name is required.");
      PrefixNumber(a, b);
    }
    if IssueText(AwardNameRequired(a)) == IssueText(AwardNameRequired(b)) {
      SameTail(RowPrefix(a), RowPrefix(b), "Award Name is required.");
      PrefixNumber(a, b);
    }
    if IssueText(PackNumberEmpty(a)) == IssueText(PackNumberEmpty(b)) {
      SameTail(RowPrefix(a), RowPrefix(b), "Pack Number is empty.");
      PrefixNumber(a, b);
    }
  }

  lemma SameTail(x: string, y: string, t: string)
    requires x + t == y + t
    ensures x == y
  {
    assert |x| == |y|;
    assert forall i :: 0 <= i < |x| ==> x[i] == (x + t)[i] == (y + t)[i] == y[i];
  }

  lemma PrefixNumber(a: nat, b: nat)
    requires RowPrefix(a) == RowPrefix(b)
    ensures a == b
  {
    var p, q := NatToString(a), NatToString(b);
    assert RowPrefix(a) == "Row " + p + ": ";
    assert RowPrefix(b) == "Row " + q + ": ";
    assert |p| == |q|;
    assert forall i :: 0 <= i < |p| ==> p[i] == RowPrefix(a)[4 + i] == RowPrefix(b)[4 + i] == q[i];
    NatToStringInjective(a, b);
  }

  /** The four stripped cells the check reads from a row, and whether the date is in
      one of the accepted formats. */
  datatype RowCheck = RowCheck(scoutName: string, awardName: string, packNumber: string, date: string,
                               dateRecognized: bool)

  function CheckOf(row: Row): RowCheck
  {
    var date := Trim(Get(row, "Date"));
    RowCheck(Trim(Get(row, "Scout Name")), Trim(Get(row, "Award Name")), Trim(Get(row, "Pack Number")),
             date, Dates.IsValidDate(date))
  }

  function Checks(rows: seq<Row>): seq<RowCheck>
  {
    seq(|rows|, i requires 0 <= i < |rows| => CheckOf(rows[i]))
  }

  lemma ChecksAt(rows: seq<Row>)
    ensures |Checks(rows)| == |rows| && forall i :: 0 <= i < |rows| ==> Checks(rows)[i] == CheckOf(rows[i])
  {
  }

  /** The errors found in one row, numbered `idx`. */
  function RowErrors(c: RowCheck, idx: int): seq<Issue>
  {
    if c.scoutName == [] && c.awardName == [] then [ScoutNameRequired(idx), AwardNameRequired(idx)]
    else if c.scoutName == [] then [ScoutNameRequired(idx)]
    else if c.awardName == [] then [AwardNameRequired(idx)]
    else []
  }

  /** The warnings found in one row, numbered `idx`. */
  function RowWarnings(c: RowCheck, idx: int): seq<Issue>
  {
    var badDate := c.date != [] && !c.dateRecognized;
    if c.packNumber == [] && badDate then [PackNumberEmpty(idx), DateUnrecognized(idx, c.date)]
    else if c.packNumber == [] then [PackNumberEmpty(idx)]
    else if badDate then [DateUnrecognized(idx, c.date)]
    else []
  }

  /** The row errors of the first `n` rows, numbered from 2. */
  function RowsErrors(checks: seq<RowCheck>, n: nat): seq<Issue>
    requires n <= |checks|
  {
    if n == 0 then [] else RowsErrors(checks, n - 1) + RowErrors(checks[n - 1], n + 1)
  }

  /** The row warnings of the first `n` rows, numbered from 2. */
  function RowsWarnings(checks: seq<RowCheck>, n: nat): seq<Issue>
    requires n <= |checks|
  {
    if n == 0 then [] else RowsWarnings(checks, n - 1) + RowWarnings(checks[n - 1], n + 1)
  }

  /** The errors that concern the file as a whole: missing headers, then no rows. */
  function FileErrors(fieldnames: seq<string>, rows: seq<Row>): seq<Issue>
  {
    var missing := Missing(RequiredHeaders, fieldnames);
    (if missing != [] then [MissingHeaders(missing)] else []) + (if rows == [] then [NoRows] else [])
  }

  datatype Report = Report(headerCount: nat, rowCount: nat, errors: seq<Issue>, warnings: seq<Issue>, ok: bool)

  /** What `_build_validation_report` returns. */
  function ValidationReport(fieldnames: seq<string>, rows: seq<Row>): Report
  {
    var checks := Checks(rows);
    var errors := FileErrors(fieldnames, rows) + RowsErrors(checks, |rows|);
    Report(|fieldnames|, |rows|, errors, RowsWarnings(checks, |rows|), errors == [])
  }

  /** The cells the report reads from one row, stripped. */
  method CheckRow(row: Row) returns (c: RowCheck)
    ensures c == CheckOf(row)
  {
    var scoutName := Trim(Get(row, "Scout Name"));
    var awardName := Trim(Get(row, "Award Name"));
    var packNumber := Trim(Get(row, "Pack Number"));
    var dateValue := Trim(Get(row, "Date"));
    c := RowCheck(scoutName, awardName, packNumber, dateValue, Dates.IsValidDate(dateValue));
  }

  /** The body of the report's row loop: the row's errors and warnings, appended. */
  method AddRowIssues(errors: seq<Issue>, warnings: seq<Issue>, c: RowCheck, idx: int)
    returns (errors': seq<Issue>, warnings': seq<Issue>)
    ensures errors' == errors + RowErrors(c, idx)
    ensures warnings' == warnings + RowWarnings(c, idx)
  {
    errors', warnings' := errors, warnings;
    if c.scoutName == [] {
      errors' := errors' + [ScoutNameRequired(idx)];
    }
    if c.awardName == [] {
      errors' := errors' + [AwardNameRequired(idx)];
    }
    if c.packNumber == [] {
      warnings' := warnings' + [PackNumberEmpty(idx)];
    }
    if c.date != [] && !c.dateRecognized {
      warnings' := warnings' + [DateUnrecognized(idx, c.date)];
    }
  }

  lemma AppendAssoc<T>(a: seq<T>, b: seq<T>, c: seq<T>)
    ensures (a + b) + c == a + (b + c)
  {
  }

  /** `_build_validation_report`. */
  method BuildValidationReport(fieldnames: seq<string>, rows: seq<Row>) returns (report: Report)
    ensures report == ValidationReport(fieldnames, rows)
  {
    var errors: seq<Issue> := [];
    var missing := Missing(RequiredHeaders, fieldnames);
    if missing != [] {
      errors := errors + [MissingHeaders(missing)];
    }
    if rows == [] {
      errors := errors + [NoRows];
    }
    assert errors == FileErrors(fieldnames, rows);
    var warnings;
    errors, warnings := AddAllRowIssues(errors, rows);
    report := Report(|fieldnames|, |rows|, errors, warnings, |errors| == 0);
  }

  /** The report's loop over the rows, numbered from 2, appending to the errors found so
      far and to a fresh list of warnings. */
  method AddAllRowIssues(errors0: seq<Issue>, rows: seq<Row>) returns (errors: seq<Issue>, warnings: seq<Issue>)
    ensures errors == errors0 + RowsErrors(Checks(rows), |rows|)
    ensures warnings == RowsWarnings(Checks(rows), |rows|)
  {
    errors, warnings := errors0, [];
    ghost var cs: seq<RowCheck> := [];
    for i := 0 to |rows|
      invariant |cs| == i
      invariant forall j {:trigger CheckOf(rows[j])} :: 0 <= j < i ==> cs[j] == CheckOf(rows[j])
      invariant errors == errors0 + RowsErrors(cs, i)
      invariant warnings == RowsWarnings(cs, i)
    {
      var c := CheckRow(rows[i]);
      ghost var rowErrors := RowsErrors(cs, i);
      errors, warnings := AddRowIssues(errors, warnings, c, i + 2);
      AppendAssoc(errors0, rowErrors, RowErrors(c, i + 2));
      RowsIssuesSnoc(cs, c);
      ChecksSnoc(rows, cs, c);
      cs := cs + [c];
    }
    ChecksOf(rows, cs);
  }

  lemma RowsIssuesSnoc(cs: seq<RowCheck>, c: RowCheck)
    ensures RowsErrors(cs + [c], |cs| + 1) == RowsErrors(cs, |cs|) + RowErrors(c, |cs| + 2)
    ensures RowsWarnings(cs + [c], |cs| + 1) == RowsWarnings(cs, |cs|) + RowWarnings(c, |cs| + 2)
  {
    RowsPrefix(cs + [c], cs, |cs|);
  }

  lemma {:induction false} RowsPrefix(cs: seq<RowCheck>, ds: seq<RowCheck>, n: nat)
    requires n <= |cs| && n <= |ds| && cs[..n] == ds[..n]
    ensures RowsErrors(cs, n) == RowsErrors(ds, n)
    ensures RowsWarnings(cs, n) == RowsWarnings(ds, n)
  {
    if n > 0 {
      assert cs[n - 1] == cs[..n][n - 1] == ds[..n][n - 1] == ds[n - 1];
      assert cs[..n - 1] == cs[..n][..n - 1];
      assert ds[..n - 1] == ds[..n][..n - 1];
      RowsPrefix(cs, ds, n - 1);
    }
  }

  lemma ChecksSnoc(rows: seq<Row>, cs: seq<RowCheck>, c: RowCheck)
    requires |cs| < |rows|
    requires forall j {:trigger CheckOf(rows[j])} :: 0 <= j < |cs| ==> cs[j] == CheckOf(rows[j])
    requires c == CheckOf(rows[|cs|])
    ensures forall j {:trigger CheckOf(rows[j])} :: 0 <= j < |cs| + 1 ==> (cs + [c])[j] == CheckOf(rows[j])
  {
  }

  lemma ChecksOf(rows: seq<Row>, cs: seq<RowCheck>)
    requires |cs| == |rows|
    requires forall j {:trigger CheckOf(rows[j])} :: 0 <= j < |rows| ==> cs[j] == CheckOf(rows[j])
    ensures cs == Checks(rows)
  {
    forall j | 0 <= j < |rows|
      ensures cs[j] == Checks(rows)[j]
    {
      assert cs[j] == CheckOf(rows[j]);
    }
  }

  // ---------------------------------------------------------------------
  // Properties

  lemma ContainsAppend<T>(a: seq<T>, b: seq<T>, x: T)
    ensures x in a + b <==> x in a || x in b
  {
  }

  lemma RowsIssuesLast(checks: seq<RowCheck>, n: nat)
    requires 0 < n <= |checks|
    ensures RowsErrors(checks, n) == RowsErrors(checks, n - 1) + RowErrors(checks[n - 1], n + 1)
    ensures RowsWarnings(checks, n) == RowsWarnings(checks, n - 1) + RowWarnings(checks[n - 1], n + 1)
  {
  }

  /** The row errors name exactly the rows, numbered from 2, whose scout name or award
      name is blank, and hold nothing else. */
  lemma RowsErrorsMembership(checks: seq<RowCheck>, n: nat, k: int)
    requires n <= |checks|
    ensures ScoutNameRequired(k) in RowsErrors(checks, n) <==> 2 <= k < n + 2 && checks[k - 2].scoutName == []
    ensures AwardNameRequired(k) in RowsErrors(checks, n) <==> 2 <= k < n + 2 && checks[k - 2].awardName == []
    ensures forall e :: e in RowsErrors(checks, n) ==> e.ScoutNameRequired? || e.AwardNameRequired?
  {
    ScoutNameErrors(checks, n, k);
    AwardNameErrors(checks, n, k);
    ErrorKinds(checks, n);
  }

  lemma {:induction false} ScoutNameErrors(checks: seq<RowCheck>, n: nat, k: int)
    requires n <= |checks|
    ensures ScoutNameRequired(k) in RowsErrors(checks, n) <==> 2 <= k < n + 2 && checks[k - 2].scoutName == []
  {
    if n > 0 {
      ScoutNameErrors(checks, n - 1, k);
      var c := checks[n - 1];
      RowsIssuesLast(checks, n);
      ContainsAppend(RowsErrors(checks, n - 1), RowErrors(c, n + 1), ScoutNameRequired(k));
      assert ScoutNameRequired(k) in RowErrors(c, n + 1) <==> k == n + 1 && c.scoutName == [];
    }
  }

  lemma {:induction false} AwardNameErrors(checks: seq<RowCheck>, n: nat, k: int)
    requires n <= |checks|
    ensures AwardNameRequired(k) in RowsErrors(checks, n) <==> 2 <= k < n + 2 && checks[k - 2].awardName == []
  {
    if n > 0 {
      AwardNameErrors(checks, n - 1, k);
      var c := checks[n - 1];
      RowsIssuesLast(checks, n);
      ContainsAppend(RowsErrors(checks, n - 1), RowErrors(c, n + 1), AwardNameRequired(k));
      assert AwardNameRequired(k) in RowErrors(c, n + 1) <==> k == n + 1 && c.awardName == [];
    }
  }

  lemma {:induction false} ErrorKinds(checks: seq<RowCheck>, n: nat)
    requires n <= |checks|
    ensures forall e :: e in RowsErrors(checks, n) ==> e.ScoutNameRequired? || e.AwardNameRequired?
  {
    if n > 0 {
      ErrorKinds(checks, n - 1);
    }
  }

  /** The warnings name exactly the rows, numbered from 2, whose pack number is blank or
      whose date is non-blank and unrecognised, and hold nothing else; a blank date never
      warns. */
  lemma RowsWarningsMembership(checks: seq<RowCheck>, n: nat, k: int, d: string)
    requires n <= |checks|
    ensures PackNumberEmpty(k) in RowsWarnings(checks, n) <==> 2 <= k < n + 2 && checks[k - 2].packNumber == []
    ensures DateUnrecognized(k, d) in RowsWarnings(checks, n) <==>
      2 <= k < n + 2 && d == checks[k - 2].date && d != [] && !checks[k - 2].dateRecognized
    ensures forall w :: w in RowsWarnings(checks, n) ==> w.PackNumberEmpty? || w.DateUnrecognized?
  {
    PackNumberWarnings(checks, n, k);
    DateWarnings(checks, n, k, d);
    WarningKinds(checks, n);
  }

  lemma {:induction false} PackNumberWarnings(checks: seq<RowCheck>, n: nat, k: int)
    requires n <= |checks|
    ensures PackNumberEmpty(k) in RowsWarnings(checks, n) <==> 2 <= k < n + 2 && checks[k - 2].packNumber == []
  {
    if n > 0 {
      PackNumberWarnings(checks, n - 1, k);
      var c := checks[n - 1];
      RowsIssuesLast(checks, n);
      ContainsAppend(RowsWarnings(checks, n - 1), RowWarnings(c, n + 1), PackNumberEmpty(k));
      assert PackNumberEmpty(k) in RowWarnings(c, n + 1) <==> k == n + 1 && c.packNumber == [];
    }
  }

  lemma {:induction false} DateWarnings(checks: seq<RowCheck>, n: nat, k: int, d: string)
    requires n <= |checks|
    ensures DateUnrecognized(k, d) in RowsWarnings(checks, n) <==>
      2 <= k < n + 2 && d == checks[k - 2].date && d != [] && !checks[k - 2].dateRecognized
  {
    if n > 0 {
      DateWarnings(checks, n - 1, k, d);
      var c := checks[n - 1];
      RowsIssuesLast(checks, n);
      ContainsAppend(RowsWarnings(checks, n - 1), RowWarnings(c, n + 1), DateUnrecognized(k, d));
      RowDateWarning(c, n + 1, k, d);
    }
  }

  lemma RowDateWarning(c: RowCheck, idx: int, k: int, d: string)
    ensures DateUnrecognized(k, d) in RowWarnings(c, idx) <==> k == idx && d == c.date && d != [] && !c.dateRecognized
  {
  }

  lemma {:induction false} WarningKinds(checks: seq<RowCheck>, n: nat)
    requires n <= |checks|
    ensures forall w :: w in RowsWarnings(checks, n) ==> w.PackNumberEmpty? || w.DateUnrecognized?
  {
    if n > 0 {
      WarningKinds(checks, n - 1);
    }
  }

  /** No row error at all exactly when every row has a scout name and an award name. */
  lemma {:induction false} RowsErrorsEmpty(checks: seq<RowCheck>, n: nat)
    requires n <= |checks|
    ensures RowsErrors(checks, n) == [] <==>
      forall i :: 0 <= i < n ==> checks[i].scoutName != [] && checks[i].awardName != []
  {
    if n > 0 {
      RowsErrorsEmpty(checks, n - 1);
    }
  }

  /** The report lists exactly the rows, numbered from 2, whose stripped scout name or
      award name is blank as errors, and those whose stripped pack number is blank or
      whose stripped date is non-blank and in no accepted format as warnings. */
  lemma ReportRowIssues(fieldnames: seq<string>, rows: seq<Row>, k: int, d: string)
    ensures var report := ValidationReport(fieldnames, rows);
      && (ScoutNameRequired(k) in report.errors <==> 2 <= k < |rows| + 2 && Trim(Get(rows[k - 2], "Scout Name")) == [])
      && (AwardNameRequired(k) in report.errors <==> 2 <= k < |rows| + 2 && Trim(Get(rows[k - 2], "Award Name")) == [])
      && (PackNumberEmpty(k) in report.warnings <==> 2 <= k < |rows| + 2 && Trim(Get(rows[k - 2], "Pack Number")) == [])
      && (DateUnrecognized(k, d) in report.warnings <==>
            2 <= k < |rows| + 2 && d == Trim(Get(rows[k - 2], "Date")) && d != [] && !Dates.IsValidDate(d))
  {
    var checks := Checks(rows);
    ChecksAt(rows);
    var fileErrors, rowErrors := FileErrors(fieldnames, rows), RowsErrors(checks, |rows|);
    assert ValidationReport(fieldnames, rows).errors == fileErrors + rowErrors;
    RowsErrorsMembership(checks, |rows|, k);
    RowsWarningsMembership(checks, |rows|, k, d);
    ContainsAppend(fileErrors, rowErrors, ScoutNameRequired(k));
    ContainsAppend(fileErrors, rowErrors, AwardNameRequired(k));
    FileErrorsKinds(fieldnames, rows);
    if 2 <= k < |rows| + 2 {
      CheckOfFields(rows[k - 2]);
    }
  }

  lemma FileErrorsKinds(fieldnames: seq<string>, rows: seq<Row>)
    ensures forall e :: e in FileErrors(fieldnames, rows) ==> e.MissingHeaders? || e.NoRows?
  {
  }

  lemma CheckOfFields(row: Row)
    ensures CheckOf(row).scoutName == Trim(Get(row, "Scout Name"))
    ensures CheckOf(row).awardName == Trim(Get(row, "Award Name"))
    ensures CheckOf(row).packNumber == Trim(Get(row, "Pack Number"))
    ensures CheckOf(row).date == Trim(Get(row, "Date"))
    ensures CheckOf(row).dateRecognized == Dates.IsValidDate(Trim(Get(row, "Date")))
  {
  }

  /** The report passes exactly when every required header is present, there is a data
      row, and every row has a scout name and an award name; warnings never fail it. */
  lemma ReportOkIff(fieldnames: seq<string>, rows: seq<Row>)
    ensures var report := ValidationReport(fieldnames, rows);
      report.ok <==> report.errors == []
    ensures ValidationReport(fieldnames, rows).ok <==>
      && (forall h :: h in RequiredHeaders ==> h in fieldnames)
      && rows != []
      && (forall i :: 0 <= i < |rows| ==> Trim(Get(rows[i], "Scout Name")) != [] && Trim(Get(rows[i], "Award Name")) != [])
  {
    var checks := Checks(rows);
    ChecksAt(rows);
    RowsErrorsEmpty(checks, |rows|);
    var missing := Missing(RequiredHeaders, fieldnames);
    if missing != [] {
      assert missing[0] in missing;
    }
  }

  /** The file-level errors come first: missing headers, listed in required order, and
      then the lack of data rows. */
  lemma ReportFileErrors(fieldnames: seq<string>, rows: seq<Row>)
    ensures var errors := ValidationReport(fieldnames, rows).errors;
      var missing := Missing(RequiredHeaders, fieldnames);
      && (missing != [] ==> errors[0] == MissingHeaders(missing))
      && (rows == [] ==> NoRows in errors)
      && (forall hs :: MissingHeaders(hs) in errors ==> hs == missing && hs != [])
      && (NoRows in errors ==> rows == [])
  {
    var checks := Checks(rows);
    RowsErrorsMembership(checks, |rows|, 0);
    FileErrorsFirst(fieldnames, rows, RowsErrors(checks, |rows|));
  }

  lemma FileErrorsFirst(fieldnames: seq<string>, rows: seq<Row>, rowErrors: seq<Issue>)
    requires forall e :: e in rowErrors ==> e.ScoutNameRequired? || e.AwardNameRequired?
    ensures var errors := FileErrors(fieldnames, rows) + rowErrors;
      var missing := Missing(RequiredHeaders, fieldnames);
      && (missing != [] ==> errors[0] == MissingHeaders(missing))
      && (rows == [] ==> NoRows in errors)
      && (forall hs :: MissingHeaders(hs) in errors ==> hs == missing && hs != [])
      && (NoRows in errors ==> rows == [])
  {
    var fileErrors := FileErrors(fieldnames, rows);
    forall e | e in fileErrors + rowErrors
      ensures e.MissingHeaders? ==> e.headers == Missing(RequiredHeaders, fieldnames) && e.headers != []
      ensures e.NoRows? ==> rows == []
    {
      if e !in fileErrors {
        assert e in rowErrors;
      }
    }
  }

  /** A file that passes the check gives the generator a header row and at least one
      row, so neither of the generators' input errors can follow. */
  lemma ValidatedCsvReads(csv: Csv)
    requires var (fieldnames, rows) := ParseCsv(csv); ValidationReport(fieldnames, rows).ok
    ensures ReadRows(csv).Ok? && ReadRows(csv).value != []
    ensures ReadRows(csv).value == ParseCsv(csv).1
  {
    var (fieldnames, rows) := ParseCsv(csv);
    ReportOkIff(fieldnames, rows);
    assert "Date" in RequiredHeaders;
  }
}
