/** Rows as `csv.DictReader` really yields them: a data row with fewer cells than the
    header gets `None` for each missing trailing column. The validator and the
    rank-card generator read a cell as `(row.get(key) or "").strip()`, which treats
    `None` as empty; the certificate generator reads four of its cells as
    `row.get(key, "").strip()`, which fails on `None`. */
module ShortRows {
  import opened Text
  import opened Values
  import opened Rows
  import Validation

  /** A row straight from the reader: `None` marks a cell missing from a short row. */
  type RawRow = map<string, Option<string>>

  /** The exception the certificate generator's cell read raises on a missing cell. */
  datatype Failure = AttributeError

  /** `v or ""` for every cell: the row every other part of the model reads. */
  function Cells(raw: RawRow): Row
  {
    map k | k in raw :: raw[k].GetOr("")
  }

  lemma CellsAt(raw: RawRow, key: string)
    ensures Get(Cells(raw), key) == if key in raw then raw[key].GetOr("") else ""
  {
  }

  /** `row.get(key, "").strip()` as the certificate generator writes it for the scout
      name, pack number, den leader and cubmaster: an absent column reads as empty, but
      a column present with `None` raises. */
  function StrippedCellAsWritten(raw: RawRow, key: string): Result<string, Failure>
  {
    if key !in raw then Ok("")
    else if raw[key].None? then Err(AttributeError)
    else Ok(Trim(raw[key].value))
  }

  /** `(row.get(key) or "").strip()`: the reading the validator and the rank-card
      generator use, and the one `Rows.Normalize` applies to `Cells(raw)`. */
  function StrippedCell(raw: RawRow, key: string): string
  {
    Trim(Get(Cells(raw), key))
  }

  /** A row missing only its last cell, "Cubmaster". */
  const ShortRow: RawRow := map[
    "Date" := Some(""),
    "Pack Number" := Some("7"),
    "Den Leader" := Some("Lee"),
    "Cubmaster" := None,
    "Scout Name" := Some("Ada"),
    "Award Name" := Some("Bobcat")]

  /** The server's check passes a file whose one row lacks its "Cubmaster" cell, and
      the certificate generator then fails reading that cell. */
  lemma ShortRowPassesValidationButFails()
    ensures Validation.ValidationReport(Validation.RequiredHeaders, [Cells(ShortRow)]).ok
    ensures StrippedCellAsWritten(ShortRow, "Cubmaster") == Err(AttributeError)
  {
    ShortRowNamed();
    NamedRowPasses(Cells(ShortRow));
    ShortRowLacksCubmaster();
  }

  /** Under the full header, one row with a scout name and an award passes the check,
      whatever its other cells hold. */
  lemma NamedRowPasses(row: Row)
    requires Trim(Get(row, "Scout Name")) != [] && Trim(Get(row, "Award Name")) != []
    ensures Validation.ValidationReport(Validation.RequiredHeaders, [row]).ok
  {
    var rows := [row];
    assert forall i :: 0 <= i < |rows| ==> rows[i] == row;
    Validation.ReportOkIff(Validation.RequiredHeaders, rows);
  }

  lemma ShortRowLacksCubmaster()
    ensures StrippedCellAsWritten(ShortRow, "Cubmaster") == Err(AttributeError)
  {
  }

  /** The short row's scout and award cells are filled in. */
  lemma ShortRowNamed()
    ensures Trim(Get(Cells(ShortRow), "Scout Name")) != [] && Trim(Get(Cells(ShortRow), "Award Name")) != []
  {
    assert "Scout Name"[0] != "Award Name"[0];
    CellsAt(ShortRow, "Scout Name");
    CellsAt(ShortRow, "Award Name");
    TrimOfTrimmed("Ada");
    TrimOfTrimmed("Bobcat");
  }

  /** The corrected read never fails: it agrees with the written one wherever that one
      succeeds, and gives the empty string where that one raises. */
  lemma StrippedCellCorrects(raw: RawRow, key: string)
    ensures StrippedCellAsWritten(raw, key).Ok? ==> StrippedCellAsWritten(raw, key).value == StrippedCell(raw, key)
    ensures StrippedCellAsWritten(raw, key).Err? ==> key in raw && raw[key].None? && StrippedCell(raw, key) == ""
  {
    CellsAt(raw, key);
    if key in raw && raw[key].None? {
      TrimOfTrimmed("");
    }
  }
}
