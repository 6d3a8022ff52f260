/** CSV rows as the generators and the server see them once `csv.DictReader` has
    produced them: the blank-row filter, the row normaliser with its column fallbacks,
    and the split of rows into fixed-size pages. */
module Rows {
  import opened Text
  import opened Values
  import Dates

  /** One CSV row: column name to cell text. */
  type Row = map<string, string>

  /** `row.get(key, "")`, and equally `row.get(key) or ""`. */
  function Get(row: Row, key: string): string
  {
    if key in row then row[key] else ""
  }

  /** Python's `a or b` on two strings: `a` unless it is empty. A cell holding only
      blanks is not empty, so it wins over the fallback. */
  function Or(a: string, b: string): string
  {
    if a != [] then a else b
  }

  predicate IsTrimmed(s: string)
  {
    Trim(s) == s
  }

  /** A row after normalisation: every value stripped, the date normalised, and the
      legacy columns used when the primary ones are missing or empty. */
  datatype Record = Record(
    scoutName: string,
    date: string,
    packNumber: string,
    denNumber: string,
    award: string,
    denLeader: string,
    cubmaster: string)

  /** `(row.get("Award Name") or row.get("Rank") or "").strip()`. */
  function AwardOf(row: Row): string
  {
    Trim(Or(Get(row, "Award Name"), Get(row, "Rank")))
  }

  /** `(row.get("Den Number") or row.get("Den No.") or "").strip()`. */
  function DenNumberOf(row: Row): string
  {
    Trim(Or(Get(row, "Den Number"), Get(row, "Den No.")))
  }

  /** The seven values `_build_page_field_map` and the rank-card row loop read from a row. */
  function Normalize(row: Row): Record
  {
    Record(
      Trim(Get(row, "Scout Name")),
      Dates.FormatDate(Get(row, "Date")),
      Trim(Get(row, "Pack Number")),
      DenNumberOf(row),
      AwardOf(row),
      Trim(Get(row, "Den Leader")),
      Trim(Get(row, "Cubmaster")))
  }

  /** Each row of a page, normalised, in order. */
  function NormalizeAll(rows: seq<Row>): (r: seq<Record>)
    ensures |r| == |rows|
  {
    MapSeq(Normalize, rows)
  }

  /** Row `j` of the normalised page is row `j` normalised. */
  lemma NormalizeAllAt(rows: seq<Row>)
    ensures forall j :: 0 <= j < |rows| ==> NormalizeAll(rows)[j] == Normalize(rows[j])
  {
    forall j | 0 <= j < |rows|
      ensures NormalizeAll(rows)[j] == Normalize(rows[j])
    {
      MapSeqAt(Normalize, rows, j);
    }
  }

  /** Every normalised value is already stripped. */
  lemma NormalizeTrimmed(row: Row)
    ensures var r := Normalize(row);
      && IsTrimmed(r.scoutName) && IsTrimmed(r.date) && IsTrimmed(r.packNumber)
      && IsTrimmed(r.denNumber) && IsTrimmed(r.award)
      && IsTrimmed(r.denLeader) && IsTrimmed(r.cubmaster)
  {
    Dates.FormatDateIsTrimmed(Get(row, "Date"));
    TrimIdempotent(Get(row, "Scout Name"));
    TrimIdempotent(Get(row, "Pack Number"));
    TrimIdempotent(Or(Get(row, "Den Number"), Get(row, "Den No.")));
    TrimIdempotent(Or(Get(row, "Award Name"), Get(row, "Rank")));
    TrimIdempotent(Get(row, "Den Leader"));
    TrimIdempotent(Get(row, "Cubmaster"));
  }

  /** "Award Name" is preferred; "Rank" is used only when "Award Name" is missing or
      empty. A blank-but-not-empty "Award Name" therefore yields an empty award even
      when "Rank" is filled in; "Den Number" and "Den No." behave the same way. */
  lemma AwardAndDenFallback(row: Row)
    ensures Get(row, "Award Name") == [] ==> AwardOf(row) == Trim(Get(row, "Rank"))
    ensures Get(row, "Award Name") != [] ==> AwardOf(row) == Trim(Get(row, "Award Name"))
    ensures Get(row, "Award Name") != [] && AllSpace(Get(row, "Award Name")) ==> AwardOf(row) == []
    ensures Get(row, "Den Number") == [] ==> DenNumberOf(row) == Trim(Get(row, "Den No."))
    ensures Get(row, "Den Number") != [] && AllSpace(Get(row, "Den Number")) ==> DenNumberOf(row) == []
  {
    TrimEmptyIffAllSpace(Get(row, "Award Name"));
    TrimEmptyIffAllSpace(Get(row, "Den Number"));
  }

  // ---------------------------------------------------------------------
  // Blank-row filter

  /** `any((v or "").strip() for v in row.values())`: some cell is not blank. */
  predicate HasContent(row: Row)
  {
    exists k :: k in row && Trim(row[k]) != []
  }

  /** The list comprehension that drops rows whose every cell is blank. */
  function KeepRowsWithContent(rows: seq<Row>): (r: seq<Row>)
    ensures |r| <= |rows|
  {
    if rows == [] then []
    else (if HasContent(rows[0]) then [rows[0]] else []) + KeepRowsWithContent(rows[1..])
  }

  /** Every row the filter keeps has content. */
  lemma {:induction false} KeptRowsHaveContent(rows: seq<Row>)
    ensures forall i :: 0 <= i < |KeepRowsWithContent(rows)| ==> HasContent(KeepRowsWithContent(rows)[i])
  {
    if rows != [] {
      KeptRowsHaveContent(rows[1..]);
    }
  }

  /** A row survives the filter exactly when it is in the input and has content. */
  lemma {:induction false} KeepRowsMembership(rows: seq<Row>, row: Row)
    ensures row in KeepRowsWithContent(rows) <==> row in rows && HasContent(row)
  {
    if rows != [] {
      KeepRowsMembership(rows[1..], row);
      assert rows == [rows[0]] + rows[1..];
    }
  }

  /** The filter keeps order: filtering a concatenation concatenates the filtered parts. */
  lemma {:induction false} KeepRowsConcat(a: seq<Row>, b: seq<Row>)
    ensures KeepRowsWithContent(a + b) == KeepRowsWithContent(a) + KeepRowsWithContent(b)
  {
    if a != [] {
      assert (a + b)[1..] == a[1..] + b;
      KeepRowsConcat(a[1..], b);
    } else {
      assert a + b == b;
    }
  }

  /** Filtering rows that all have content changes nothing, so filtering twice is filtering once. */
  lemma {:induction false} KeepRowsIdempotent(rows: seq<Row>)
    ensures KeepRowsWithContent(KeepRowsWithContent(rows)) == KeepRowsWithContent(rows)
  {
    if rows != [] {
      KeepRowsIdempotent(rows[1..]);
      var rest := KeepRowsWithContent(rows[1..]);
      if HasContent(rows[0]) {
        var kept := [rows[0]] + rest;
        assert kept[0] == rows[0] && kept[1..] == rest;
        assert KeepRowsWithContent(kept) == [rows[0]] + KeepRowsWithContent(rest);
      } else {
        assert KeepRowsWithContent(rows) == rest;
      }
    }
  }

  // ---------------------------------------------------------------------
  // Reading the CSV

  /** What `csv.DictReader` yields: the header row's column names and the data rows. */
  datatype Csv = Csv(header: seq<string>, rows: seq<Row>)

  /** The errors the generators raise before or while producing pages. */
  datatype GenError = TemplateMissing | NoHeaderRow | NoDataRows | NoFieldPositions

  /** `_read_rows`: a CSV without a header row is an error; otherwise its rows with
      some non-blank cell, in order. */
  function ReadRows(csv: Csv): (r: Result<seq<Row>, GenError>)
    ensures csv.header == [] <==> r.Err?
    ensures r.Err? ==> r.error == NoHeaderRow
    ensures r.Ok? ==> r.value == KeepRowsWithContent(csv.rows)
  {
    if csv.header == [] then Err(NoHeaderRow) else Ok(KeepRowsWithContent(csv.rows))
  }

  // ---------------------------------------------------------------------
  // Pages

  /** `[rows[i : i + size] for i in range(0, len(rows), size)]`. */
  function Chunk<T>(s: seq<T>, size: nat): seq<seq<T>>
    requires size > 0
    decreases |s|
  {
    if s == [] then []
    else if |s| <= size then [s]
    else [s[..size]] + Chunk(s[size..], size)
  }

  function Flatten<T>(ss: seq<seq<T>>): seq<T>
  {
    if ss == [] then [] else ss[0] + Flatten(ss[1..])
  }

  /** `ceil(n / size)`, the number of pages `n` rows fill. */
  function PageCount(n: nat, size: nat): nat
    requires size > 0
  {
    (n + size - 1) / size
  }

  /** The chunks put back together are the rows, in order. */
  lemma {:induction false} ChunkFlatten<T>(s: seq<T>, size: nat)
    requires size > 0
    ensures Flatten(Chunk(s, size)) == s
    decreases |s|
  {
    if s != [] && |s| > size {
      ChunkFlatten(s[size..], size);
      assert s == s[..size] + s[size..];
    }
  }

  /** No chunk is empty or longer than `size`, and all but the last are full. */
  lemma {:induction false} ChunkSizes<T>(s: seq<T>, size: nat)
    requires size > 0
    ensures forall i :: 0 <= i < |Chunk(s, size)| ==> 0 < |Chunk(s, size)[i]| <= size
    ensures forall i :: 0 <= i < |Chunk(s, size)| - 1 ==> |Chunk(s, size)[i]| == size
    decreases |s|
  {
    if s != [] && |s| > size {
      ChunkSizes(s[size..], size);
    }
  }

  /** There are `ceil(len(rows) / size)` chunks: as many as the pages the generator loops over. */
  lemma {:induction false} ChunkCount<T>(s: seq<T>, size: nat)
    requires size > 0
    ensures |Chunk(s, size)| == PageCount(|s|, size)
    decreases |s|
  {
    if s != [] && |s| > size {
      ChunkCount(s[size..], size);
      DivStep(|s| - size + size - 1, size);
    } else if s != [] {
      assert size <= |s| + size - 1 < 2 * size;
      DivOne(|s| + size - 1, size);
    }
  }

  /** Chunk `i` is the slice the comprehension takes at `i * size`. */
  lemma {:induction false} ChunkAt<T>(s: seq<T>, size: nat, i: nat)
    requires size > 0 && i < |Chunk(s, size)|
    ensures i * size < |s|
    ensures Chunk(s, size)[i] == s[i * size .. if i * size + size <= |s| then i * size + size else |s|]
    decreases |s|
  {
    if |s| > size && i > 0 {
      ChunkAt(s[size..], size, i - 1);
      assert (i - 1) * size + size == i * size;
    }
  }

  lemma DivStep(a: nat, b: nat)
    requires b > 0
    ensures (a + b) / b == a / b + 1
  {
    var q, r := a / b, a % b;
    assert a == q * b + r;
    assert a + b == (q + 1) * b + r by { assert (q + 1) * b == q * b + b; }
    DivUnique(a + b, b, q + 1, r);
  }

  /** Euclidean division has one quotient: `x == q * b + r` with `0 <= r < b` fixes `q`. */
  lemma DivUnique(x: int, b: int, q: int, r: int)
    requires b > 0 && 0 <= r < b && x == q * b + r
    ensures x / b == q
  {
    var k := x / b - q;
    assert k * b == r - x % b by { assert x == (x / b) * b + x % b; assert k * b == (x / b) * b - q * b; }
  }

  lemma DivOne(a: nat, b: nat)
    requires b > 0 && b <= a < 2 * b
    ensures a / b == 1
  {
  }
}
