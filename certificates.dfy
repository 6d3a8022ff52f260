/** The certificate generator: which form field each CSV value goes into, where the
    template's fields are, how big the text may be, what is drawn on each page's
    overlay and how the pages are assembled. */
module Certificates {
  import opened Text
  import opened Values
  import opened Rows
  import opened Layout

  /** `FIELDS_PER_PAGE`: a certificate sheet holds eight awards. */
  const FieldsPerPage: nat := 8

  // ---------------------------------------------------------------------
  // Field names

  /** `_field_name`: the first copy of a field keeps the bare name, copy `i` is `<base>_<i>`. */
  function FieldName(base: string, index: nat): string
  {
    if index == 1 then base else base + "_" + NatToString(index)
  }

  /** What a form field holds for one row. */
  datatype Role = ScoutName | Date | PackNumber | DenNumber | Award | DenLeader | Cubmaster

  /** The fields written for each row, in the order `_build_page_field_map` writes them:
      the rank-template layout, or the award-certificate layout (which has no den number). */
  function Roles(rankMode: bool): (roles: seq<Role>)
    ensures rankMode ==> |roles| == 7
    ensures !rankMode ==> |roles| == 6 && DenNumber !in roles
  {
    if rankMode then [ScoutName, DenNumber, PackNumber, Date, DenLeader, Cubmaster, Award]
    else [ScoutName, Date, PackNumber, Award, DenLeader, Cubmaster]
  }

  lemma RolesDistinct(rankMode: bool, a: nat, b: nat)
    requires a < b < |Roles(rankMode)|
    ensures Roles(rankMode)[a] != Roles(rankMode)[b]
  {
  }

  function RoleValue(role: Role, rec: Record): string
  {
    match role
    case ScoutName => rec.scoutName
    case Date => rec.date
    case PackNumber => rec.packNumber
    case DenNumber => rec.denNumber
    case Award => rec.award
    case DenLeader => rec.denLeader
    case Cubmaster => rec.cubmaster
  }

  /** The base names of the award-certificate fields that follow `_field_name`. */
  function CertificateBase(role: Role): string
    requires role != ScoutName && role != DenNumber
  {
    match role
    case Date => "On"
    case PackNumber => "Cub Scout Pack"
    case Award => "for completing"
    case DenLeader => "Den Leader"
    case Cubmaster => "Cubmaster"
  }

  /** The names written as `f"<prefix>{i}"`: every rank-template field, and the
      certificate's scout name, which is `"name 1"` even for the first row. */
  function SpacedPrefix(rankMode: bool, role: Role): string
    requires rankMode || role == ScoutName
  {
    if !rankMode then "name "
    else
      match role
      case ScoutName => "Childs name "
      case DenNumber => "Den No "
      case PackNumber => "Pack No "
      case Date => "DATE "
      case DenLeader => "Den Leader "
      case Cubmaster => "Cubmaster "
      case Award => "Rank "
  }

  /** The form-field name that holds `role` for the `index`-th row of a page. */
  function FieldKey(rankMode: bool, role: Role, index: nat): string
    requires rankMode || role != DenNumber
  {
    if rankMode || role == ScoutName then SpacedPrefix(rankMode, role) + NatToString(index)
    else FieldName(CertificateBase(role), index)
  }

  // ---------------------------------------------------------------------
  // Reading the row number back out of a field name

  /** How many decimal digits `k` ends with. */
  function TrailingDigitCount(k: string): (n: nat)
    ensures n <= |k| && AllDigits(k[|k| - n..])
  {
    if k != [] && IsDigit(k[|k| - 1]) then
      var n := TrailingDigitCount(k[..|k| - 1]);
      assert k[|k| - 1 - n..] == k[..|k| - 1][|k| - 1 - n..] + [k[|k| - 1]];
      n + 1
    else 0
  }

  /** The row a field name belongs to: its trailing number, or 1 for a bare base name. */
  function KeyIndex(k: string): nat
  {
    var n := TrailingDigitCount(k);
    if n == 0 then 1 else ParseDigits(k[|k| - n..])
  }

  lemma {:induction false} TrailingDigitCountOf(p: string, d: string)
    requires AllDigits(d)
    requires p == [] || !IsDigit(p[|p| - 1])
    ensures TrailingDigitCount(p + d) == |d|
    decreases |d|
  {
    if d == [] {
      assert p + d == p;
    } else {
      var d' := d[..|d| - 1];
      assert (p + d)[..|p + d| - 1] == p + d';
      TrailingDigitCountOf(p, d');
    }
  }

  /** The stem and the digits a field name is made of. */
  function KeyStem(rankMode: bool, role: Role, index: nat): string
    requires rankMode || role != DenNumber
  {
    if rankMode || role == ScoutName then SpacedPrefix(rankMode, role)
    else if index == 1 then CertificateBase(role)
    else CertificateBase(role) + "_"
  }

  function KeyDigits(rankMode: bool, role: Role, index: nat): string
  {
    if !rankMode && role != ScoutName && index == 1 then "" else NatToString(index)
  }

  lemma KeyParts(rankMode: bool, role: Role, index: nat)
    requires rankMode || role != DenNumber
    ensures FieldKey(rankMode, role, index) == KeyStem(rankMode, role, index) + KeyDigits(rankMode, role, index)
    ensures var stem := KeyStem(rankMode, role, index); stem != [] && !IsDigit(stem[|stem| - 1])
    ensures TrailingDigitCount(FieldKey(rankMode, role, index)) == |KeyDigits(rankMode, role, index)|
  {
    var stem, digits := KeyStem(rankMode, role, index), KeyDigits(rankMode, role, index);
    assert stem + digits == FieldKey(rankMode, role, index) by {
      if !rankMode && role != ScoutName && index == 1 { assert stem + [] == stem; }
    }
    TrailingDigitCountOf(stem, digits);
  }

  /** Every field name written for row `index` reads back as row `index`. */
  lemma FieldKeyIndex(rankMode: bool, role: Role, index: nat)
    requires rankMode || role != DenNumber
    requires index >= 1
    ensures KeyIndex(FieldKey(rankMode, role, index)) == index
  {
    KeyParts(rankMode, role, index);
    var k := FieldKey(rankMode, role, index);
    var digits := KeyDigits(rankMode, role, index);
    if digits != [] {
      assert k[|k| - |digits|..] == digits;
      ParseNatToString(index);
    }
  }

  /** The part of a field name before its trailing row number. */
  function StemOf(k: string): string
  {
    k[..|k| - TrailingDigitCount(k)]
  }

  lemma StemOfKey(rankMode: bool, role: Role, index: nat)
    requires rankMode || role != DenNumber
    ensures StemOf(FieldKey(rankMode, role, index)) == KeyStem(rankMode, role, index)
  {
    KeyParts(rankMode, role, index);
  }

  /** The stems of one row's fields tell them apart by length or first letter. */
  lemma StemsDiffer(rankMode: bool, r1: Role, r2: Role, index: nat)
    requires rankMode || (r1 != DenNumber && r2 != DenNumber)
    requires r1 != r2
    ensures KeyStem(rankMode, r1, index) != KeyStem(rankMode, r2, index)
  {
    var s1, s2 := KeyStem(rankMode, r1, index), KeyStem(rankMode, r2, index);
    assert |s1| != |s2| || s1[0] != s2[0];
  }

  /** Different fields of one row have different names. */
  lemma FieldKeysOfRowDiffer(rankMode: bool, r1: Role, r2: Role, index: nat)
    requires rankMode || (r1 != DenNumber && r2 != DenNumber)
    requires r1 != r2
    ensures FieldKey(rankMode, r1, index) != FieldKey(rankMode, r2, index)
  {
    StemOfKey(rankMode, r1, index);
    StemOfKey(rankMode, r2, index);
    StemsDiffer(rankMode, r1, r2, index);
  }

  /** No two fields of a page share a name: a name determines its role and row. */
  lemma FieldKeyInjective(rankMode: bool, r1: Role, i1: nat, r2: Role, i2: nat)
    requires rankMode || (r1 != DenNumber && r2 != DenNumber)
    requires i1 >= 1 && i2 >= 1
    requires FieldKey(rankMode, r1, i1) == FieldKey(rankMode, r2, i2)
    ensures r1 == r2 && i1 == i2
  {
    FieldKeyIndex(rankMode, r1, i1);
    FieldKeyIndex(rankMode, r2, i2);
    if r1 != r2 {
      FieldKeysOfRowDiffer(rankMode, r1, r2, i1);
    }
  }

  /** `_field_name` is undone by reading the row number back, for the bases the
      certificate uses (none of which ends in a digit). */
  lemma FieldNameIndex(role: Role, index: nat)
    requires role != ScoutName && role != DenNumber && index >= 1
    ensures KeyIndex(FieldName(CertificateBase(role), index)) == index
    ensures index == 1 ==> FieldName(CertificateBase(role), index) == CertificateBase(role)
  {
    FieldKeyIndex(false, role, index);
  }

  // ---------------------------------------------------------------------
  // The page field map: an insertion-ordered dictionary

  /** A Python dict from field name to text, in insertion order. */
  type FieldMap = seq<(string, string)>

  predicate Absent(d: FieldMap, k: string)
  {
    forall j :: 0 <= j < |d| ==> d[j].0 != k
  }

  predicate DistinctKeys(d: FieldMap)
  {
    forall a, b :: 0 <= a < b < |d| ==> d[a].0 != d[b].0
  }

  /** `d[k] = v`: a new key goes at the end, an existing one keeps its place. */
  function Assign(d: FieldMap, k: string, v: string): FieldMap
  {
    if d == [] then [(k, v)]
    else if d[0].0 == k then [(k, v)] + d[1..]
    else [d[0]] + Assign(d[1..], k, v)
  }

  /** Assigning a key not yet in the dict appends it. */
  lemma {:induction false} AssignFresh(d: FieldMap, k: string, v: string)
    requires Absent(d, k)
    ensures Assign(d, k, v) == d + [(k, v)]
  {
    if d != [] {
      AssignFresh(d[1..], k, v);
    }
  }

  /** `d.get(k)`. */
  function Lookup(d: FieldMap, k: string): Option<string>
  {
    if d == [] then None else if d[0].0 == k then Some(d[0].1) else Lookup(d[1..], k)
  }

  /** After `d[k] = v`, `d[k]` is `v` and every other key reads as before. */
  lemma {:induction false} LookupAssign(d: FieldMap, k: string, v: string, k': string)
    ensures Lookup(Assign(d, k, v), k') == if k' == k then Some(v) else Lookup(d, k')
  {
    if d != [] && d[0].0 != k {
      LookupAssign(d[1..], k, v, k');
    }
  }

  /** The entries `_build_page_field_map` writes for one row. */
  function RowEntries(rec: Record, index: nat, rankMode: bool): (r: FieldMap)
    ensures |r| == |Roles(rankMode)|
  {
    var roles := Roles(rankMode);
    seq(|roles|, j requires 0 <= j < |roles| => (FieldKey(rankMode, roles[j], index), RoleValue(roles[j], rec)))
  }

  /** The entries for a page of normalised rows, row 1 first. */
  function PageEntries(recs: seq<Record>, rankMode: bool): (r: FieldMap)
    ensures |r| == if rankMode then 7 * |recs| else 6 * |recs|
  {
    if recs == [] then []
    else PageEntries(recs[..|recs| - 1], rankMode) + RowEntries(recs[|recs| - 1], |recs|, rankMode)
  }

  /** `has_rank_fields`: the template is a rank template when it has both "Den No 1"
      and "Childs name 1". */
  predicate IsRankTemplate(fieldNames: set<string>)
  {
    "Den No 1" in fieldNames && "Childs name 1" in fieldNames
  }

  /** Every field name on a page belongs to one of the page's rows `1..len(rows)`. */
  lemma {:induction false} PageEntriesRows(recs: seq<Record>, rankMode: bool)
    ensures forall j :: 0 <= j < |PageEntries(recs, rankMode)| ==>
              1 <= KeyIndex(PageEntries(recs, rankMode)[j].0) <= |recs|
  {
    if recs != [] {
      var n := |recs|;
      var prev := PageEntries(recs[..n - 1], rankMode);
      var row := RowEntries(recs[n - 1], n, rankMode);
      PageEntriesRows(recs[..n - 1], rankMode);
      forall j | 0 <= j < |row|
        ensures KeyIndex(row[j].0) == n
      {
        FieldKeyIndex(rankMode, Roles(rankMode)[j], n);
      }
      assert PageEntries(recs, rankMode) == prev + row;
    }
  }

  /** The names written for one row are distinct and all read back as that row. */
  lemma RowEntriesKeys(rec: Record, n: nat, rankMode: bool)
    requires n >= 1
    ensures var row := RowEntries(rec, n, rankMode);
      DistinctKeys(row) && forall j :: 0 <= j < |row| ==> KeyIndex(row[j].0) == n
  {
    RowEntriesIndex(rec, n, rankMode);
    RowEntriesDistinct(rec, n, rankMode);
  }

  lemma RowEntriesIndex(rec: Record, n: nat, rankMode: bool)
    requires n >= 1
    ensures var row := RowEntries(rec, n, rankMode);
      forall j :: 0 <= j < |row| ==> KeyIndex(row[j].0) == n
  {
    var row := RowEntries(rec, n, rankMode);
    forall j | 0 <= j < |row|
      ensures KeyIndex(row[j].0) == n
    {
      RowEntryAt(rec, n, rankMode, j);
      FieldKeyIndex(rankMode, Roles(rankMode)[j], n);
    }
  }

  lemma RowEntriesDistinct(rec: Record, n: nat, rankMode: bool)
    ensures DistinctKeys(RowEntries(rec, n, rankMode))
  {
    var row := RowEntries(rec, n, rankMode);
    forall a, b | 0 <= a < b < |row|
      ensures row[a].0 != row[b].0
    {
      RowEntryAt(rec, n, rankMode, a);
      RowEntryAt(rec, n, rankMode, b);
      RolesDistinct(rankMode, a, b);
      FieldKeysOfRowDiffer(rankMode, Roles(rankMode)[a], Roles(rankMode)[b], n);
    }
  }

  lemma RowEntryAt(rec: Record, n: nat, rankMode: bool, j: nat)
    requires j < |Roles(rankMode)|
    ensures var role := Roles(rankMode)[j];
      RowEntries(rec, n, rankMode)[j] == (FieldKey(rankMode, role, n), RoleValue(role, rec))
      && (rankMode || role != DenNumber)
  {
  }

  /** Appending a row whose names all read as row `n` to entries of earlier rows keeps
      the names distinct. */
  lemma DistinctAppend(prev: FieldMap, row: FieldMap, n: nat)
    requires DistinctKeys(prev) && DistinctKeys(row)
    requires forall j :: 0 <= j < |prev| ==> KeyIndex(prev[j].0) < n
    requires forall j :: 0 <= j < |row| ==> KeyIndex(row[j].0) == n
    ensures DistinctKeys(prev + row)
  {
    var all := prev + row;
    forall a, b | 0 <= a < b < |all|
      ensures all[a].0 != all[b].0
    {
      if a < |prev| && b >= |prev| {
        assert KeyIndex(all[a].0) < n == KeyIndex(all[b].0);
      }
    }
  }

  /** All field names on a page are distinct, so the dict has exactly 6 or 7 entries
      per row. */
  lemma {:induction false} PageEntriesDistinct(recs: seq<Record>, rankMode: bool)
    ensures DistinctKeys(PageEntries(recs, rankMode))
  {
    if recs != [] {
      var n := |recs|;
      PageEntriesDistinct(recs[..n - 1], rankMode);
      PageEntriesRows(recs[..n - 1], rankMode);
      RowEntriesKeys(recs[n - 1], n, rankMode);
      DistinctAppend(PageEntries(recs[..n - 1], rankMode), RowEntries(recs[n - 1], n, rankMode), n);
    }
  }

  /** Within one row, the field for `role` holds that role's value. */
  lemma RowLookup(rec: Record, n: nat, rankMode: bool, role: Role)
    requires role in Roles(rankMode)
    ensures Lookup(RowEntries(rec, n, rankMode), FieldKey(rankMode, role, n)) == Some(RoleValue(role, rec))
  {
    var row := RowEntries(rec, n, rankMode);
    var roles := Roles(rankMode);
    var j :| 0 <= j < |roles| && roles[j] == role;
    forall t | 0 <= t < j
      ensures row[t].0 != FieldKey(rankMode, role, n)
    {
      RowEntryAt(rec, n, rankMode, t);
      RolesDistinct(rankMode, t, j);
      FieldKeysOfRowDiffer(rankMode, roles[t], role, n);
    }
    RowEntryAt(rec, n, rankMode, j);
    LookupAt(row, FieldKey(rankMode, role, n), j);
  }

  /** Looking up the field for `role` on row `i` finds that row's value. */
  lemma {:induction false} PageLookup(recs: seq<Record>, rankMode: bool, role: Role, i: nat)
    requires role in Roles(rankMode)
    requires 1 <= i <= |recs|
    ensures Lookup(PageEntries(recs, rankMode), FieldKey(rankMode, role, i)) == Some(RoleValue(role, recs[i - 1]))
  {
    if i < |recs| {
      var pre := recs[..|recs| - 1];
      PageLookup(pre, rankMode, role, i);
      assert pre[i - 1] == recs[i - 1];
      EarlierRowLookup(recs, rankMode, FieldKey(rankMode, role, i), RoleValue(role, pre[i - 1]));
    } else {
      LastRowLookup(recs, rankMode, role);
    }
  }

  /** A field already on the page reads the same once the last row is appended. */
  lemma EarlierRowLookup(recs: seq<Record>, rankMode: bool, k: string, v: string)
    requires recs != [] && Lookup(PageEntries(recs[..|recs| - 1], rankMode), k) == Some(v)
    ensures Lookup(PageEntries(recs, rankMode), k) == Some(v)
  {
    PageEntriesLast(recs, rankMode);
    LookupPrefix(PageEntries(recs[..|recs| - 1], rankMode), RowEntries(recs[|recs| - 1], |recs|, rankMode), k);
  }

  lemma PageEntriesLast(recs: seq<Record>, rankMode: bool)
    requires recs != []
    ensures PageEntries(recs, rankMode)
         == PageEntries(recs[..|recs| - 1], rankMode) + RowEntries(recs[|recs| - 1], |recs|, rankMode)
  {
  }

  lemma LastRowLookup(recs: seq<Record>, rankMode: bool, role: Role)
    requires role in Roles(rankMode)
    requires recs != []
    ensures Lookup(PageEntries(recs, rankMode), FieldKey(rankMode, role, |recs|)) == Some(RoleValue(role, recs[|recs| - 1]))
  {
    var n := |recs|;
    var prev := PageEntries(recs[..n - 1], rankMode);
    var row := RowEntries(recs[n - 1], n, rankMode);
    var k := FieldKey(rankMode, role, n);
    assert PageEntries(recs, rankMode) == prev + row;
    PageEntriesRows(recs[..n - 1], rankMode);
    FieldKeyIndex(rankMode, role, n);
    forall j | 0 <= j < |prev|
      ensures prev[j].0 != k
    {
      assert KeyIndex(prev[j].0) < n;
    }
    LookupSkip(prev, row, k);
    RowLookup(recs[n - 1], n, rankMode, role);
  }

  lemma {:induction false} LookupPrefix(a: FieldMap, b: FieldMap, k: string)
    requires Lookup(a, k).Some?
    ensures Lookup(a + b, k) == Lookup(a, k)
  {
    if a[0].0 != k {
      assert (a + b)[1..] == a[1..] + b;
      LookupPrefix(a[1..], b, k);
    }
  }

  lemma {:induction false} LookupSkip(a: FieldMap, b: FieldMap, k: string)
    requires Absent(a, k)
    ensures Lookup(a + b, k) == Lookup(b, k)
  {
    if a != [] {
      assert (a + b)[1..] == a[1..] + b;
      LookupSkip(a[1..], b, k);
    } else {
      assert a + b == b;
    }
  }

  lemma {:induction false} LookupAt(d: FieldMap, k: string, j: nat)
    requires j < |d| && d[j].0 == k
    requires forall t :: 0 <= t < j ==> d[t].0 != k
    ensures Lookup(d, k) == Some(d[j].1)
  {
    if j > 0 {
      LookupAt(d[1..], k, j - 1);
    }
  }

  /** Writing the entries of the next row one by one appends them, since none of their
      names is on the page yet. */
  lemma AssignNext(prev: FieldMap, row: FieldMap, j: nat)
    requires j < |row| && DistinctKeys(prev + row)
    ensures Assign(prev + row[..j], row[j].0, row[j].1) == prev + row[..j + 1]
  {
    var d := prev + row[..j];
    var all := prev + row;
    forall t | 0 <= t < |d|
      ensures d[t].0 != row[j].0
    {
      assert d[t] == all[t] && row[j] == all[|prev| + j];
    }
    AssignFresh(d, row[j].0, row[j].1);
    assert d + [row[j]] == prev + row[..j + 1];
  }

  /** `_build_page_field_map`: the field-name to text dict for one page of rows. */
  method BuildPageFieldMap(rows: seq<Row>, fieldNames: set<string>) returns (fieldMap: FieldMap)
    ensures fieldMap == PageEntries(NormalizeAll(rows), IsRankTemplate(fieldNames))
  {
    var hasRankFields := "Den No 1" in fieldNames && "Childs name 1" in fieldNames;
    NormalizeAllAt(rows);
    fieldMap := WriteRows(rows, hasRankFields, Normalize, NormalizeAll(rows));
  }

  /** The loop of `_build_page_field_map`, with `recs` the rows it normalises. The
      loop is proved for any row normaliser `normalize`, so its proof never looks into
      what normalising a row does. */
  method WriteRows(rows: seq<Row>, hasRankFields: bool, normalize: Row -> Record, ghost recs: seq<Record>)
    returns (fieldMap: FieldMap)
    requires |recs| == |rows|
    requires forall j :: 0 <= j < |rows| ==> recs[j] == normalize(rows[j])
    ensures fieldMap == PageEntries(recs, hasRankFields)
  {
    fieldMap := [];
    for i := 1 to |rows| + 1
      invariant fieldMap == PageEntries(recs[..i - 1], hasRankFields)
    {
      // The seven stripped values of the row, with the date normalised.
      var rec := normalize(rows[i - 1]);
      fieldMap := WriteRow(fieldMap, rec, i, hasRankFields, recs);
    }
    assert recs[..|rows|] == recs;
  }

  /** The assignments for row `i`, for the kind of template at hand. */
  method WriteRow(prev: FieldMap, rec: Record, i: nat, hasRankFields: bool, ghost recs: seq<Record>)
    returns (fieldMap: FieldMap)
    requires 1 <= i <= |recs| && rec == recs[i - 1]
    requires prev == PageEntries(recs[..i - 1], hasRankFields)
    ensures fieldMap == PageEntries(recs[..i], hasRankFields)
  {
    NextPage(recs, i, hasRankFields);
    PageEntriesDistinct(recs[..i], hasRankFields);
    if hasRankFields {
      fieldMap := WriteRankRow(prev, rec, i);
    } else {
      fieldMap := WriteCertificateRow(prev, rec, i);
    }
  }

  /** The assignments for one row of a rank template. */
  method WriteRankRow(prev: FieldMap, rec: Record, i: nat) returns (fieldMap: FieldMap)
    requires DistinctKeys(prev + RowEntries(rec, i, true))
    ensures fieldMap == prev + RowEntries(rec, i, true)
  {
    ghost var entries := RowEntries(rec, i, true);
    AppendsOneByOne(prev, entries);
    RankRowSpelled(rec, i);
    fieldMap := prev;
    fieldMap := Assign(fieldMap, "Childs name " + NatToString(i), rec.scoutName);
    assert fieldMap == prev + entries[..1];
    fieldMap := Assign(fieldMap, "Den No " + NatToString(i), rec.denNumber);
    assert fieldMap == prev + entries[..2];
    fieldMap := Assign(fieldMap, "Pack No " + NatToString(i), rec.packNumber);
    assert fieldMap == prev + entries[..3];
    fieldMap := Assign(fieldMap, "DATE " + NatToString(i), rec.date);
    assert fieldMap == prev + entries[..4];
    fieldMap := Assign(fieldMap, "Den Leader " + NatToString(i), rec.denLeader);
    assert fieldMap == prev + entries[..5];
    fieldMap := Assign(fieldMap, "Cubmaster " + NatToString(i), rec.cubmaster);
    assert fieldMap == prev + entries[..6];
    // Some rank templates expose the rank label as a fillable field.
    fieldMap := Assign(fieldMap, "Rank " + NatToString(i), rec.award);
    assert fieldMap == prev + entries[..7];
  }

  /** The assignments for one row of an award certificate. */
  method WriteCertificateRow(prev: FieldMap, rec: Record, i: nat) returns (fieldMap: FieldMap)
    requires DistinctKeys(prev + RowEntries(rec, i, false))
    ensures fieldMap == prev + RowEntries(rec, i, false)
  {
    ghost var entries := RowEntries(rec, i, false);
    AppendsOneByOne(prev, entries);
    CertificateRowSpelled(rec, i);
    fieldMap := prev;
    fieldMap := Assign(fieldMap, "name " + NatToString(i), rec.scoutName);
    assert fieldMap == prev + entries[..1];
    fieldMap := Assign(fieldMap, FieldName("On", i), rec.date);
    assert fieldMap == prev + entries[..2];
    fieldMap := Assign(fieldMap, FieldName("Cub Scout Pack", i), rec.packNumber);
    assert fieldMap == prev + entries[..3];
    fieldMap := Assign(fieldMap, FieldName("for completing", i), rec.award);
    assert fieldMap == prev + entries[..4];
    fieldMap := Assign(fieldMap, FieldName("Den Leader", i), rec.denLeader);
    assert fieldMap == prev + entries[..5];
    fieldMap := Assign(fieldMap, FieldName("Cubmaster", i), rec.cubmaster);
    assert fieldMap == prev + entries[..6];
  }

  /** The entries of one rank-template row, spelled out as the generator writes them. */
  lemma RankRowSpelled(rec: Record, i: nat)
    ensures var e := RowEntries(rec, i, true);
      && e[0] == ("Childs name " + NatToString(i), rec.scoutName)
      && e[1] == ("Den No " + NatToString(i), rec.denNumber)
      && e[2] == ("Pack No " + NatToString(i), rec.packNumber)
      && e[3] == ("DATE " + NatToString(i), rec.date)
      && e[4] == ("Den Leader " + NatToString(i), rec.denLeader)
      && e[5] == ("Cubmaster " + NatToString(i), rec.cubmaster)
      && e[6] == ("Rank " + NatToString(i), rec.award)
  {
  }

  /** The entries of one award-certificate row, spelled out as the generator writes them. */
  lemma CertificateRowSpelled(rec: Record, i: nat)
    ensures var e := RowEntries(rec, i, false);
      && e[0] == ("name " + NatToString(i), rec.scoutName)
      && e[1] == (FieldName("On", i), rec.date)
      && e[2] == (FieldName("Cub Scout Pack", i), rec.packNumber)
      && e[3] == (FieldName("for completing", i), rec.award)
      && e[4] == (FieldName("Den Leader", i), rec.denLeader)
      && e[5] == (FieldName("Cubmaster", i), rec.cubmaster)
  {
  }

  lemma NextPage(recs: seq<Record>, i: nat, rankMode: bool)
    requires 1 <= i <= |recs|
    ensures PageEntries(recs[..i], rankMode) == PageEntries(recs[..i - 1], rankMode) + RowEntries(recs[i - 1], i, rankMode)
  {
    assert recs[..i][..i - 1] == recs[..i - 1];
    assert recs[..i][i - 1] == recs[i - 1];
  }

  /** Writing the entries of a row one at a time appends each of them, when no name
      repeats. */
  lemma AppendsOneByOne(prev: FieldMap, row: FieldMap)
    requires DistinctKeys(prev + row)
    ensures prev + row[..0] == prev && prev + row[..|row|] == prev + row
    ensures forall j :: 0 <= j < |row| ==> Assign(prev + row[..j], row[j].0, row[j].1) == prev + row[..j + 1]
  {
    forall j | 0 <= j < |row|
      ensures Assign(prev + row[..j], row[j].0, row[j].1) == prev + row[..j + 1]
    {
      AssignNext(prev, row, j);
    }
  }

  /** The page dict of normalised rows has one entry per field of every row (6 per
      certificate, 7 per rank card row), no name twice, each name reads back as its row,
      and each field holds that row's normalised value. */
  lemma PageContents(recs: seq<Record>, rankMode: bool, role: Role, i: nat)
    requires role in Roles(rankMode) && 1 <= i <= |recs|
    ensures |PageEntries(recs, rankMode)| == if rankMode then 7 * |recs| else 6 * |recs|
    ensures DistinctKeys(PageEntries(recs, rankMode))
    ensures forall j :: 0 <= j < |PageEntries(recs, rankMode)| ==> 1 <= KeyIndex(PageEntries(recs, rankMode)[j].0) <= |recs|
    ensures Lookup(PageEntries(recs, rankMode), FieldKey(rankMode, role, i)) == Some(RoleValue(role, recs[i - 1]))
  {
    PageEntriesDistinct(recs, rankMode);
    PageEntriesRows(recs, rankMode);
    PageLookup(recs, rankMode, role, i);
  }

  // ---------------------------------------------------------------------
  // Field positions

  /** A widget annotation or an AcroForm field as the template presents it: its `/T`
      name, its `/Rect` array, and the `/R` entry of its `/MK` dictionary. */
  datatype PdfField = PdfField(name: Option<string>, rect: Option<seq<real>>, mkRotation: Option<int>)

  /** `{"rect": rect, "rotation": rotation}`: where a field sits on the page. */
  datatype Position = Position(rect: seq<real>, rotation: int)

  /** An entry is used when it has a non-empty name and a four-number rectangle. */
  predicate Usable(f: PdfField)
  {
    f.name.Some? && f.name.value != [] && f.rect.Some? && |f.rect.value| == 4
  }

  /** The position of a usable entry; without an `/MK /R` entry the rotation is 0. */
  function PositionOf(f: PdfField): (p: Position)
    requires Usable(f)
    ensures p.rect == f.rect.value && |p.rect| == 4
    ensures f.mkRotation.None? ==> p.rotation == 0
    ensures f.mkRotation.Some? ==> p.rotation == f.mkRotation.value
  {
    Position(f.rect.value, f.mkRotation.GetOr(0))
  }

  /** The dict one pass over `entries` builds: usable entries in order, a later entry
      with the same name replacing an earlier one. */
  function Collect(entries: seq<PdfField>): map<string, Position>
  {
    if entries == [] then map[]
    else
      var fields := Collect(entries[..|entries| - 1]);
      var f := entries[|entries| - 1];
      if Usable(f) then fields[f.name.value := PositionOf(f)] else fields
  }

  /** Every collected position has a four-number rectangle. */
  predicate WellFormed(positions: map<string, Position>)
  {
    forall k :: k in positions ==> |positions[k].rect| == 4
  }

  /** A name is collected exactly when some usable entry carries it, and then with the
      position of the last such entry. */
  lemma {:induction false} CollectContents(entries: seq<PdfField>, k: string)
    ensures k in Collect(entries) <==> exists j :: 0 <= j < |entries| && Usable(entries[j]) && entries[j].name.value == k
    ensures k in Collect(entries) ==> |Collect(entries)[k].rect| == 4
    ensures forall j :: 0 <= j < |entries| && Usable(entries[j]) && entries[j].name.value == k
                        && (forall l :: j < l < |entries| && Usable(entries[l]) ==> entries[l].name.value != k)
                        ==> k in Collect(entries) && Collect(entries)[k] == PositionOf(entries[j])
  {
    if entries != [] {
      var n := |entries|;
      var init := entries[..n - 1];
      CollectContents(init, k);
      assert forall j :: 0 <= j < n - 1 ==> init[j] == entries[j];
    }
  }

  lemma CollectWellFormed(entries: seq<PdfField>)
    ensures WellFormed(Collect(entries))
  {
    forall k | k in Collect(entries)
      ensures |Collect(entries)[k].rect| == 4
    {
      CollectContents(entries, k);
    }
  }

  /** `_extract_field_positions`, as a value: the annotations when one of them is usable,
      otherwise the AcroForm fields, and an error when neither gives a position. */
  function FieldPositions(annots: Option<seq<PdfField>>, acroFields: Option<seq<PdfField>>): (r: Result<map<string, Position>, GenError>)
    ensures r.Ok? ==> r.value != map[] && WellFormed(r.value)
    ensures r.Err? ==> r.error == NoFieldPositions
    ensures annots.Some? && Collect(annots.value) != map[] ==> r == Ok(Collect(annots.value))
  {
    if annots.Some? && Collect(annots.value) != map[] then
      CollectWellFormed(annots.value);
      Ok(Collect(annots.value))
    else if acroFields.Some? && Collect(acroFields.value) != map[] then
      CollectWellFormed(acroFields.value);
      Ok(Collect(acroFields.value))
    else Err(NoFieldPositions)
  }

  /** The AcroForm fields are consulted only when no annotation was usable, and finding
      nothing at all is the error. */
  lemma FieldPositionsFallback(annots: Option<seq<PdfField>>, acroFields: Option<seq<PdfField>>)
    requires annots.None? || Collect(annots.value) == map[]
    ensures acroFields.Some? && Collect(acroFields.value) != map[] ==> FieldPositions(annots, acroFields) == Ok(Collect(acroFields.value))
    ensures acroFields.None? || Collect(acroFields.value) == map[] ==> FieldPositions(annots, acroFields) == Err(NoFieldPositions)
  {
  }

  /** The loop over one list of entries that fills `fields`. */
  method CollectPositions(entries: seq<PdfField>, fields0: map<string, Position>) returns (fields: map<string, Position>)
    requires fields0 == map[]
    ensures fields == Collect(entries)
  {
    fields := fields0;
    for i := 0 to |entries|
      invariant fields == Collect(entries[..i])
    {
      assert entries[..i + 1][..i] == entries[..i];
      var entry := entries[i];
      var name := entry.name;
      if name.None? || name.value == [] {
        continue;
      }
      var rect := entry.rect;
      if rect.None? || |rect.value| != 4 {
        continue;
      }
      var rotation := 0;
      if entry.mkRotation.Some? {
        rotation := entry.mkRotation.value;
      }
      fields := fields[name.value := Position(rect.value, rotation)];
    }
    assert entries[..|entries|] == entries;
  }

  /** `_extract_field_positions`, over the template's `/Annots` (absent: `None`) and its
      AcroForm `/Fields` (no AcroForm: `None`). */
  method ExtractFieldPositions(annots: Option<seq<PdfField>>, acroFields: Option<seq<PdfField>>)
    returns (r: Result<map<string, Position>, GenError>)
    ensures r == FieldPositions(annots, acroFields)
  {
    var fields: map<string, Position> := map[];
    if annots.Some? {
      fields := CollectPositions(annots.value, fields);
      if fields != map[] {
        return Ok(fields);
      }
    }
    // Fallback for templates whose fields live only in the AcroForm.
    if acroFields.Some? {
      fields := CollectPositions(acroFields.value, fields);
    }
    if fields == map[] {
      return Err(NoFieldPositions);
    }
    return Ok(fields);
  }

  // ---------------------------------------------------------------------
  // Font-size fitting

  /** The fitter's step. */
  const FitStep: real := 0.5

  /** What `_fit_font_size` returns: start at `min(max_size, base_size)`, step down
      while the text is too wide, and never go below `min_size`. */
  function FittedSize(text: string, maxWidth: real, font: string, baseSize: real, minSize: real, maxSize: real, width: WidthFn): real
  {
    Max(DescendFrom(text, font, Min(maxSize, baseSize), minSize, FitStep, maxWidth, width), minSize)
  }

  /** The fitted size lies between `min_size` and `max(min_size, min(max_size, base_size))`,
      and a size above the floor fits the width. */
  lemma FittedSizeBounds(text: string, maxWidth: real, font: string, baseSize: real, minSize: real, maxSize: real, width: WidthFn)
    ensures var size := FittedSize(text, maxWidth, font, baseSize, minSize, maxSize, width);
      && minSize <= size <= Max(minSize, Min(maxSize, baseSize))
      && (size > minSize ==> width(text, font, size) <= maxWidth)
  {
  }

  /** `_fit_font_size`. */
  method FitFontSize(text: string, maxWidth: real, font: string, baseSize: real, minSize: real, maxSize: real, width: WidthFn)
    returns (size: real)
    ensures minSize <= size <= Max(minSize, Min(maxSize, baseSize))
    ensures size > minSize ==> width(text, font, size) <= maxWidth
    ensures size == FittedSize(text, maxWidth, font, baseSize, minSize, maxSize, width)
  {
    size := Min(maxSize, baseSize);
    while size > minSize && width(text, font, size) > maxWidth
      invariant size <= Min(maxSize, baseSize)
      invariant DescendFrom(text, font, size, minSize, FitStep, maxWidth, width)
             == DescendFrom(text, font, Min(maxSize, baseSize), minSize, FitStep, maxWidth, width)
      decreases StepsLeft(size, minSize, FitStep)
    {
      StepsLeftDecreases(size, minSize, FitStep);
      size := size - FitStep;
    }
    size := Max(size, minSize);
  }

  // ---------------------------------------------------------------------
  // Overlay

  datatype Align = Center | Left

  /** `draw_width`: the rectangle's width for a field drawn level or upside down, its
      height for one turned on its side. */
  function DrawWidth(rect: seq<real>, rotation: int): real
    requires |rect| == 4
  {
    if rotation == 0 || rotation == 180 then rect[2] - rect[0] else rect[3] - rect[1]
  }

  /** `_draw_text` for field `field` at `rect`, as the call it makes on the canvas; empty
      text draws nothing. */
  function PlanText(field: string, rect: seq<real>, rotation: int, text: string, font: string, baseSize: real,
                    align: Align, shiftX: real, width: WidthFn): Option<Draw>
    requires |rect| == 4
  {
    if text == [] then None
    else
      var x1, x2 := rect[0] + shiftX, rect[2] + shiftX;
      var y1, y2 := rect[1], rect[3];
      var drawWidth := if rotation == 0 || rotation == 180 then x2 - x1 else y2 - y1;
      var size := FittedSize(text, Max(drawWidth - 2.0, 1.0), font, baseSize, 6.0, 12.0, width);
      var x := if align == Center then 0.0 else -drawWidth / 2.0 + 1.5;
      Some(Draw(field, text, font, size, (x1 + x2) / 2.0, (y1 + y2) / 2.0, rotation, x, -size / 2.0, align == Center))
  }

  /** The text is drawn about the centre of the (shifted) rectangle, in the rectangle's
      rotation, fitted to its drawing width less 2 points (at least 1), and vertically
      centred on the origin. */
  lemma PlanTextPlacement(field: string, rect: seq<real>, rotation: int, text: string, font: string, baseSize: real,
                          align: Align, shiftX: real, width: WidthFn)
    requires |rect| == 4
    ensures PlanText(field, rect, rotation, text, font, baseSize, align, shiftX, width).None? <==> text == []
    ensures text != [] ==>
      var d := PlanText(field, rect, rotation, text, font, baseSize, align, shiftX, width).value;
      && d.field == field && d.text == text && d.font == font && d.rotation == rotation
      && d.originX == (rect[0] + rect[2]) / 2.0 + shiftX && d.originY == (rect[1] + rect[3]) / 2.0
      && d.size == FittedSize(text, Max(DrawWidth(rect, rotation) - 2.0, 1.0), font, baseSize, 6.0, 12.0, width)
      && 6.0 <= d.size <= Max(6.0, Min(12.0, baseSize))
      && d.y == -d.size / 2.0
      && (d.centred <==> align == Center)
  {
    if text != [] {
      FittedSizeBounds(text, Max(DrawWidth(rect, rotation) - 2.0, 1.0), font, baseSize, 6.0, 12.0, width);
    }
  }

  /** `shift_x` moves only the centre: shifting by `s` draws the same text, at the same
      size, `s` further along. */
  lemma PlanTextShift(field: string, rect: seq<real>, rotation: int, text: string, font: string, baseSize: real,
                      align: Align, shiftX: real, width: WidthFn)
    requires |rect| == 4 && text != []
    ensures var d := PlanText(field, rect, rotation, text, font, baseSize, align, shiftX, width).value;
            var d0 := PlanText(field, rect, rotation, text, font, baseSize, align, 0.0, width).value;
            d == d0.(originX := d0.originX + shiftX)
  {
    assert (rect[2] + shiftX) - (rect[0] + shiftX) == rect[2] - rect[0];
  }

  /** `_draw_text`. */
  method DrawText(field: string, rect: seq<real>, rotation: int, text: string, font: string, baseSize: real,
                  align: Align, shiftX: real, width: WidthFn) returns (d: Option<Draw>)
    requires |rect| == 4
    ensures d.None? <==> text == []
    ensures d.Some? ==> 6.0 <= d.value.size <= Max(6.0, Min(12.0, baseSize))
    ensures d == PlanText(field, rect, rotation, text, font, baseSize, align, shiftX, width)
  {
    if text == [] {
      return None;
    }
    var x1, y1, x2, y2 := rect[0], rect[1], rect[2], rect[3];
    x1 := x1 + shiftX;
    x2 := x2 + shiftX;
    var w := x2 - x1;
    var h := y2 - y1;
    var cx := (x1 + x2) / 2.0;
    var cy := (y1 + y2) / 2.0;
    var drawWidth := if rotation == 0 || rotation == 180 then w else h;
    var fontSize := FitFontSize(text, Max(drawWidth - 2.0, 1.0), font, baseSize, 6.0, 12.0, width);
    var y := -fontSize / 2.0;
    if align == Center {
      d := Some(Draw(field, text, font, fontSize, cx, cy, rotation, 0.0, y, true));
    } else {
      var x := -drawWidth / 2.0 + 1.5;
      d := Some(Draw(field, text, font, fontSize, cx, cy, rotation, x, y, false));
    }
  }

  /** `field_name.startswith(("Den Leader", "Cubmaster"))` with a script font given. */
  predicate UsesScript(field: string, scriptFont: Option<string>)
  {
    scriptFont.Some? && scriptFont.value != [] && ("Den Leader" <= field || "Cubmaster" <= field)
  }

  /** The font and base size `_render_overlay` picks for a field. */
  function FontFor(field: string, font: string, scriptFont: Option<string>, baseSize: real, scriptSize: Option<real>): (string, real)
  {
    if UsesScript(field, scriptFont) then (scriptFont.value, scriptSize.GetOr(baseSize)) else (font, baseSize)
  }

  /** What `_render_overlay` draws for one `(field, value)` entry. */
  function DrawsFor(positions: map<string, Position>, entry: (string, string), font: string, scriptFont: Option<string>,
                    baseSize: real, scriptSize: Option<real>, shiftX: real, width: WidthFn): seq<Draw>
    requires WellFormed(positions)
  {
    if entry.0 !in positions then []
    else
      var choice := FontFor(entry.0, font, scriptFont, baseSize, scriptSize);
      var p := positions[entry.0];
      match PlanText(entry.0, p.rect, p.rotation, entry.1, choice.0, choice.1, Center, shiftX, width)
      case None => []
      case Some(d) => [d]
  }

  /** The draws of `_render_overlay`, in the order of the field map. */
  function OverlayPlan(positions: map<string, Position>, values: FieldMap, font: string, scriptFont: Option<string>,
                       baseSize: real, scriptSize: Option<real>, shiftX: real, width: WidthFn): seq<Draw>
    requires WellFormed(positions)
  {
    if values == [] then []
    else
      var last := DrawsFor(positions, values[|values| - 1], font, scriptFont, baseSize, scriptSize, shiftX, width);
      OverlayPlan(positions, values[..|values| - 1], font, scriptFont, baseSize, scriptSize, shiftX, width) + last
  }

  /** A draw happens for a field exactly when it has a position and non-empty text;
      it uses the script font exactly for the signature fields when a script font is
      given, and is fitted from the size chosen for its font. */
  lemma DrawsForContents(positions: map<string, Position>, entry: (string, string), font: string, scriptFont: Option<string>,
                         baseSize: real, scriptSize: Option<real>, shiftX: real, width: WidthFn)
    requires WellFormed(positions)
    ensures var ds := DrawsFor(positions, entry, font, scriptFont, baseSize, scriptSize, shiftX, width);
      && (|ds| == 1 <==> entry.0 in positions && entry.1 != [])
      && (ds == [] <==> entry.0 !in positions || entry.1 == [])
      && (|ds| == 1 ==> ds[0].field == entry.0 && ds[0].text == entry.1
                        && ds[0].font == (if UsesScript(entry.0, scriptFont) then scriptFont.value else font)
                        && 6.0 <= ds[0].size <= Max(6.0, Min(12.0, FontFor(entry.0, font, scriptFont, baseSize, scriptSize).1))
                        && ds[0].rotation == positions[entry.0].rotation && ds[0].centred)
  {
    if entry.0 in positions {
      var choice := FontFor(entry.0, font, scriptFont, baseSize, scriptSize);
      var p := positions[entry.0];
      PlanTextPlacement(entry.0, p.rect, p.rotation, entry.1, choice.0, choice.1, Center, shiftX, width);
    }
  }

  lemma OverlayPlanStep(positions: map<string, Position>, values: FieldMap, font: string, scriptFont: Option<string>,
                        baseSize: real, scriptSize: Option<real>, shiftX: real, width: WidthFn)
    requires WellFormed(positions) && values != []
    ensures OverlayPlan(positions, values, font, scriptFont, baseSize, scriptSize, shiftX, width)
         == OverlayPlan(positions, values[..|values| - 1], font, scriptFont, baseSize, scriptSize, shiftX, width)
          + DrawsFor(positions, values[|values| - 1], font, scriptFont, baseSize, scriptSize, shiftX, width)
  {
  }

  /** Every draw comes from an entry of the field map whose field has a position and
      whose text is not empty; there are at most as many draws as entries. */
  lemma {:induction false} OverlayPlanSound(positions: map<string, Position>, values: FieldMap, font: string, scriptFont: Option<string>,
                                            baseSize: real, scriptSize: Option<real>, shiftX: real, width: WidthFn)
    requires WellFormed(positions)
    ensures |OverlayPlan(positions, values, font, scriptFont, baseSize, scriptSize, shiftX, width)| <= |values|
    ensures var plan := OverlayPlan(positions, values, font, scriptFont, baseSize, scriptSize, shiftX, width);
      forall i :: 0 <= i < |plan| ==>
        (plan[i].field in positions && plan[i].text != []
         && exists j :: 0 <= j < |values| && values[j] == (plan[i].field, plan[i].text))
  {
    if values != [] {
      var n := |values|;
      var init := values[..n - 1];
      OverlayPlanSound(positions, init, font, scriptFont, baseSize, scriptSize, shiftX, width);
      DrawsForContents(positions, values[n - 1], font, scriptFont, baseSize, scriptSize, shiftX, width);
      OverlayPlanStep(positions, values, font, scriptFont, baseSize, scriptSize, shiftX, width);
      var prev := OverlayPlan(positions, init, font, scriptFont, baseSize, scriptSize, shiftX, width);
      var last := DrawsFor(positions, values[n - 1], font, scriptFont, baseSize, scriptSize, shiftX, width);
      var plan := prev + last;
      forall i | 0 <= i < |plan|
        ensures plan[i].field in positions && plan[i].text != []
        ensures exists j :: 0 <= j < |values| && values[j] == (plan[i].field, plan[i].text)
      {
        if i < |prev| {
          var j :| 0 <= j < |init| && init[j] == (prev[i].field, prev[i].text);
          assert values[j] == init[j];
        } else {
          assert values[n - 1] == (plan[i].field, plan[i].text);
        }
      }
    }
  }

  /** Every entry of the field map whose field has a position and whose text is not
      empty is drawn. */
  lemma {:induction false} OverlayPlanComplete(positions: map<string, Position>, values: FieldMap, font: string, scriptFont: Option<string>,
                                               baseSize: real, scriptSize: Option<real>, shiftX: real, width: WidthFn)
    requires WellFormed(positions)
    ensures var plan := OverlayPlan(positions, values, font, scriptFont, baseSize, scriptSize, shiftX, width);
      forall j :: 0 <= j < |values| && values[j].0 in positions && values[j].1 != [] ==>
        exists i :: 0 <= i < |plan| && plan[i].field == values[j].0 && plan[i].text == values[j].1
  {
    if values != [] {
      var n := |values|;
      var init := values[..n - 1];
      OverlayPlanComplete(positions, init, font, scriptFont, baseSize, scriptSize, shiftX, width);
      DrawsForContents(positions, values[n - 1], font, scriptFont, baseSize, scriptSize, shiftX, width);
      OverlayPlanStep(positions, values, font, scriptFont, baseSize, scriptSize, shiftX, width);
      var prev := OverlayPlan(positions, init, font, scriptFont, baseSize, scriptSize, shiftX, width);
      var last := DrawsFor(positions, values[n - 1], font, scriptFont, baseSize, scriptSize, shiftX, width);
      var plan := prev + last;
      forall j | 0 <= j < |values| && values[j].0 in positions && values[j].1 != []
        ensures exists i :: 0 <= i < |plan| && plan[i].field == values[j].0 && plan[i].text == values[j].1
      {
        if j < n - 1 {
          assert init[j] == values[j];
          var i :| 0 <= i < |prev| && prev[i].field == init[j].0 && prev[i].text == init[j].1;
          assert plan[i] == prev[i];
        } else {
          assert plan[|prev|] == last[0];
        }
      }
    }
  }

  /** The draw uses the script font exactly when its field is a signature field and a
      script font is given, its size is fitted from the size chosen for that font, and
      it is centred. */
  predicate FontedDraw(d: Draw, font: string, scriptFont: Option<string>, baseSize: real, scriptSize: Option<real>)
  {
    && d.font == (if UsesScript(d.field, scriptFont) then scriptFont.value else font)
    && 6.0 <= d.size <= Max(6.0, Min(12.0, FontFor(d.field, font, scriptFont, baseSize, scriptSize).1))
    && d.centred
  }

  /** Every draw of the overlay is fonted and sized as `FontedDraw` says. */
  lemma {:induction false} OverlayPlanFonts(positions: map<string, Position>, values: FieldMap, font: string, scriptFont: Option<string>,
                                            baseSize: real, scriptSize: Option<real>, shiftX: real, width: WidthFn)
    requires WellFormed(positions)
    ensures var plan := OverlayPlan(positions, values, font, scriptFont, baseSize, scriptSize, shiftX, width);
      forall i :: 0 <= i < |plan| ==> FontedDraw(plan[i], font, scriptFont, baseSize, scriptSize)
  {
    if values != [] {
      var n := |values|;
      OverlayPlanFonts(positions, values[..n - 1], font, scriptFont, baseSize, scriptSize, shiftX, width);
      DrawsForContents(positions, values[n - 1], font, scriptFont, baseSize, scriptSize, shiftX, width);
      OverlayPlanStep(positions, values, font, scriptFont, baseSize, scriptSize, shiftX, width);
      var prev := OverlayPlan(positions, values[..n - 1], font, scriptFont, baseSize, scriptSize, shiftX, width);
      var last := DrawsFor(positions, values[n - 1], font, scriptFont, baseSize, scriptSize, shiftX, width);
      if last != [] {
        assert FontedDraw(last[0], font, scriptFont, baseSize, scriptSize);
      }
      forall i | 0 <= i < |prev + last|
        ensures FontedDraw((prev + last)[i], font, scriptFont, baseSize, scriptSize)
      {
        if i < |prev| {
          assert (prev + last)[i] == prev[i];
        } else {
          assert (prev + last)[i] == last[0];
        }
      }
    }
  }

  /** `_render_overlay`: the loop over the page's field map. */
  method RenderOverlay(positions: map<string, Position>, values: FieldMap, font: string, scriptFont: Option<string>,
                       baseSize: real, scriptSize: Option<real>, shiftX: real, width: WidthFn) returns (draws: seq<Draw>)
    requires WellFormed(positions)
    ensures draws == OverlayPlan(positions, values, font, scriptFont, baseSize, scriptSize, shiftX, width)
  {
    draws := [];
    for i := 0 to |values|
      invariant draws == OverlayPlan(positions, values[..i], font, scriptFont, baseSize, scriptSize, shiftX, width)
    {
      assert values[..i + 1][..i] == values[..i];
      var (fieldName, value) := values[i];
      if fieldName !in positions {
        continue;
      }
      var info := positions[fieldName];
      var useFont := font;
      var useSize := baseSize;
      if scriptFont.Some? && scriptFont.value != [] && ("Den Leader" <= fieldName || "Cubmaster" <= fieldName) {
        useFont := scriptFont.value;
        useSize := if scriptSize.Some? then scriptSize.value else baseSize;
      }
      var d := DrawText(fieldName, info.rect, info.rotation, value, useFont, useSize, Center, shiftX, width);
      if d.Some? {
        draws := draws + [d.value];
      }
    }
    assert values[..|values|] == values;
  }

  // ---------------------------------------------------------------------
  // The whole run

  /** The template as the generator reads it: its first page's annotations, the
      AcroForm's fields, the page's media box and its `/Rotate` entry. */
  datatype Template = Template(
    annots: Option<seq<PdfField>>,
    acroFields: Option<seq<PdfField>>,
    width: real,
    height: real,
    rotate: Option<int>)

  /** The options of `fill_certificates` that shape the output. */
  datatype CertificateOptions = CertificateOptions(
    shiftLeftInch: real,
    shiftDownInch: real,
    font: string,
    scriptFont: Option<string>,
    fontSize: real,
    scriptFontSize: Option<real>,
    outputRotation: Option<int>)

  /** The page `fill_certificates` produces for one chunk of rows. */
  function CertificatePage(chunk: seq<Row>, positions: map<string, Position>, t: Template, opts: CertificateOptions, width: WidthFn): OutputPage
    requires WellFormed(positions)
  {
    var fieldMap := PageEntries(NormalizeAll(chunk), IsRankTemplate(positions.Keys));
    var overlay := OverlayPlan(positions, fieldMap, opts.font, opts.scriptFont, opts.fontSize, opts.scriptFontSize, 0.0, width);
    var rotate := if opts.outputRotation.Some? then opts.outputRotation.value else t.rotate.GetOr(0);
    OutputPage(t.width, t.height, overlay, PageTranslation(rotate, opts.shiftLeftInch, opts.shiftDownInch))
  }

  /** The pages for a sequence of chunks, one per chunk, in order. */
  function CertificatePages(chunks: seq<seq<Row>>, positions: map<string, Position>, t: Template, opts: CertificateOptions, width: WidthFn): seq<OutputPage>
    requires WellFormed(positions)
  {
    seq(|chunks|, q requires 0 <= q < |chunks| => CertificatePage(chunks[q], positions, t, opts, width))
  }

  /** The body of `fill_certificates`' page loop: the field map of the page's rows, the
      overlay drawn from it, and the shift for the page's effective rotation (the
      override when given, else the page's `/Rotate`, else 0). */
  method FillPage(chunk: seq<Row>, positions: map<string, Position>, t: Template, opts: CertificateOptions, width: WidthFn)
    returns (page: OutputPage)
    requires WellFormed(positions)
    ensures page == CertificatePage(chunk, positions, t, opts, width)
  {
    var dx := -72.0 * opts.shiftLeftInch;
    var dy := -72.0 * opts.shiftDownInch;
    var rotate := if opts.outputRotation.Some? then opts.outputRotation.value else t.rotate.GetOr(0);
    var (tx, ty) := MapDisplayShift(rotate, dx, dy);
    var translation := if tx != 0.0 || ty != 0.0 then Some((tx, ty)) else None;
    assert translation == PageTranslation(rotate, opts.shiftLeftInch, opts.shiftDownInch);
    var fieldMap := BuildPageFieldMap(chunk, positions.Keys);
    var overlay := RenderOverlay(positions, fieldMap, opts.font, opts.scriptFont, opts.fontSize, opts.scriptFontSize, 0.0, width);
    page := OutputPage(t.width, t.height, overlay, translation);
  }

  /** The page loop of `fill_certificates`: one page per chunk, in order. */
  method FillPages(chunks: seq<seq<Row>>, positions: map<string, Position>, t: Template, opts: CertificateOptions, width: WidthFn)
    returns (pages: seq<OutputPage>)
    requires WellFormed(positions)
    ensures pages == CertificatePages(chunks, positions, t, opts, width)
  {
    ghost var spec := CertificatePages(chunks, positions, t, opts, width);
    pages := [];
    for p := 0 to |chunks|
      invariant pages == spec[..p]
    {
      var page := FillPage(chunks[p], positions, t, opts, width);
      assert page == spec[p];
      SnocSlice(spec, p);
      pages := pages + [page];
    }
    assert spec[..|chunks|] == spec;
  }

  /** `fill_certificates`, up to writing the PDF: the pages in order, or the first error
      met (missing template, then the CSV's errors, then no field positions). */
  method FillCertificates(template: Option<Template>, csv: Csv, opts: CertificateOptions, width: WidthFn)
    returns (r: Result<seq<OutputPage>, GenError>)
    ensures template.None? ==> r == Err(TemplateMissing)
    ensures template.Some? && ReadRows(csv).Err? ==> r == Err(NoHeaderRow)
    ensures template.Some? && ReadRows(csv) == Ok([]) ==> r == Err(NoDataRows)
    ensures (template.Some? && ReadRows(csv).Ok? && ReadRows(csv).value != []
             && FieldPositions(template.value.annots, template.value.acroFields).Err?) ==> r == Err(NoFieldPositions)
    ensures r.Ok? ==> (template.Some? && ReadRows(csv).Ok? && ReadRows(csv).value != []
                       && FieldPositions(template.value.annots, template.value.acroFields).Ok?)
    ensures r.Ok? ==>
      var rows := ReadRows(csv).value;
      var positions := FieldPositions(template.value.annots, template.value.acroFields).value;
      && |r.value| == PageCount(|rows|, FieldsPerPage)
      && r.value == CertificatePages(Chunk(rows, FieldsPerPage), positions, template.value, opts, width)
  {
    if template.None? {
      return Err(TemplateMissing);
    }
    var t := template.value;
    var read := ReadRows(csv);
    if read.Err? {
      return Err(read.error);
    }
    var rows := read.value;
    if rows == [] {
      return Err(NoDataRows);
    }
    var found := ExtractFieldPositions(t.annots, t.acroFields);
    if found.Err? {
      return Err(found.error);
    }
    var positions := found.value;
    assert WellFormed(positions);

    var pageCount := PageCount(|rows|, FieldsPerPage);
    var chunks := Chunk(rows, FieldsPerPage);
    ChunkCount(rows, FieldsPerPage);

    var pages := FillPages(chunks, positions, t, opts, width);
    return Ok(pages);
  }

  /** Read back in page order, the rows on the pages are exactly the CSV's non-blank
      rows, at most eight per page and none left out. */
  lemma PagesCoverRows(rows: seq<Row>)
    ensures Flatten(Chunk(rows, FieldsPerPage)) == rows
    ensures |Chunk(rows, FieldsPerPage)| == PageCount(|rows|, FieldsPerPage)
    ensures forall p :: 0 <= p < |Chunk(rows, FieldsPerPage)| ==> 0 < |Chunk(rows, FieldsPerPage)[p]| <= FieldsPerPage
  {
    ChunkFlatten(rows, FieldsPerPage);
    ChunkCount(rows, FieldsPerPage);
    ChunkSizes(rows, FieldsPerPage);
  }
}
