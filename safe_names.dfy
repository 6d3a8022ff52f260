/** The server's file-name sanitisers: the download name of the combined PDF, the
    per-scout parts of the names inside the zip archive, and the archive's own name. */
module SafeNames {
  import opened Text

  // ---------------------------------------------------------------------
  // Characters

  /** `[A-Za-z0-9._-]`: the characters the sanitisers keep. */
  predicate IsAllowed(c: char)
  {
    ('A' <= c <= 'Z') || ('a' <= c <= 'z') || ('0' <= c <= '9') || c == '.' || c == '_' || c == '-'
  }

  predicate AllAllowed(s: string)
  {
    forall i :: 0 <= i < |s| ==> IsAllowed(s[i])
  }

  /** `re.sub(r"[^A-Za-z0-9._-]", "_", s)`: every other character becomes `_`. */
  function Sanitize(s: string): string
  {
    seq(|s|, i requires 0 <= i < |s| => if IsAllowed(s[i]) then s[i] else '_')
  }

  /** Sanitising keeps the length and every allowed character, replaces the rest, and
      leaves a string of allowed characters unchanged. */
  lemma SanitizeKeepsAllowed(s: string)
    ensures |Sanitize(s)| == |s| && AllAllowed(Sanitize(s))
    ensures forall i :: 0 <= i < |s| ==> (Sanitize(s)[i] == s[i] <==> IsAllowed(s[i]))
    ensures AllAllowed(s) ==> Sanitize(s) == s
  {
  }

  // ---------------------------------------------------------------------
  // `Path(value).name`

  /** `value.split("/")`: the pieces between slashes, empty ones included. */
  function SplitSlash(s: string): (r: seq<string>)
    ensures |r| >= 1
    ensures forall i :: 0 <= i < |r| ==> '/' !in r[i]
    ensures '/' !in s ==> r == [s]
  {
    if s == [] then [""]
    else
      var rest := SplitSlash(s[1..]);
      assert s == [s[0]] + s[1..];
      if s[0] == '/' then [""] + rest
      else [[s[0]] + rest[0]] + rest[1..]
  }

  /** The last piece that is neither empty nor `.`, or the empty string. */
  function LastProperPart(parts: seq<string>): string
  {
    if parts == [] then ""
    else
      var last := parts[|parts| - 1];
      if last != "" && last != "." then last else LastProperPart(parts[..|parts| - 1])
  }

  /** `PurePosixPath(value).name`: the last component, ignoring repeated and trailing
      slashes and `.` components. */
  function PathName(s: string): string
  {
    LastProperPart(SplitSlash(s))
  }

  /** The name holds no slash and is never `.`; a string without slashes that is
      neither empty nor `.` is its own name. */
  lemma {:induction false} PathNameIsComponent(s: string)
    ensures '/' !in PathName(s) && PathName(s) != "."
    ensures '/' !in s && s != "" && s != "." ==> PathName(s) == s
  {
    LastProperPartFrom(SplitSlash(s));
  }

  lemma {:induction false} LastProperPartFrom(parts: seq<string>)
    requires forall i :: 0 <= i < |parts| ==> '/' !in parts[i]
    ensures '/' !in LastProperPart(parts) && LastProperPart(parts) != "."
  {
    if parts != [] {
      var n := |parts|;
      if parts[n - 1] == "" || parts[n - 1] == "." {
        LastProperPartFrom(parts[..n - 1]);
      }
    }
  }

  // ---------------------------------------------------------------------
  // Suffixes

  const PdfSuffix: string := ".pdf"
  const ZipSuffix: string := ".zip"

  lemma LowerSuffixes()
    ensures LowerString(PdfSuffix) == PdfSuffix && LowerString(ZipSuffix) == ZipSuffix
  {
    assert LowerString(PdfSuffix) == [LowerAscii('.'), LowerAscii('p'), LowerAscii('d'), LowerAscii('f')];
    assert LowerString(ZipSuffix) == [LowerAscii('.'), LowerAscii('z'), LowerAscii('i'), LowerAscii('p')];
  }

  lemma DefaultNamesAllowed()
    ensures AllAllowed("filled_awards.pdf") && AllAllowed("filled_awards.zip")
    ensures AllAllowed(PdfSuffix) && AllAllowed(ZipSuffix)
  {
    assert forall i | 0 <= i < |"filled_awards.pdf"| :: IsAllowed("filled_awards.pdf"[i]);
    assert forall i | 0 <= i < |"filled_awards.zip"| :: IsAllowed("filled_awards.zip"[i]);
  }

  /** Appending a lower-case suffix makes a name end with it, whatever came before. */
  lemma EndsWithAppended(s: string, suffix: string)
    requires LowerString(suffix) == suffix
    ensures EndsWithIgnoringCase(s + suffix, suffix)
  {
    assert (s + suffix)[|s + suffix| - |suffix|..] == suffix;
  }

  lemma AllAllowedAppend(a: string, b: string)
    requires AllAllowed(a) && AllAllowed(b)
    ensures AllAllowed(a + b)
  {
    assert forall i :: |a| <= i < |a + b| ==> (a + b)[i] == b[i - |a|];
  }

  // ---------------------------------------------------------------------
  // `_safe_output_name`

  /** `_safe_output_name`: the sanitised last path component, `filled_awards.pdf` when
      that is empty, with `.pdf` appended unless it already ends so in any case. */
  function SafeOutputName(value: string): string
  {
    var filename := Sanitize(PathName(value));
    var named := if filename == [] then "filled_awards.pdf" else filename;
    if EndsWithIgnoringCase(named, PdfSuffix) then named else named + PdfSuffix
  }

  /** A name that is already safe: allowed characters only, not `.`, ending in `.pdf`
      in some case. */
  lemma SafeOutputNameOfSafe(name: string)
    requires AllAllowed(name) && EndsWithIgnoringCase(name, PdfSuffix)
    ensures SafeOutputName(name) == name
  {
    assert name[|name| - 4] == '.' by { assert LowerString(name[|name| - 4..])[0] == '.'; }
    assert name != "." && name != "";
    assert '/' !in name by {
      forall i | 0 <= i < |name| ensures name[i] != '/' { assert IsAllowed(name[i]); }
    }
    PathNameIsComponent(name);
    SanitizeKeepsAllowed(name);
  }

  /** The result is never empty, holds only allowed characters, ends in `.pdf`
      ignoring case, keeps a non-empty sanitised name as its prefix, and sanitising it
      again changes nothing; an empty sanitised name falls back to `filled_awards.pdf`,
      and `.pdf` is appended exactly when the name does not already end in it. */
  lemma SafeOutputNameSafe(value: string)
    ensures var r := SafeOutputName(value);
      && r != [] && AllAllowed(r) && EndsWithIgnoringCase(r, PdfSuffix)
      && (Sanitize(PathName(value)) != [] ==> Sanitize(PathName(value)) <= r)
      && SafeOutputName(r) == r
    ensures Sanitize(PathName(value)) == [] ==> SafeOutputName(value) == "filled_awards.pdf"
    ensures var named := if Sanitize(PathName(value)) == [] then "filled_awards.pdf" else Sanitize(PathName(value));
      && (EndsWithIgnoringCase(named, PdfSuffix) ==> SafeOutputName(value) == named)
      && (!EndsWithIgnoringCase(named, PdfSuffix) ==> SafeOutputName(value) == named + PdfSuffix)
  {
    var filename := Sanitize(PathName(value));
    if filename == [] {
      assert "filled_awards.pdf"[13..] == ".pdf";
    }
    SanitizeKeepsAllowed(PathName(value));
    var named := if filename == [] then "filled_awards.pdf" else filename;
    DefaultNamesAllowed();
    LowerSuffixes();
    if !EndsWithIgnoringCase(named, PdfSuffix) {
      EndsWithAppended(named, PdfSuffix);
      AllAllowedAppend(named, PdfSuffix);
    }
    SafeOutputNameOfSafe(SafeOutputName(value));
  }

  // ---------------------------------------------------------------------
  // `_safe_base_name`

  /** One of the characters `str.strip("._-")` removes. */
  predicate IsEdgePunct(c: char)
  {
    c == '.' || c == '_' || c == '-'
  }

  function StripPunctLeft(s: string): (r: string)
    ensures |r| <= |s| && r == s[|s| - |r|..]
    ensures r == [] || !IsEdgePunct(r[0])
  {
    if s != [] && IsEdgePunct(s[0]) then StripPunctLeft(s[1..]) else s
  }

  function StripPunctRight(s: string): (r: string)
    ensures |r| <= |s| && r == s[..|r|]
    ensures r == [] || !IsEdgePunct(r[|r| - 1])
  {
    if s != [] && IsEdgePunct(s[|s| - 1]) then StripPunctRight(s[..|s| - 1]) else s
  }

  /** `s.strip("._-")`. */
  function StripPunct(s: string): string
  {
    StripPunctRight(StripPunctLeft(s))
  }

  /** `_safe_base_name`: the stripped value sanitised, then stripped of `.`, `_` and `-`
      at both ends, or `item` when nothing is left. */
  function SafeBaseName(value: string): string
  {
    var name := StripPunct(Sanitize(Trim(value)));
    if name == [] then "item" else name
  }

  lemma AllAllowedSlice(s: string, i: nat, j: nat)
    requires AllAllowed(s) && i <= j <= |s|
    ensures AllAllowed(s[i..j])
  {
    assert forall k :: 0 <= k < j - i ==> s[i..j][k] == s[i + k];
  }

  lemma StripPunctAllowed(s: string)
    requires AllAllowed(s)
    ensures AllAllowed(StripPunct(s))
    ensures var r := StripPunct(s); r == [] || (!IsEdgePunct(r[0]) && !IsEdgePunct(r[|r| - 1]))
  {
    var left := StripPunctLeft(s);
    AllAllowedSlice(s, |s| - |left|, |s|);
    var name := StripPunctRight(left);
    AllAllowedSlice(left, 0, |name|);
    if name != [] {
      assert name[0] == left[0];
    }
  }

  /** A non-empty name of allowed characters with no `.`, `_` or `-` at either end is
      its own safe base name. */
  lemma SafeBaseNameOfSafe(r: string)
    requires r != [] && AllAllowed(r) && !IsEdgePunct(r[0]) && !IsEdgePunct(r[|r| - 1])
    ensures SafeBaseName(r) == r
  {
    assert IsAllowed(r[0]) && IsAllowed(r[|r| - 1]);
    TrimOfTrimmed(r);
    SanitizeKeepsAllowed(r);
    assert StripPunctLeft(r) == r;
    assert StripPunctRight(r) == r;
  }

  /** The result is never empty, holds only allowed characters, never starts or ends
      with `.`, `_` or `-`, and is its own safe base name. */
  lemma SafeBaseNameSafe(value: string)
    ensures var r := SafeBaseName(value);
      && r != [] && AllAllowed(r)
      && !IsEdgePunct(r[0]) && !IsEdgePunct(r[|r| - 1])
      && SafeBaseName(r) == r
  {
    var s := Sanitize(Trim(value));
    SanitizeKeepsAllowed(Trim(value));
    StripPunctAllowed(s);
    ItemAllowed();
    SafeBaseNameOfSafe(SafeBaseName(value));
  }

  lemma ItemAllowed()
    ensures AllAllowed("item") && !IsEdgePunct('i') && !IsEdgePunct('m')
  {
    assert forall i | 0 <= i < |"item"| :: IsAllowed("item"[i]);
  }

  // ---------------------------------------------------------------------
  // `_safe_zip_name`

  /** Index of the last `.` in `s`, or -1. */
  function LastDot(s: string): (i: int)
    ensures -1 <= i < |s|
    ensures i >= 0 ==> s[i] == '.'
    ensures forall j :: i < j < |s| ==> s[j] != '.'
  {
    if s == [] then -1
    else if s[|s| - 1] == '.' then |s| - 1
    else LastDot(s[..|s| - 1])
  }

  /** `PurePath(name).stem` for a name without slashes: everything before the last
      `.`, unless that dot starts the name or ends it. */
  function Stem(name: string): (r: string)
  {
    var i := LastDot(name);
    if 0 < i < |name| - 1 then name[..i] else name
  }

  /** `_safe_zip_name`: the sanitised last path component, `filled_awards.zip` when
      that is empty; a name not ending in `.zip` in some case has its last suffix
      replaced by `.zip`. */
  function SafeZipName(value: string): string
  {
    var filename := Sanitize(PathName(value));
    var named := if filename == [] then "filled_awards.zip" else filename;
    if EndsWithIgnoringCase(named, ZipSuffix) then named else Stem(named) + ZipSuffix
  }

  /** The stem is a prefix; when the name has a suffix, the stem is the name up to its
      last dot, which is then dropped. */
  lemma StemPrefix(name: string)
    ensures |Stem(name)| <= |name| && Stem(name) == name[..|Stem(name)|]
    ensures var i := LastDot(name); 0 < i < |name| - 1 ==> Stem(name) == name[..i] && name[i..] == "." + name[i + 1..]
  {
    var i := LastDot(name);
    if 0 < i < |name| - 1 {
      SplitAt(name, i);
      assert [name[i]] == ".";
    } else {
      assert name[..|name|] == name;
    }
  }

  lemma SplitAt(s: string, i: nat)
    requires i < |s|
    ensures s[i..] == [s[i]] + s[i + 1..]
  {
  }

  lemma SafeZipNameOfSafe(name: string)
    requires AllAllowed(name) && EndsWithIgnoringCase(name, ZipSuffix)
    ensures SafeZipName(name) == name
  {
    assert name[|name| - 4] == '.' by { assert LowerString(name[|name| - 4..])[0] == '.'; }
    assert name != "." && name != "";
    assert '/' !in name by {
      forall i | 0 <= i < |name| ensures name[i] != '/' { assert IsAllowed(name[i]); }
    }
    PathNameIsComponent(name);
    SanitizeKeepsAllowed(name);
  }

  /** The result holds only allowed characters and ends in `.zip` ignoring case; a name
      already ending so is kept, any other loses its last suffix to `.zip`, or gets
      `.zip` appended when it has no suffix; and the result is its own safe zip name. */
  lemma SafeZipNameSafe(value: string)
    ensures var r := SafeZipName(value);
      && AllAllowed(r) && EndsWithIgnoringCase(r, ZipSuffix)
      && SafeZipName(r) == r
    ensures var named := if Sanitize(PathName(value)) == [] then "filled_awards.zip" else Sanitize(PathName(value));
      && (EndsWithIgnoringCase(named, ZipSuffix) ==> SafeZipName(value) == named)
      && (!EndsWithIgnoringCase(named, ZipSuffix) && 0 < LastDot(named) < |named| - 1 ==>
            SafeZipName(value) == named[..LastDot(named)] + ZipSuffix)
      && (!EndsWithIgnoringCase(named, ZipSuffix) && !(0 < LastDot(named) < |named| - 1) ==>
            SafeZipName(value) == named + ZipSuffix)
  {
    var filename := Sanitize(PathName(value));
    SanitizeKeepsAllowed(PathName(value));
    var named := if filename == [] then "filled_awards.zip" else filename;
    DefaultNamesAllowed();
    LowerSuffixes();
    if !EndsWithIgnoringCase(named, ZipSuffix) {
      StemPrefix(named);
      AllAllowedSlice(named, 0, |Stem(named)|);
      EndsWithAppended(Stem(named), ZipSuffix);
      AllAllowedAppend(Stem(named), ZipSuffix);
    }
    SafeZipNameOfSafe(SafeZipName(value));
  }
}
