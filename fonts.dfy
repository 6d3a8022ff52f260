/** The server's font choices: the two catalogs offered in the form, the table that
    maps retired font ids onto current ones, and the resolution of a choice to a PDF
    font name and the font file to register. */
module Fonts {
  import opened Values

  /** A catalog entry: the PDF font name (`None` for "no script font") and the font
      files to try, in order; no files means a font built into every PDF reader. */
  datatype FontChoice = FontChoice(pdfName: Option<string>, paths: seq<string>)

  type Catalog = map<string, FontChoice>

  /** A font shipped in the repository's font directory. */
  function Bundled(name: string, fontsDir: string): FontChoice
  {
    FontChoice(Some(name), [fontsDir + "/" + name + "-Regular.ttf"])
  }

  function BuiltIn(name: string): FontChoice
  {
    FontChoice(Some(name), [])
  }

  /** `FONT_CHOICES`, with the repository's font directory as `fontsDir`. */
  function FontChoices(fontsDir: string): Catalog
  {
    map[
      "Helvetica" := BuiltIn("Helvetica"),
      "TimesRoman" := BuiltIn("Times-Roman"),
      "Courier" := BuiltIn("Courier"),
      "DejaVuSerif" := FontChoice(Some("DejaVuSerif"), ["/usr/share/fonts/truetype/dejavu/DejaVuSerif.ttf",
                                                        "/System/Library/Fonts/Supplemental/Georgia.ttf"]),
      "DejaVuSans" := FontChoice(Some("DejaVuSans"), ["/usr/share/fonts/truetype/dejavu/DejaVuSans.ttf",
                                                      "/System/Library/Fonts/Supplemental/Verdana.ttf"]),
      "DejaVuSansMono" := FontChoice(Some("DejaVuSansMono"), ["/usr/share/fonts/truetype/dejavu/DejaVuSansMono.ttf",
                                                              "/System/Library/Fonts/Supplemental/Courier New.ttf"]),
      "Alegreya" := Bundled("Alegreya", fontsDir),
      "Archivo" := Bundled("Archivo", fontsDir),
      "FiraSans" := Bundled("FiraSans", fontsDir),
      "Bangers" := Bundled("Bangers", fontsDir),
      "CabinSketch" := Bundled("CabinSketch", fontsDir),
      "LilitaOne" := Bundled("LilitaOne", fontsDir),
      "Righteous" := Bundled("Righteous", fontsDir),
      "Oswald" := Bundled("Oswald", fontsDir),
      "Montserrat" := Bundled("Montserrat", fontsDir),
      "Kanit" := Bundled("Kanit", fontsDir),
      "Lora" := Bundled("Lora", fontsDir),
      "CrimsonPro" := Bundled("CrimsonPro", fontsDir),
      "IBMPlexSerif" := Bundled("IBMPlexSerif", fontsDir),
      "Merriweather" := Bundled("Merriweather", fontsDir)
    ]
  }

  /** `SCRIPT_FONT_CHOICES`. */
  function ScriptFontChoices(fontsDir: string): Catalog
  {
    map[
      "None" := FontChoice(None, []),
      "DejaVuSerifItalic" := FontChoice(Some("DejaVuSerifItalic"), ["/usr/share/fonts/truetype/dejavu/DejaVuSerif-Italic.ttf"]),
      "DejaVuSansOblique" := FontChoice(Some("DejaVuSansOblique"), ["/usr/share/fonts/truetype/dejavu/DejaVuSans-Oblique.ttf"]),
      "PatrickHand" := Bundled("PatrickHand", fontsDir),
      "PermanentMarker" := Bundled("PermanentMarker", fontsDir),
      "DancingScript" := Bundled("DancingScript", fontsDir),
      "Caveat" := Bundled("Caveat", fontsDir),
      "KaushanScript" := Bundled("KaushanScript", fontsDir)
    ]
  }

  /** `LEGACY_FONT_ALIASES`: font ids the form used to send, and what they stand for now. */
  const LegacyFontAliases: map<string, string> := map[
    "Times-Roman" := "TimesRoman",
    "Georgia" := "DejaVuSerif",
    "Verdana" := "DejaVuSans",
    "Tahoma" := "DejaVuSans",
    "TrebuchetMS" := "DejaVuSans",
    "TimesNewRoman" := "DejaVuSerif",
    "CourierNew" := "DejaVuSansMono",
    "Geneva" := "DejaVuSans",
    "Chalkduster" := "DejaVuSans",
    "AppleChancery" := "PatrickHand",
    "BradleyHand" := "PatrickHand",
    "BrushScript" := "PermanentMarker"
  ]

  /** `LEGACY_FONT_ALIASES.get(choice_id, choice_id)`: one lookup, never repeated. */
  function ResolvedId(choiceId: string): string
  {
    if choiceId in LegacyFontAliases then LegacyFontAliases[choiceId] else choiceId
  }

  /** No alias points at another alias, so resolving once is resolving completely:
      resolving a resolved id changes nothing. */
  lemma AliasesNotChained(choiceId: string)
    ensures forall k :: k in LegacyFontAliases ==> LegacyFontAliases[k] !in LegacyFontAliases
    ensures ResolvedId(ResolvedId(choiceId)) == ResolvedId(choiceId)
  {
    AliasTargetsCover();
    TargetsNotAliases();
  }

  lemma AliasTargetsCover()
    ensures forall k :: k in LegacyFontAliases ==> LegacyFontAliases[k] in AliasTargets
  {
  }

  lemma TargetsNotAliases()
    ensures forall t :: t in AliasTargets ==> t !in LegacyFontAliases
  {
  }

  const AliasTargets: set<string> := {"TimesRoman", "DejaVuSerif", "DejaVuSans", "DejaVuSansMono", "PatrickHand", "PermanentMarker"}

  /** Every alias names an entry of one of the two catalogs: the handwriting aliases a
      script font, the others a main font. */
  lemma AliasesResolve(fontsDir: string)
    ensures forall k :: k in LegacyFontAliases ==>
      LegacyFontAliases[k] in FontChoices(fontsDir) || LegacyFontAliases[k] in ScriptFontChoices(fontsDir)
  {
    AliasTargetsCover();
    var main, script := FontChoices(fontsDir), ScriptFontChoices(fontsDir);
    assert "TimesRoman" in main && "DejaVuSerif" in main && "DejaVuSans" in main && "DejaVuSansMono" in main;
    assert "PatrickHand" in script && "PermanentMarker" in script;
  }

  /** The first path `present` holds for, in list order. */
  function FirstPresent(paths: seq<string>, present: string -> bool): (r: Option<string>)
    ensures r.None? <==> forall i :: 0 <= i < |paths| ==> !present(paths[i])
    ensures r.Some? ==> exists i :: 0 <= i < |paths| && paths[i] == r.value && present(r.value)
                                 && forall j :: 0 <= j < i ==> !present(paths[j])
  {
    if paths == [] then None
    else if present(paths[0]) then Some(paths[0])
    else
      var rest := FirstPresent(paths[1..], present);
      assert forall i :: 1 <= i < |paths| ==> paths[i] == paths[1..][i - 1];
      rest
  }

  /** What `_resolve_font_choice` returns for `choice_id` in `catalog`, where `present`
      says which files exist. */
  function FontResolution(choiceId: string, catalog: Catalog, present: string -> bool): (Option<string>, Option<string>)
  {
    var id := ResolvedId(choiceId);
    if id !in catalog then (None, None)
    else
      var choice := catalog[id];
      if choice.pdfName.None? || choice.pdfName.value == [] then (None, None)
      else if choice.paths == [] then (choice.pdfName, None)
      else
        match FirstPresent(choice.paths, present)
        case Some(path) => (choice.pdfName, Some(path))
        case None => (None, None)
  }

  /** An unknown id or an entry without a PDF name gives nothing; a built-in font gives
      its name and no file; otherwise the name comes with the first existing file in
      list order, and with no existing file nothing is given. A file never comes
      without a name. */
  lemma FontResolutionCases(choiceId: string, catalog: Catalog, present: string -> bool)
    ensures var (name, file) := FontResolution(choiceId, catalog, present);
      var id := ResolvedId(choiceId);
      && (file.Some? ==> name.Some?)
      && (id !in catalog ==> name.None?)
      && (name.Some? ==> id in catalog && name == catalog[id].pdfName && name.value != [])
      && (name.Some? && file.None? <==> id in catalog && catalog[id].pdfName.Some? && catalog[id].pdfName.value != []
                                         && catalog[id].paths == [])
      && (file.Some? ==> exists i :: 0 <= i < |catalog[id].paths| && catalog[id].paths[i] == file.value
                                   && present(file.value) && forall j :: 0 <= j < i ==> !present(catalog[id].paths[j]))
      && (id in catalog && catalog[id].pdfName.Some? && catalog[id].pdfName.value != [] && catalog[id].paths != [] ==>
            (name.None? <==> forall p :: p in catalog[id].paths ==> !present(p)))
  {
    var id := ResolvedId(choiceId);
    if id in catalog {
      var paths := catalog[id].paths;
      assert (forall p :: p in paths ==> !present(p)) <==> (forall i :: 0 <= i < |paths| ==> !present(paths[i]));
    }
  }

  /** `_resolve_font_choice`. */
  method ResolveFontChoice(choiceId: string, catalog: Catalog, present: string -> bool)
    returns (name: Option<string>, file: Option<string>)
    ensures (name, file) == FontResolution(choiceId, catalog, present)
  {
    var resolvedId := if choiceId in LegacyFontAliases then LegacyFontAliases[choiceId] else choiceId;
    if resolvedId !in catalog {
      return None, None;
    }
    var choice := catalog[resolvedId];
    if choice.pdfName.None? || choice.pdfName.value == [] {
      return None, None;
    }
    if choice.paths == [] {
      return choice.pdfName, None;
    }
    for i := 0 to |choice.paths|
      invariant FirstPresent(choice.paths, present) == FirstPresent(choice.paths[i..], present)
    {
      assert choice.paths[i..][1..] == choice.paths[i + 1..];
      if present(choice.paths[i]) {
        return choice.pdfName, Some(choice.paths[i]);
      }
    }
    return None, None;
  }

  /** The main font the server passes on: the resolved one, or Helvetica with no file
      when the choice resolves to nothing. */
  function MainFont(choiceId: string, fontsDir: string, present: string -> bool): (string, Option<string>)
  {
    var (name, file) := FontResolution(choiceId, FontChoices(fontsDir), present);
    if name.None? then ("Helvetica", None) else (name.value, file)
  }

  /** The main font always has a name; a choice that resolves to nothing falls back to
      Helvetica, which needs no file. */
  lemma MainFontNamed(choiceId: string, fontsDir: string, present: string -> bool)
    ensures MainFont(choiceId, fontsDir, present).0 != []
    ensures FontResolution(choiceId, FontChoices(fontsDir), present).0.None? ==>
      MainFont(choiceId, fontsDir, present) == ("Helvetica", None)
  {
    FontResolutionCases(choiceId, FontChoices(fontsDir), present);
  }

  /** The retired id "Georgia" is looked up as "DejaVuSerif". */
  lemma GeorgiaIsDejaVuSerif(catalog: Catalog, present: string -> bool)
    ensures FontResolution("Georgia", catalog, present) == FontResolution("DejaVuSerif", catalog, present)
  {
    assert ResolvedId("Georgia") == "DejaVuSerif";
    assert ResolvedId("DejaVuSerif") == "DejaVuSerif";
  }

  /** The script choice "None" gives no script font. */
  lemma NoScriptFont(fontsDir: string, present: string -> bool)
    ensures FontResolution("None", ScriptFontChoices(fontsDir), present) == (None, None)
  {
    assert ResolvedId("None") == "None";
  }
}
