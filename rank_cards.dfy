/** The rank-card generator: a landscape sheet of eight cards, each card's six values
    drawn turned by 90 degrees at fixed offsets from the card's anchor. */
module RankCards {
  import opened Values
  import opened Rows
  import opened Layout

  /** `CARDS_PER_PAGE`. */
  const CardsPerPage: nat := 8

  /** `CARD_ANCHOR_X` and `CARD_X_STEP`. */
  const CardAnchorX: real := 52.6
  const CardXStep: real := 180.0

  /** `CARD_ANCHORS`: four cards along the top row, then four along the bottom row. */
  const CardAnchors: seq<(real, real)> := AnchorRow(360.0) + AnchorRow(90.0)

  /** One row of four anchors at height `y`, one card width apart. */
  function AnchorRow(y: real): seq<(real, real)>
  {
    seq(4, col => (CardAnchorX + CardXStep * col as real, y))
  }

  /** Slot `i < 4` is column `i` of the top row (y = 360), slot `i >= 4` column `i - 4`
      of the bottom row (y = 90). */
  lemma CardAnchorsLayout()
    ensures |CardAnchors| == CardsPerPage
    ensures forall i :: 0 <= i < 4 ==> CardAnchors[i] == (52.6 + 180.0 * i as real, 360.0)
    ensures forall i :: 4 <= i < 8 ==> CardAnchors[i] == (52.6 + 180.0 * (i - 4) as real, 90.0)
  {
  }

  /** No two slots share an anchor: two different cards are 180 points apart
      horizontally or 270 points apart vertically. */
  lemma {:induction false} CardAnchorsApart(i: nat, j: nat)
    requires i < CardsPerPage && j < CardsPerPage && i != j
    ensures var a, b := CardAnchors[i], CardAnchors[j];
      (a.0 - b.0 >= 180.0 || b.0 - a.0 >= 180.0) || (a.1 - b.1 == 270.0 || b.1 - a.1 == 270.0)
  {
    CardAnchorsLayout();
    if (i < 4) == (j < 4) {
      var ci := if i < 4 then i else i - 4;
      var cj := if j < 4 then j else j - 4;
      assert ci != cj;
      assert CardAnchors[i].0 - CardAnchors[j].0 == 180.0 * (ci - cj) as real;
      if ci < cj {
        assert (cj - ci) as real >= 1.0;
      } else {
        assert (ci - cj) as real >= 1.0;
      }
    }
  }

  // ---------------------------------------------------------------------
  // Field layout

  /** The six values a card shows; the award is not one of them. */
  datatype CardField = DenNumber | PackNumber | DateField | Name | DenLeader | Cubmaster

  /** One entry of `FIELD_LAYOUT`: offset from the card's left edge and baseline, the
      base size, the width the text must fit, and the optional size cap. */
  datatype FieldSpec = FieldSpec(x: real, y: real, size: real, maxWidth: real, maxSize: Option<real>)

  /** `FIELD_LAYOUT`. */
  function LayoutOf(f: CardField): FieldSpec
  {
    match f
    case DenNumber => FieldSpec(58.0, 46.0, 7.5, 46.0, None)
    case PackNumber => FieldSpec(66.0, 58.0, 7.5, 50.0, None)
    case DateField => FieldSpec(76.0, 72.0, 7.0, 84.0, None)
    case Name => FieldSpec(124.0, -2.0, 10.5, 105.0, Some(16.0))
    case DenLeader => FieldSpec(72.0, 24.0, 8.0, 106.0, Some(7.5))
    case Cubmaster => FieldSpec(89.0, 10.0, 8.0, 106.0, Some(7.5))
  }

  /** The `FIELD_LAYOUT` key of a field, used to name its draw. */
  function KeyOf(f: CardField): string
  {
    match f
    case DenNumber => "den_number"
    case PackNumber => "pack_number"
    case DateField => "date"
    case Name => "name"
    case DenLeader => "den_leader"
    case Cubmaster => "cubmaster"
  }

  predicate IsSignature(f: CardField)
  {
    f == DenLeader || f == Cubmaster
  }

  // ---------------------------------------------------------------------
  // Fitter

  /** The rank-card fitter steps down by 0.4 points to a floor of 6. */
  const CardFitStep: real := 0.4
  const CardFloor: real := 6.0

  /** What the rank-card `_fit_font_size` returns: the base size for empty text;
      otherwise the descending search from the base size, floored at 6. */
  function CardFittedSize(text: string, font: string, baseSize: real, maxWidth: real, width: WidthFn): real
  {
    if text == [] then baseSize
    else Max(DescendFrom(text, font, baseSize, CardFloor, CardFitStep, maxWidth, width), CardFloor)
  }

  /** Empty text keeps the base size even below the floor; other text gets a size from 6
      up to `max(base_size, 6)` that fits the width whenever it is above 6, and that is
      either 6 or the base size less a whole number of 0.4 steps. */
  lemma CardFittedSizeBounds(text: string, font: string, baseSize: real, maxWidth: real, width: WidthFn)
    ensures var size := CardFittedSize(text, font, baseSize, maxWidth, width);
      && (text == [] ==> size == baseSize)
      && (text != [] ==> CardFloor <= size <= Max(baseSize, CardFloor))
      && (text != [] && size > CardFloor ==> width(text, font, size) <= maxWidth)
      && (text != [] ==> size == CardFloor || exists k: nat :: size == GridSize(baseSize, CardFitStep, k))
  {
    if text != [] {
      DescendOnGrid(text, font, baseSize, CardFloor, CardFitStep, maxWidth, width);
    }
  }

  /** `_fit_font_size` of the rank-card generator. */
  method FitFontSize(text: string, font: string, baseSize: real, maxWidth: real, width: WidthFn) returns (size: real)
    ensures text == [] ==> size == baseSize
    ensures text != [] ==> CardFloor <= size <= Max(baseSize, CardFloor)
    ensures text != [] && size > CardFloor ==> width(text, font, size) <= maxWidth
    ensures size == CardFittedSize(text, font, baseSize, maxWidth, width)
  {
    if text == [] {
      return baseSize;
    }
    size := baseSize;
    while size > CardFloor && width(text, font, size) > maxWidth
      invariant size <= baseSize
      invariant DescendFrom(text, font, size, CardFloor, CardFitStep, maxWidth, width)
             == DescendFrom(text, font, baseSize, CardFloor, CardFitStep, maxWidth, width)
      decreases StepsLeft(size, CardFloor, CardFitStep)
    {
      StepsLeftDecreases(size, CardFloor, CardFitStep);
      size := size - CardFitStep;
    }
    size := Max(size, CardFloor);
  }

  // ---------------------------------------------------------------------
  // Placement

  /** `base_size` capped by `max_size` when the layout gives one. */
  function CappedSize(baseSize: real, maxSize: Option<real>): real
  {
    if maxSize.Some? then Min(baseSize, maxSize.value) else baseSize
  }

  /** `_draw_rotated_text` for a card anchored at `anchor`: nothing for empty text,
      otherwise the text drawn from the origin of a canvas moved to the field's spot on
      that card and turned by 90 degrees. */
  function PlaceRotated(key: string, anchor: (real, real), text: string, font: string, baseSize: real,
                        maxWidth: real, fieldX: real, fieldY: real, maxSize: Option<real>, width: WidthFn): Option<Draw>
  {
    if text == [] then None
    else
      var size := CardFittedSize(text, font, CappedSize(baseSize, maxSize), maxWidth, width);
      Some(Draw(key, text, font, size, anchor.0 + (fieldX - CardAnchorX), anchor.1 + fieldY, 90, 0.0, 0.0, false))
  }

  /** A draw happens exactly for non-empty text; it is left-aligned at the origin of a
      canvas turned by 90 degrees and moved to `(anchor_x + field_x - 52.6,
      anchor_y + field_y)`, and its size lies between 6 and the capped base size (or 6). */
  lemma PlaceRotatedPlacement(key: string, anchor: (real, real), text: string, font: string, baseSize: real,
                              maxWidth: real, fieldX: real, fieldY: real, maxSize: Option<real>, width: WidthFn)
    ensures PlaceRotated(key, anchor, text, font, baseSize, maxWidth, fieldX, fieldY, maxSize, width).None? <==> text == []
    ensures text != [] ==>
      var d := PlaceRotated(key, anchor, text, font, baseSize, maxWidth, fieldX, fieldY, maxSize, width).value;
      && d.field == key && d.text == text && d.font == font
      && d.originX == anchor.0 + fieldX - 52.6 && d.originY == anchor.1 + fieldY
      && d.rotation == 90 && d.x == 0.0 && d.y == 0.0 && !d.centred
      && 6.0 <= d.size <= Max(CappedSize(baseSize, maxSize), 6.0)
      && (maxSize.Some? ==> d.size <= Max(maxSize.value, 6.0))
      && (d.size > 6.0 ==> width(text, font, d.size) <= maxWidth)
  {
    if text != [] {
      CardFittedSizeBounds(text, font, CappedSize(baseSize, maxSize), maxWidth, width);
    }
  }

  /** `_draw_rotated_text`. */
  method DrawRotatedText(key: string, anchor: (real, real), text: string, font: string, baseSize: real,
                         maxWidth: real, fieldX: real, fieldY: real, maxSize: Option<real>, width: WidthFn)
    returns (d: Option<Draw>)
    ensures d.None? <==> text == []
    ensures d.Some? ==> d.value.rotation == 90 && 6.0 <= d.value.size <= Max(CappedSize(baseSize, maxSize), 6.0)
    ensures d == PlaceRotated(key, anchor, text, font, baseSize, maxWidth, fieldX, fieldY, maxSize, width)
  {
    if text == [] {
      return None;
    }
    var base := baseSize;
    if maxSize.Some? {
      base := Min(base, maxSize.value);
    }
    var size := FitFontSize(text, font, base, maxWidth, width);
    d := Some(Draw(key, text, font, size, anchor.0 + (fieldX - CardAnchorX), anchor.1 + fieldY, 90, 0.0, 0.0, false));
  }

  // ---------------------------------------------------------------------
  // Fonts and sizes per card

  /** The options of `fill_rank_cards` that shape the output. */
  datatype RankCardOptions = RankCardOptions(
    shiftLeftInch: real,
    shiftDownInch: real,
    font: string,
    scriptFont: Option<string>,
    fontSize: real,
    scriptFontSize: Option<real>)

  /** `script_font_name or font_name`. */
  function SignatureFont(opts: RankCardOptions): string
  {
    if opts.scriptFont.Some? && opts.scriptFont.value != [] then opts.scriptFont.value else opts.font
  }

  /** `script_font_size` when given, else `max(font_size - 1, 7)`. */
  function SignatureSize(opts: RankCardOptions): real
  {
    if opts.scriptFontSize.Some? then opts.scriptFontSize.value else Max(opts.fontSize - 1.0, 7.0)
  }

  /** The font a field is drawn in: the signature font for the two signatures, the
      main font otherwise. */
  function FontOf(f: CardField, opts: RankCardOptions): string
  {
    if IsSignature(f) then SignatureFont(opts) else opts.font
  }

  /** The `base_size` argument `fill_rank_cards` passes for a field: the layout size,
      raised to the font size for the name and to the signature size for signatures. */
  function CallBaseSize(f: CardField, opts: RankCardOptions): real
  {
    match f
    case Name => Max(LayoutOf(Name).size, opts.fontSize)
    case DenLeader => Max(LayoutOf(DenLeader).size, SignatureSize(opts))
    case Cubmaster => Max(LayoutOf(Cubmaster).size, SignatureSize(opts))
    case _ => LayoutOf(f).size
  }

  /** The size a field's fit starts from once its cap is applied: the name follows the
      font size within 10.5 to 16, both signatures always start at 7.5 whatever sizes
      were asked for, and den number, pack and date are fixed at 7.5, 7.5 and 7.0. */
  function PreFitSize(f: CardField, opts: RankCardOptions): (r: real)
    ensures f == Name ==> 10.5 <= r <= 16.0
    ensures f == Name ==> r == (if opts.fontSize > 16.0 then 16.0 else if opts.fontSize < 10.5 then 10.5 else opts.fontSize)
    ensures IsSignature(f) ==> r == 7.5
    ensures f == DenNumber || f == PackNumber ==> r == 7.5
    ensures f == DateField ==> r == 7.0
  {
    CappedSize(CallBaseSize(f, opts), LayoutOf(f).maxSize)
  }

  /** The value a card shows for a field, taken from the normalised row. */
  function CardValue(f: CardField, rec: Record): string
  {
    match f
    case DenNumber => rec.denNumber
    case PackNumber => rec.packNumber
    case DateField => rec.date
    case Name => rec.scoutName
    case DenLeader => rec.denLeader
    case Cubmaster => rec.cubmaster
  }

  /** The draw for one field of the card anchored at `anchor`. */
  function PlaceField(f: CardField, anchor: (real, real), rec: Record, opts: RankCardOptions, width: WidthFn): Option<Draw>
  {
    var spec := LayoutOf(f);
    PlaceRotated(KeyOf(f), anchor, CardValue(f, rec), FontOf(f, opts), CallBaseSize(f, opts),
                 spec.maxWidth, spec.x, spec.y, spec.maxSize, width)
  }

  /** A field is drawn exactly when its value is non-empty, in the signature font for
      the signatures, at the field's layout offset on the card, at a size from 6 up to
      its pre-fit size (so never above 7.5 for a signature). */
  lemma PlaceFieldContents(f: CardField, anchor: (real, real), rec: Record, opts: RankCardOptions, width: WidthFn)
    ensures PlaceField(f, anchor, rec, opts, width).None? <==> CardValue(f, rec) == []
    ensures CardValue(f, rec) != [] ==>
      var d := PlaceField(f, anchor, rec, opts, width).value;
      && d.field == KeyOf(f) && d.text == CardValue(f, rec)
      && d.font == (if IsSignature(f) then SignatureFont(opts) else opts.font)
      && d.originX == anchor.0 + LayoutOf(f).x - 52.6 && d.originY == anchor.1 + LayoutOf(f).y
      && d.rotation == 90
      && 6.0 <= d.size <= Max(PreFitSize(f, opts), 6.0)
      && (IsSignature(f) ==> d.size <= 7.5)
  {
    var spec := LayoutOf(f);
    PlaceRotatedPlacement(KeyOf(f), anchor, CardValue(f, rec), FontOf(f, opts), CallBaseSize(f, opts),
                          spec.maxWidth, spec.x, spec.y, spec.maxSize, width);
    assert PreFitSize(f, opts) == CappedSize(CallBaseSize(f, opts), spec.maxSize);
  }

  function Drawn(d: Option<Draw>): seq<Draw>
  {
    if d.Some? then [d.value] else []
  }

  /** The six draws of one card, in the order `fill_rank_cards` issues them. */
  function CardDraws(anchor: (real, real), rec: Record, opts: RankCardOptions, width: WidthFn): seq<Draw>
  {
    Drawn(PlaceField(DenNumber, anchor, rec, opts, width))
    + Drawn(PlaceField(PackNumber, anchor, rec, opts, width))
    + Drawn(PlaceField(DateField, anchor, rec, opts, width))
    + Drawn(PlaceField(Name, anchor, rec, opts, width))
    + Drawn(PlaceField(DenLeader, anchor, rec, opts, width))
    + Drawn(PlaceField(Cubmaster, anchor, rec, opts, width))
  }

  /** Normalising reads no column besides "Award Name" and "Rank" for the award, and
      those two for nothing else. */
  lemma NormalizeOutsideAward(r1: Row, r2: Row)
    requires forall k :: k != "Award Name" && k != "Rank" ==> Get(r1, k) == Get(r2, k)
    ensures Normalize(r1).(award := Normalize(r2).award) == Normalize(r2)
  {
    assert Get(r1, "Scout Name") == Get(r2, "Scout Name");
    assert Get(r1, "Date") == Get(r2, "Date");
    assert Get(r1, "Pack Number") == Get(r2, "Pack Number");
    assert Get(r1, "Den Number") == Get(r2, "Den Number");
    assert Get(r1, "Den No.") == Get(r2, "Den No.");
    assert Get(r1, "Den Leader") == Get(r2, "Den Leader");
    assert Get(r1, "Cubmaster") == Get(r2, "Cubmaster");
  }

  lemma CardDrawsIgnoreAward(anchor: (real, real), a: Record, b: Record, opts: RankCardOptions, width: WidthFn)
    requires a.(award := b.award) == b
    ensures CardDraws(anchor, a, opts, width) == CardDraws(anchor, b, opts, width)
  {
    forall f: CardField
      ensures PlaceField(f, anchor, a, opts, width) == PlaceField(f, anchor, b, opts, width)
    {
      assert CardValue(f, a) == CardValue(f, b);
    }
  }

  /** The award (from "Award Name" or "Rank") never reaches a card: two rows that agree
      on every other column give the same card. */
  lemma AwardNeverDrawn(anchor: (real, real), r1: Row, r2: Row, opts: RankCardOptions, width: WidthFn)
    requires forall k :: k != "Award Name" && k != "Rank" ==> Get(r1, k) == Get(r2, k)
    ensures CardDraws(anchor, Normalize(r1), opts, width) == CardDraws(anchor, Normalize(r2), opts, width)
  {
    NormalizeOutsideAward(r1, r2);
    CardDrawsIgnoreAward(anchor, Normalize(r1), Normalize(r2), opts, width);
  }

  /** The body of the row loop: the six `_draw_rotated_text` calls for one card. */
  method DrawCard(anchor: (real, real), rec: Record, opts: RankCardOptions, width: WidthFn) returns (draws: seq<Draw>)
    ensures draws == CardDraws(anchor, rec, opts, width)
  {
    var sigFont := SignatureFont(opts);
    var sigSize := SignatureSize(opts);
    var d: Option<Draw>;
    var spec := LayoutOf(DenNumber);
    d := DrawRotatedText("den_number", anchor, rec.denNumber, opts.font, spec.size, spec.maxWidth, spec.x, spec.y, spec.maxSize, width);
    draws := Drawn(d);
    spec := LayoutOf(PackNumber);
    d := DrawRotatedText("pack_number", anchor, rec.packNumber, opts.font, spec.size, spec.maxWidth, spec.x, spec.y, spec.maxSize, width);
    draws := draws + Drawn(d);
    spec := LayoutOf(DateField);
    d := DrawRotatedText("date", anchor, rec.date, opts.font, spec.size, spec.maxWidth, spec.x, spec.y, spec.maxSize, width);
    draws := draws + Drawn(d);
    spec := LayoutOf(Name);
    d := DrawRotatedText("name", anchor, rec.scoutName, opts.font, Max(spec.size, opts.fontSize), spec.maxWidth, spec.x, spec.y, spec.maxSize, width);
    draws := draws + Drawn(d);
    spec := LayoutOf(DenLeader);
    d := DrawRotatedText("den_leader", anchor, rec.denLeader, sigFont, Max(spec.size, sigSize), spec.maxWidth, spec.x, spec.y, spec.maxSize, width);
    draws := draws + Drawn(d);
    spec := LayoutOf(Cubmaster);
    d := DrawRotatedText("cubmaster", anchor, rec.cubmaster, sigFont, Max(spec.size, sigSize), spec.maxWidth, spec.x, spec.y, spec.maxSize, width);
    draws := draws + Drawn(d);
  }

  // ---------------------------------------------------------------------
  // Pages

  /** The overlay of one sheet: the cards of its rows, row `idx` in slot `idx`. */
  function SheetDraws(recs: seq<Record>, opts: RankCardOptions, width: WidthFn): seq<Draw>
    requires |recs| <= CardsPerPage
  {
    if recs == [] then []
    else
      var n := |recs|;
      SheetDraws(recs[..n - 1], opts, width) + CardDraws(CardAnchors[n - 1], recs[n - 1], opts, width)
  }

  /** `d` is one of the six fields placed on the card in slot `i`. */
  predicate OnCard(d: Draw, i: nat)
    requires i < CardsPerPage
  {
    exists f :: d.field == KeyOf(f)
             && d.originX == CardAnchors[i].0 + LayoutOf(f).x - 52.6
             && d.originY == CardAnchors[i].1 + LayoutOf(f).y
  }

  /** Every draw of the card in slot `i` is turned by 90 degrees, shows non-empty text
      and sits at a field's offset from that slot's anchor. */
  lemma CardDrawsPlacement(i: nat, rec: Record, opts: RankCardOptions, width: WidthFn)
    requires i < CardsPerPage
    ensures forall d :: d in CardDraws(CardAnchors[i], rec, opts, width) ==> d.rotation == 90 && d.text != [] && OnCard(d, i)
  {
    var anchor := CardAnchors[i];
    forall f: CardField
      ensures forall d :: d in Drawn(PlaceField(f, anchor, rec, opts, width)) ==> d.rotation == 90 && d.text != [] && OnCard(d, i)
    {
      PlaceFieldContents(f, anchor, rec, opts, width);
    }
  }

  /** One more row adds its card after those of the rows before it. */
  lemma SheetDrawsNext(recs: seq<Record>, idx: nat, opts: RankCardOptions, width: WidthFn)
    requires idx < |recs| <= CardsPerPage
    ensures SheetDraws(recs[..idx + 1], opts, width)
         == SheetDraws(recs[..idx], opts, width) + CardDraws(CardAnchors[idx], recs[idx], opts, width)
  {
    assert recs[..idx + 1][..idx] == recs[..idx];
  }

  /** The template sheet: its media box and its `/Rotate` entry. */
  datatype Sheet = Sheet(width: real, height: real, rotate: Option<int>)

  /** The page `fill_rank_cards` produces for one chunk of at most eight rows: the
      shift is mapped by the sheet's own `/Rotate` only. */
  function RankPage(chunk: seq<Row>, sheet: Sheet, opts: RankCardOptions, width: WidthFn): OutputPage
    requires |chunk| <= CardsPerPage
  {
    OutputPage(sheet.width, sheet.height, SheetDraws(NormalizeAll(chunk), opts, width),
               PageTranslation(sheet.rotate.GetOr(0), opts.shiftLeftInch, opts.shiftDownInch))
  }

  predicate FitsSheet(chunks: seq<seq<Row>>)
  {
    forall c :: c in chunks ==> |c| <= CardsPerPage
  }

  function RankPages(chunks: seq<seq<Row>>, sheet: Sheet, opts: RankCardOptions, width: WidthFn): seq<OutputPage>
    requires FitsSheet(chunks)
  {
    seq(|chunks|, p requires 0 <= p < |chunks| => RankPage(chunks[p], sheet, opts, width))
  }

  /** The chunks of eight never hold more rows than a sheet has slots, so every
      `CARD_ANCHORS[idx]` lookup is in range. */
  lemma ChunksFitSheet(rows: seq<Row>)
    ensures FitsSheet(Chunk(rows, CardsPerPage))
  {
    ChunkSizes(rows, CardsPerPage);
    forall c | c in Chunk(rows, CardsPerPage)
      ensures |c| <= CardsPerPage
    {
      var i :| 0 <= i < |Chunk(rows, CardsPerPage)| && Chunk(rows, CardsPerPage)[i] == c;
    }
  }

  /** The row loop for one sheet. */
  method FillSheet(chunk: seq<Row>, sheet: Sheet, opts: RankCardOptions, width: WidthFn) returns (page: OutputPage)
    requires |chunk| <= CardsPerPage
    ensures page == RankPage(chunk, sheet, opts, width)
  {
    var rotate := sheet.rotate.GetOr(0);
    var (tx, ty) := MapDisplayShift(rotate, -72.0 * opts.shiftLeftInch, -72.0 * opts.shiftDownInch);
    var translation := if tx != 0.0 || ty != 0.0 then Some((tx, ty)) else None;
    assert translation == PageTranslation(rotate, opts.shiftLeftInch, opts.shiftDownInch);
    NormalizeAllAt(chunk);
    var draws := DrawCards(chunk, opts, width, Normalize, NormalizeAll(chunk));
    page := OutputPage(sheet.width, sheet.height, draws, translation);
  }

  /** The card loop for one sheet, with `recs` the rows it normalises. The loop is
      proved for any row normaliser `normalize`, so its proof never looks into what
      normalising a row does. */
  method DrawCards(chunk: seq<Row>, opts: RankCardOptions, width: WidthFn, normalize: Row -> Record, ghost recs: seq<Record>)
    returns (draws: seq<Draw>)
    requires |chunk| <= CardsPerPage && |recs| == |chunk|
    requires forall j :: 0 <= j < |chunk| ==> recs[j] == normalize(chunk[j])
    ensures draws == SheetDraws(recs, opts, width)
  {
    draws := [];
    for idx := 0 to |chunk|
      invariant draws == SheetDraws(recs[..idx], opts, width)
    {
      var anchor := CardAnchors[idx];
      var card := DrawCard(anchor, normalize(chunk[idx]), opts, width);
      SheetDrawsNext(recs, idx, opts, width);
      draws := draws + card;
    }
    assert recs[..|chunk|] == recs;
  }

  /** The page loop of `fill_rank_cards`. */
  method FillSheets(chunks: seq<seq<Row>>, sheet: Sheet, opts: RankCardOptions, width: WidthFn) returns (pages: seq<OutputPage>)
    requires FitsSheet(chunks)
    ensures pages == RankPages(chunks, sheet, opts, width)
  {
    ghost var spec := RankPages(chunks, sheet, opts, width);
    pages := [];
    for p := 0 to |chunks|
      invariant pages == spec[..p]
    {
      assert chunks[p] in chunks;
      var page := FillSheet(chunks[p], sheet, opts, width);
      assert page == spec[p];
      SnocSlice(spec, p);
      pages := pages + [page];
    }
    assert spec[..|chunks|] == spec;
  }

  /** `fill_rank_cards`, up to writing the PDF: the sheets in order, or the first error
      met (missing template, then the CSV's errors). */
  method FillRankCards(template: Option<Sheet>, csv: Csv, opts: RankCardOptions, width: WidthFn)
    returns (r: Result<seq<OutputPage>, GenError>)
    ensures template.None? ==> r == Err(TemplateMissing)
    ensures template.Some? && ReadRows(csv).Err? ==> r == Err(NoHeaderRow)
    ensures template.Some? && ReadRows(csv) == Ok([]) ==> r == Err(NoDataRows)
    ensures r.Ok? ==> template.Some? && ReadRows(csv).Ok? && ReadRows(csv).value != []
    ensures r.Ok? ==>
      var rows := ReadRows(csv).value;
      && |r.value| == PageCount(|rows|, CardsPerPage)
      && FitsSheet(Chunk(rows, CardsPerPage))
      && r.value == RankPages(Chunk(rows, CardsPerPage), template.value, opts, width)
  {
    if template.None? {
      return Err(TemplateMissing);
    }
    var read := ReadRows(csv);
    if read.Err? {
      return Err(read.error);
    }
    var rows := read.value;
    if rows == [] {
      return Err(NoDataRows);
    }
    var chunks := Chunk(rows, CardsPerPage);
    ChunkCount(rows, CardsPerPage);
    ChunksFitSheet(rows);
    var pages := FillSheets(chunks, template.value, opts, width);
    return Ok(pages);
  }
}
