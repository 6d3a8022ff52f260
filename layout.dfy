/** Layout primitives shared by the certificate and rank-card generators: the
    rotation-aware mapping of the user's display-space shift onto the page, and the
    descending search both font-size fitters run. */
module Layout {
  import opened Values

  /** `stringWidth(text, font_name, size)` of the PDF library: the width of `text` set
      in `font_name` at `size`, left uninterpreted. */
  type WidthFn = (string, string, real) -> real

  function Min(a: real, b: real): real { if a <= b then a else b }
  function Max(a: real, b: real): real { if a >= b then a else b }

  // ---------------------------------------------------------------------
  // Display shift

  /** `_map_display_shift_to_page`: turns a shift meant in display space into page
      space for a page whose `/Rotate` is `rotate`. Angles other than right angles
      leave the shift unchanged. */
  function MapDisplayShift(rotate: int, dx: real, dy: real): (real, real)
  {
    var r := rotate % 360;
    if r == 0 then (dx, dy)
    else if r == 90 then (-dy, dx)
    else if r == 180 then (-dx, -dy)
    else if r == 270 then (dy, -dx)
    else (dx, dy)
  }

  predicate IsRightAngle(rotate: int)
  {
    var r := rotate % 360;
    r == 0 || r == 90 || r == 180 || r == 270
  }

  /** Mapping with `r` and then with `(360 - r) % 360` gives back the display shift. */
  lemma MapDisplayShiftInverse(rotate: int, dx: real, dy: real)
    ensures var t := MapDisplayShift(rotate, dx, dy);
            MapDisplayShift((360 - rotate) % 360, t.0, t.1) == (dx, dy)
  {
    var r := rotate % 360;
    var back := (360 - rotate) % 360;
    assert back == (360 - r) % 360;
    if r == 0 {
      assert back == 0;
    } else if r == 90 {
      assert back == 270;
    } else if r == 180 {
      assert back == 180;
    } else if r == 270 {
      assert back == 90;
    } else {
      assert back == 360 - r;
      assert !IsRightAngle(back);
    }
  }

  /** The mapping is a rotation: it keeps the length of the shift. */
  lemma MapDisplayShiftKeepsLength(rotate: int, dx: real, dy: real)
    ensures var t := MapDisplayShift(rotate, dx, dy);
            t.0 * t.0 + t.1 * t.1 == dx * dx + dy * dy
  {
  }

  /** The page shift is zero exactly when the display shift is, so whether a
      translation gets applied never depends on the page's rotation. */
  lemma MapDisplayShiftZero(rotate: int, dx: real, dy: real)
    ensures MapDisplayShift(rotate, dx, dy) == (0.0, 0.0) <==> dx == 0.0 && dy == 0.0
  {
  }

  /** For right angles, mapping by `a` and then by `b` is mapping by `a + b`. */
  lemma MapDisplayShiftCompose(a: int, b: int, dx: real, dy: real)
    requires IsRightAngle(a) && IsRightAngle(b)
    ensures var t := MapDisplayShift(a, dx, dy);
            MapDisplayShift(b, t.0, t.1) == MapDisplayShift(a + b, dx, dy)
  {
    var ra, rb := a % 360, b % 360;
    assert (a + b) % 360 == (ra + rb) % 360;
    var t := MapDisplayShift(a, dx, dy);
    if ra == 0 {
      assert t == (dx, dy);
    } else if ra == 90 {
      assert t == (-dy, dx);
    } else if ra == 180 {
      assert t == (-dx, -dy);
    } else {
      assert t == (dy, -dx);
    }
  }

  // ---------------------------------------------------------------------
  // Descending font-size search

  /** The loop condition of both fitters: still above the floor and still too wide. */
  predicate Overflows(text: string, font: string, size: real, floor: real, maxWidth: real, width: WidthFn)
  {
    size > floor && width(text, font, size) > maxWidth
  }

  /** The termination measure of the search: how many more steps fit above `floor`. */
  function StepsLeft(size: real, floor: real, step: real): nat
    requires step > 0.0
  {
    if size > floor then ((size - floor) / step).Floor + 1 else 0
  }

  lemma StepsLeftDecreases(size: real, floor: real, step: real)
    requires step > 0.0 && size > floor
    ensures StepsLeft(size - step, floor, step) < StepsLeft(size, floor, step)
  {
    var q := (size - floor) / step;
    assert q * step == size - floor;
    assert (q - 1.0) * step == size - step - floor;
    var q2 := (size - step - floor) / step;
    assert q2 * step == size - step - floor;
    assert (q2 - q + 1.0) * step == 0.0;
    ZeroProduct(q2 - q + 1.0, step);
    assert (q - 1.0).Floor == q.Floor - 1;
  }

  lemma ZeroProduct(d: real, step: real)
    requires step > 0.0 && d * step == 0.0
    ensures d == 0.0
  {
  }

  /** The `k`-th size on the search grid below `size`. */
  function GridSize(size: real, step: real, k: nat): real
  {
    size - k as real * step
  }

  /** Steps down from `size` by `step` while the text overflows; the size it stops at. */
  function DescendFrom(text: string, font: string, size: real, floor: real, step: real, maxWidth: real, width: WidthFn): (r: real)
    requires step > 0.0
    ensures r <= size
    ensures !Overflows(text, font, r, floor, maxWidth, width)
    ensures size > floor ==> r > floor - step
    ensures size <= floor ==> r == size
    decreases StepsLeft(size, floor, step)
  {
    if Overflows(text, font, size, floor, maxWidth, width)
    then
      StepsLeftDecreases(size, floor, step);
      DescendFrom(text, font, size - step, floor, step, maxWidth, width)
    else size
  }

  /** The search lands on the grid `size, size - step, size - 2 step, ...`. */
  lemma {:induction false} DescendOnGrid(text: string, font: string, size: real, floor: real, step: real, maxWidth: real, width: WidthFn)
    requires step > 0.0
    ensures exists k: nat :: DescendFrom(text, font, size, floor, step, maxWidth, width) == GridSize(size, step, k)
    decreases StepsLeft(size, floor, step)
  {
    if Overflows(text, font, size, floor, maxWidth, width) {
      StepsLeftDecreases(size, floor, step);
      DescendOnGrid(text, font, size - step, floor, step, maxWidth, width);
      var k: nat :| DescendFrom(text, font, size - step, floor, step, maxWidth, width) == GridSize(size - step, step, k);
      assert GridSize(size - step, step, k) == GridSize(size, step, k + 1);
    } else {
      assert DescendFrom(text, font, size, floor, step, maxWidth, width) == GridSize(size, step, 0);
    }
  }

  /** The search stops at the first grid size that fits: every grid size above the
      result, down from `size`, was too wide. */
  lemma {:induction false} DescendSkipsOnlyOverflows(text: string, font: string, size: real, floor: real, step: real, maxWidth: real, width: WidthFn, k: nat)
    requires step > 0.0
    requires GridSize(size, step, k) > DescendFrom(text, font, size, floor, step, maxWidth, width)
    ensures Overflows(text, font, GridSize(size, step, k), floor, maxWidth, width)
    decreases StepsLeft(size, floor, step)
  {
    if k > 0 {
      assert Overflows(text, font, size, floor, maxWidth, width);
      assert GridSize(size, step, k) == GridSize(size - step, step, k - 1);
      StepsLeftDecreases(size, floor, step);
      DescendSkipsOnlyOverflows(text, font, size - step, floor, step, maxWidth, width, k - 1);
    } else {
      assert size > DescendFrom(text, font, size, floor, step, maxWidth, width);
    }
  }

  // ---------------------------------------------------------------------
  // What ends up on a page

  /** One `drawString` / `drawCentredString` call on the overlay canvas: the text of
      form field `field`, set in `font` at `size`, with the canvas translated to
      `(originX, originY)` and rotated by `rotation` degrees, drawn at `(x, y)` in those
      coordinates, centred on `x` or starting at it. */
  datatype Draw = Draw(
    field: string,
    text: string,
    font: string,
    size: real,
    originX: real,
    originY: real,
    rotation: int,
    x: real,
    y: real,
    centred: bool)

  /** One page of the output: the template page's media box, the overlay merged onto
      it, and the translation added to the page, if any. */
  datatype OutputPage = OutputPage(width: real, height: real, overlay: seq<Draw>, translation: Option<(real, real)>)

  /** The translation both generators add to a page whose effective rotation is
      `rotate`: the display shift `(-72 * left, -72 * down)` mapped onto the page, and
      nothing when it comes out as zero. */
  function PageTranslation(rotate: int, shiftLeftInch: real, shiftDownInch: real): (r: Option<(real, real)>)
  {
    var t := MapDisplayShift(rotate, -72.0 * shiftLeftInch, -72.0 * shiftDownInch);
    if t.0 != 0.0 || t.1 != 0.0 then Some(t) else None
  }

  /** A page is translated exactly when the user asked for a shift, whatever its
      rotation, and then by the mapped display shift, which keeps its length. */
  lemma PageTranslationWhen(rotate: int, shiftLeftInch: real, shiftDownInch: real)
    ensures PageTranslation(rotate, shiftLeftInch, shiftDownInch).None? <==> shiftLeftInch == 0.0 && shiftDownInch == 0.0
    ensures PageTranslation(rotate, shiftLeftInch, shiftDownInch).Some? ==>
      var t := PageTranslation(rotate, shiftLeftInch, shiftDownInch).value;
      t.0 * t.0 + t.1 * t.1 == 5184.0 * (shiftLeftInch * shiftLeftInch + shiftDownInch * shiftDownInch)
  {
    var dx, dy := -72.0 * shiftLeftInch, -72.0 * shiftDownInch;
    MapDisplayShiftZero(rotate, dx, dy);
    MapDisplayShiftKeepsLength(rotate, dx, dy);
    assert dx * dx + dy * dy == 5184.0 * (shiftLeftInch * shiftLeftInch + shiftDownInch * shiftDownInch);
  }
}
