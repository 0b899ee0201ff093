/** The dimension solver: from an aspect ratio such as `"16:9"` and a
    resolution preset to the pixel width and height sent to the provider.
    The long side comes from the preset, capped at 1024; every side is
    clamped to [256, 1024] and floored to a multiple of 8. */
module ImageSizing {
  import opened Wrappers
  import opened Strings
  import opened HistoryTypes

  const MAX_DIMENSION: int := 1024
  const MIN_DIMENSION: int := 256
  const DIMENSION_STEP: int := 8
  const MAX_STEP_VALUE: int := (MAX_DIMENSION / DIMENSION_STEP) * DIMENSION_STEP
  const MIN_STEP_VALUE: int := (MIN_DIMENSION / DIMENSION_STEP) * DIMENSION_STEP

  /** The preset table: the target length of the long side. */
  function ResolutionToLongSide(r: ResolutionPreset): int {
    match r
    case Res480p => 854
    case Res720p => 1280
  }

  datatype Dimensions = Dimensions(width: int, height: int)

  /** A length the provider accepts: a multiple of 8 within [256, 1024]. */
  predicate OnGrid(x: int) {
    MIN_STEP_VALUE <= x <= MAX_STEP_VALUE && x % DIMENSION_STEP == 0
  }

  function MinR(a: real, b: real): real { if a <= b then a else b }
  function MaxR(a: real, b: real): real { if a >= b then a else b }
  function MinI(a: int, b: int): int { if a <= b then a else b }
  function MaxI(a: int, b: int): int { if a >= b then a else b }

  /** `snapDimension`. A non-positive length gives the minimum; otherwise
      the length is clamped and floored to the 8-pixel grid. */
  function SnapDimension(value: real): (r: int)
    ensures OnGrid(r)
    ensures value <= 0.0 ==> r == MIN_STEP_VALUE
  {
    if value <= 0.0 then MIN_STEP_VALUE
    else
      var clamped := MinR(MaxR(value, MIN_STEP_VALUE as real), MAX_STEP_VALUE as real);
      var snapped := (clamped / DIMENSION_STEP as real).Floor * DIMENSION_STEP;
      MaxI(MIN_STEP_VALUE, MinI(snapped, MAX_STEP_VALUE))
  }

  lemma FloorMonotone(a: real, b: real)
    requires a <= b
    ensures a.Floor <= b.Floor
  {
  }

  /** Snapping never decreases when its input grows. */
  lemma SnapMonotone(a: real, b: real)
    requires a <= b
    ensures SnapDimension(a) <= SnapDimension(b)
  {
    if 0.0 < a {
      var ca := MinR(MaxR(a, MIN_STEP_VALUE as real), MAX_STEP_VALUE as real);
      var cb := MinR(MaxR(b, MIN_STEP_VALUE as real), MAX_STEP_VALUE as real);
      FloorMonotone(ca / DIMENSION_STEP as real, cb / DIMENSION_STEP as real);
    }
  }

  /** A length already on the grid snaps to itself. */
  lemma SnapOnGrid(x: int)
    requires OnGrid(x)
    ensures SnapDimension(x as real) == x
  {
    var q := x / DIMENSION_STEP;
    assert x == q * DIMENSION_STEP;
    assert (x as real / DIMENSION_STEP as real) == q as real;
  }

  /** Snapping twice is snapping once. */
  lemma SnapIdempotent(value: real)
    ensures SnapDimension(SnapDimension(value) as real) == SnapDimension(value)
  {
    SnapOnGrid(SnapDimension(value));
  }

  /** `(num / den).Floor` is integer division, for positive operands. */
  lemma FloorOfQuotient(num: nat, den: nat)
    requires den > 0
    ensures (num as real / den as real).Floor == num / den
  {
    var q, r := num / den, num % den;
    assert num == q * den + r && 0 <= r < den;
    assert num as real / den as real == q as real + r as real / den as real;
    assert 0.0 <= r as real / den as real < 1.0;
  }

  /** Snapping the quotient `num / den` in integer arithmetic: the floor of
      `num / (8 * den)` times 8, clamped to [256, 1024]. */
  lemma SnapQuotient(num: nat, den: nat)
    requires den > 0 && num > 0
    ensures SnapDimension(num as real / den as real)
         == MaxI(MIN_STEP_VALUE, MinI(num / (DIMENSION_STEP * den) * DIMENSION_STEP, MAX_STEP_VALUE))
  {
    var x := num as real / den as real;
    var k := num / (DIMENSION_STEP * den);
    assert x / DIMENSION_STEP as real == num as real / (DIMENSION_STEP * den) as real;
    FloorOfQuotient(num, DIMENSION_STEP * den);
    var clamped := MinR(MaxR(x, MIN_STEP_VALUE as real), MAX_STEP_VALUE as real);
    var f := (clamped / DIMENSION_STEP as real).Floor;
    if x < MIN_STEP_VALUE as real {
      assert clamped == MIN_STEP_VALUE as real;
      assert f == MIN_STEP_VALUE / DIMENSION_STEP;
      FloorMonotone(x / DIMENSION_STEP as real, clamped / DIMENSION_STEP as real);
    } else if x > MAX_STEP_VALUE as real {
      assert clamped == MAX_STEP_VALUE as real;
      assert f == MAX_STEP_VALUE / DIMENSION_STEP;
      FloorMonotone(clamped / DIMENSION_STEP as real, x / DIMENSION_STEP as real);
    } else {
      assert clamped == x;
    }
  }

  /** The two numbers of a ratio such as `"16:9"`. */
  datatype Ratio = Ratio(width: nat, height: nat)

  /** `Number(text)` for the texts the model reads: blank-padded decimal
      digits give their value (a blank text gives 0); anything else is NaN,
      written `None`. */
  function JsNumber(text: string): Option<nat> {
    var t := Trim(text);
    if IsDigits(t) then Some(ParseDecimal(t)) else None
  }

  /** The text before the first `:` (all of it when there is none). */
  function FirstPart(s: string): string {
    var k := IndexOf(s, ':');
    if k == -1 then s else s[..k]
  }

  /** The text between the first and the second `:`, absent when the
      string has no `:` at all. */
  function SecondPart(s: string): Option<string> {
    var k := IndexOf(s, ':');
    if k == -1 then None else Some(FirstPart(s[k + 1..]))
  }

  /** A part read as a number is usable when it is a number other than 0
      (`!w` is true for 0, NaN and a missing part). */
  predicate UsablePart(part: Option<string>) {
    part.Some? && JsNumber(part.value).Some? && JsNumber(part.value).value != 0
  }

  /** `parseAspectRatio`: throws unless the first two `:`-separated parts
      are non-zero numbers; later parts are ignored. */
  function ParseAspectRatio(s: string): (r: Result<Ratio, string>)
    ensures r.Ok? <==> UsablePart(Some(FirstPart(s))) && UsablePart(SecondPart(s))
    ensures r.Ok? ==> r.value.width > 0 && r.value.height > 0
    ensures r.Ok? ==> Some(r.value.width) == JsNumber(FirstPart(s))
    ensures r.Ok? ==> Some(r.value.height) == JsNumber(SecondPart(s).value)
    ensures r.Err? ==> r.error == "Invalid aspect ratio: " + s
  {
    var w := JsNumber(FirstPart(s));
    var h := if SecondPart(s).Some? then JsNumber(SecondPart(s).value) else None;
    if w.None? || w.value == 0 || h.None? || h.value == 0 then
      Err("Invalid aspect ratio: " + s)
    else
      Ok(Ratio(w.value, h.value))
  }

  /** The long side every ratio gets at a preset. */
  function LongSide(resolution: ResolutionPreset): int {
    SnapDimension(MinI(ResolutionToLongSide(resolution), MAX_DIMENSION) as real)
  }

  /** The preset table as it comes out: 480p gives 848 (854 floored to the
      grid) and 720p gives 1024 (1280 capped). */
  lemma LongSideValues()
    ensures LongSide(Res480p) == 848
    ensures LongSide(Res720p) == 1024
  {
    SnapQuotient(854, 1);
    SnapOnGrid(1024);
  }

  /** The dimensions for an already parsed ratio: landscape (including
      square) fixes the width to the long side, portrait the height. */
  function DimensionsForRatio(ratio: Ratio, resolution: ResolutionPreset): (d: Dimensions)
    requires ratio.width > 0 && ratio.height > 0
    ensures OnGrid(d.width) && OnGrid(d.height)
  {
    var longSide := LongSide(resolution);
    if ratio.width >= ratio.height then
      var width := longSide;
      Dimensions(width, SnapDimension((width * ratio.height) as real / ratio.width as real))
    else
      var height := longSide;
      Dimensions(SnapDimension((height * ratio.width) as real / ratio.height as real), height)
  }

  /** `computeDimensions`: the ratio parsed, then solved. */
  function ComputeDimensions(aspectRatio: string, resolution: ResolutionPreset): (r: Result<Dimensions, string>)
    ensures r.Ok? <==> ParseAspectRatio(aspectRatio).Ok?
    ensures r.Ok? ==> OnGrid(r.value.width) && OnGrid(r.value.height)
    ensures r.Err? ==> r == Err("Invalid aspect ratio: " + aspectRatio)
  {
    match ParseAspectRatio(aspectRatio)
    case Err(e) => Err(e)
    case Ok(ratio) => Ok(DimensionsForRatio(ratio, resolution))
  }

  /** Scaling a length by `small / big` with `small <= big` never makes it
      longer, and keeps it when the two terms are equal. */
  lemma ScaledQuotient(l: nat, small: nat, big: nat)
    requires 0 < small <= big
    ensures (l * small) as real / big as real <= l as real
    ensures small == big ==> (l * small) as real / big as real == l as real
  {
    var q := (l * small) as real / big as real;
    var b := big as real;
    assert q * b == (l * small) as real;
    assert (l * small) as real == l as real * small as real;
    assert l as real * small as real <= l as real * b;
    if small == big {
      assert q * b == l as real * b;
    }
  }

  /** The orientation of the result follows the ratio: the side of the
      larger ratio term is the preset's long side and the other side never
      exceeds it; a square ratio gives a square. */
  lemma {:induction false} LongSideFollowsOrientation(ratio: Ratio, resolution: ResolutionPreset)
    requires ratio.width > 0 && ratio.height > 0
    ensures var d := DimensionsForRatio(ratio, resolution);
      && (ratio.width >= ratio.height ==> d.width == LongSide(resolution) && d.height <= d.width)
      && (ratio.width < ratio.height ==> d.height == LongSide(resolution) && d.width < d.height + 1)
      && (ratio.width == ratio.height ==> d.width == d.height)
  {
    var longSide := LongSide(resolution);
    SnapOnGrid(longSide);
    if ratio.width >= ratio.height {
      var x := (longSide * ratio.height) as real / ratio.width as real;
      ScaledQuotient(longSide, ratio.height, ratio.width);
      SnapMonotone(x, longSide as real);
    } else {
      var x := (longSide * ratio.width) as real / ratio.height as real;
      ScaledQuotient(longSide, ratio.width, ratio.height);
      SnapMonotone(x, longSide as real);
    }
  }

  /** Swapping the ratio's terms swaps the width and the height. */
  lemma TransposedRatio(ratio: Ratio, resolution: ResolutionPreset)
    requires ratio.width > 0 && ratio.height > 0
    ensures var d := DimensionsForRatio(ratio, resolution);
      DimensionsForRatio(Ratio(ratio.height, ratio.width), resolution) == Dimensions(d.height, d.width)
  {
    if ratio.width == ratio.height {
      LongSideFollowsOrientation(ratio, resolution);
    }
  }

  /** The short side in integer arithmetic: the long side times the smaller
      term, divided by eight times the larger term, floored, times 8, and
      clamped to [256, 1024]. */
  lemma ShortSideInIntegers(ratio: Ratio, resolution: ResolutionPreset)
    requires ratio.width > 0 && ratio.height > 0
    ensures var d := DimensionsForRatio(ratio, resolution);
      var longSide := LongSide(resolution);
      && (ratio.width >= ratio.height ==>
            d.height == MaxI(256, MinI(longSide * ratio.height / (8 * ratio.width) * 8, 1024)))
      && (ratio.width < ratio.height ==>
            d.width == MaxI(256, MinI(longSide * ratio.width / (8 * ratio.height) * 8, 1024)))
  {
    var longSide := LongSide(resolution);
    LongSideValues();
    assert longSide == 848 || longSide == 1024;
    if ratio.width >= ratio.height {
      SnapQuotient(longSide * ratio.height, ratio.width);
    } else {
      SnapQuotient(longSide * ratio.width, ratio.height);
    }
  }

  /** `"a:b"` and `"b:a"` for two colon-free parts: both fail or both succeed
      with width and height exchanged. */
  lemma TransposedText(a: string, b: string, resolution: ResolutionPreset)
    requires ':' !in a && ':' !in b
    ensures var ab, ba := ComputeDimensions(a + ":" + b, resolution), ComputeDimensions(b + ":" + a, resolution);
      && (ab.Ok? <==> ba.Ok?)
      && (ab.Ok? ==> ba.value == Dimensions(ab.value.height, ab.value.width))
  {
    SplitAtColon(a, b);
    SplitAtColon(b, a);
    var p := ParseAspectRatio(a + ":" + b);
    if p.Ok? {
      TransposedRatio(p.value, resolution);
    }
  }

  lemma IndexOfAfterFree(a: string, c: char, b: string)
    requires c !in a
    ensures IndexOf(a + [c] + b, c) == |a|
  {
    var s := a + [c] + b;
    var k := IndexOf(s, c);
    assert s[|a|] == c;
    assert s[..|a|] == a;
  }

  /** How `"a:b"` splits when `a` and `b` hold no colon. */
  lemma SplitAtColon(a: string, b: string)
    requires ':' !in a && ':' !in b
    ensures FirstPart(a + ":" + b) == a && SecondPart(a + ":" + b) == Some(b)
  {
    var s := a + ":" + b;
    IndexOfAfterFree(a, ':', b);
    assert s[..|a|] == a;
    assert s[|a| + 1..] == b;
  }

  /** Parts after the second `:` play no role. */
  lemma ExtraPartsIgnored(a: string, b: string, rest: string)
    requires ':' !in a && ':' !in b
    ensures var long, short := ParseAspectRatio(a + ":" + b + ":" + rest), ParseAspectRatio(a + ":" + b);
      (long.Ok? <==> short.Ok?) && (long.Ok? ==> long.value == short.value)
  {
    var t := b + ":" + rest;
    var s := a + ":" + b + ":" + rest;
    assert s == a + ":" + t;
    assert ':' in t by { assert t[|b|] == ':'; }
    SplitAtColon(a, b);
    IndexOfAfterFree(a, ':', t);
    assert s[..|a|] == a;
    assert s[|a| + 1..] == t;
    IndexOfAfterFree(b, ':', rest);
    assert t[..|b|] == b;
  }

  /** A plain digit string is read as its decimal value. */
  lemma JsNumberOfDigits(t: string)
    requires IsDigits(t) && t != ""
    ensures JsNumber(t) == Some(ParseDecimal(t))
  {
    TrimmedIsFixed(t);
  }

  /** `"w:h"` for two digit strings with non-zero values parses to their values. */
  lemma ParsesDigits(w: string, h: string)
    requires IsDigits(w) && IsDigits(h) && w != "" && h != ""
    requires ParseDecimal(w) != 0 && ParseDecimal(h) != 0
    ensures ParseAspectRatio(w + ":" + h) == Ok(Ratio(ParseDecimal(w), ParseDecimal(h)))
  {
    SplitAtColon(w, h);
    JsNumberOfDigits(w);
    JsNumberOfDigits(h);
  }

  /** The two terms each selectable ratio's literal names. */
  function RatioTerms(a: AspectRatio): Ratio {
    match a
    case Ratio1x1 => Ratio(1, 1)
    case Ratio16x9 => Ratio(16, 9)
    case Ratio9x16 => Ratio(9, 16)
    case Ratio2x3 => Ratio(2, 3)
    case Ratio3x4 => Ratio(3, 4)
    case Ratio1x2 => Ratio(1, 2)
    case Ratio2x1 => Ratio(2, 1)
    case Ratio4x5 => Ratio(4, 5)
    case Ratio3x2 => Ratio(3, 2)
    case Ratio4x3 => Ratio(4, 3)
  }

  lemma RatioTextIsTerms(a: AspectRatio)
    ensures AspectRatioText(a) == NatToString(RatioTerms(a).width) + ":" + NatToString(RatioTerms(a).height)
  {
    match a
    case Ratio16x9 =>
      assert NatToString(16) == "16";
    case Ratio9x16 =>
      assert NatToString(16) == "16";
    case _ =>
  }

  /** `"w:h"` for two positive numbers in decimal parses back to them. */
  lemma PrintedRatioParses(w: nat, h: nat)
    requires w > 0 && h > 0
    ensures ParseAspectRatio(NatToString(w) + ":" + NatToString(h)) == Ok(Ratio(w, h))
  {
    ParseNatToString(w);
    ParseNatToString(h);
    ParsesDigits(NatToString(w), NatToString(h));
  }

  /** Every selectable ratio parses to its two terms, so `computeDimensions`
      never throws on one. */
  lemma SelectableRatiosParse(a: AspectRatio)
    ensures ParseAspectRatio(AspectRatioText(a)) == Ok(RatioTerms(a))
  {
    RatioTextIsTerms(a);
    PrintedRatioParses(RatioTerms(a).width, RatioTerms(a).height);
  }

  /** A selectable ratio's dimensions are those of its two terms. */
  lemma SelectableDimensions(a: AspectRatio, resolution: ResolutionPreset)
    ensures ComputeDimensions(AspectRatioText(a), resolution) == Ok(DimensionsForRatio(RatioTerms(a), resolution))
  {
    SelectableRatiosParse(a);
  }

  lemma Landscape16x9(resolution: ResolutionPreset)
    ensures resolution == Res720p ==> DimensionsForRatio(Ratio(16, 9), resolution) == Dimensions(1024, 576)
    ensures resolution == Res480p ==> DimensionsForRatio(Ratio(16, 9), resolution) == Dimensions(848, 472)
  {
    LongSideValues();
    if resolution == Res720p {
      SnapQuotient(1024 * 9, 16);
    } else {
      SnapQuotient(848 * 9, 16);
    }
  }

  /** Worked value: 16:9 at 720p is 1024x576. */
  lemma Example16x9At720p()
    ensures ComputeDimensions("16:9", Res720p) == Ok(Dimensions(1024, 576))
  {
    SelectableDimensions(Ratio16x9, Res720p);
    Landscape16x9(Res720p);
  }

  /** Worked value: 9:16 at 720p is 576x1024. */
  lemma Example9x16At720p()
    ensures ComputeDimensions("9:16", Res720p) == Ok(Dimensions(576, 1024))
  {
    assert RatioTerms(Ratio9x16) == Ratio(9, 16);
    SelectableDimensions(Ratio9x16, Res720p);
    Landscape16x9(Res720p);
    assert DimensionsForRatio(Ratio(16, 9), Res720p) == Dimensions(1024, 576);
    TransposedRatio(Ratio(16, 9), Res720p);
    assert DimensionsForRatio(Ratio(9, 16), Res720p) == Dimensions(576, 1024);
  }

  /** Worked value: 16:9 at 480p is 848x472. */
  lemma Example16x9At480p()
    ensures ComputeDimensions("16:9", Res480p) == Ok(Dimensions(848, 472))
  {
    SelectableDimensions(Ratio16x9, Res480p);
    Landscape16x9(Res480p);
  }

  /** Worked value: 1:1 at 720p is 1024x1024. */
  lemma Example1x1At720p()
    ensures ComputeDimensions("1:1", Res720p) == Ok(Dimensions(1024, 1024))
  {
    SelectableDimensions(Ratio1x1, Res720p);
    LongSideValues();
    LongSideFollowsOrientation(Ratio(1, 1), Res720p);
  }
}
