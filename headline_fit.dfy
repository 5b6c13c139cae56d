/** Font sizing, shrinking and line placement of `drawHeadlineTextScaled`
    (script.js:216-255). Every constant is given for the 920x1000 reference
    layout and scaled to the canvas by `canvasWidth / 920` horizontally and
    `canvasHeight / 1000` vertically, in exact rational arithmetic. */
module HeadlineFit {
  import opened LineWrap

  /** `Math.round(x)`: the nearest integer, halves rounded up. */
  function Round(x: real): (r: int)
    ensures x - 0.5 < r as real <= x + 0.5
  {
    (x + 0.5).Floor
  }

  function ScaleX(canvasWidth: nat): real { canvasWidth as real / 920.0 }

  function ScaleY(canvasHeight: nat): real { canvasHeight as real / 1000.0 }

  /** `880 * scaleX`, the width lines are wrapped to. */
  function MaxWidth(canvasWidth: nat): real { 880.0 * ScaleX(canvasWidth) }

  /** `400 * scaleY`, the height the headline block should fit in. */
  function MaxHeight(canvasHeight: nat): real { 400.0 * ScaleY(canvasHeight) }

  /** `Math.round(24 * scaleX)`: the shrink loop stops once the size is not above this. */
  function MinFontSize(canvasWidth: nat): int { Round(24.0 * ScaleX(canvasWidth)) }

  /** `Math.round(420 * scaleY)`: the top of the first line. */
  function HeadlineTop(canvasHeight: nat): int { Round(420.0 * ScaleY(canvasHeight)) }

  /** Fixed padding added to the lines' height in the fit test. */
  const Padding: int := 30

  /** Each shrink step lowers the font size by this many pixels. */
  const ShrinkStep: int := 2

  /** The unscaled starting size for a headline of `length` characters. */
  function BaseFontSize(length: nat): int
  {
    if length > 100 then 32
    else if length > 80 then 36
    else if length > 60 then 40
    else if length > 50 then 44
    else if length > 40 then 48
    else if length > 30 then 52
    else 56
  }

  /** The starting size of script.js:225-231. */
  function StartFontSize(length: nat, canvasWidth: nat): int
  {
    Round(BaseFontSize(length) as real * ScaleX(canvasWidth))
  }

  /** `Math.ceil(fontSize * 1.3)` for an integer size. */
  function LineHeight(fontSize: int): (h: int)
    requires fontSize >= 0
    ensures (h - 1) as real < fontSize as real * 1.3 <= h as real
  {
    (13 * fontSize + 9) / 10
  }

  /** `lines.length * lineHeight + 30`, the height tested against `MaxHeight`. */
  function BlockHeight(lineCount: nat, fontSize: int): int
    requires fontSize >= 0
  {
    lineCount * LineHeight(fontSize) + Padding
  }

  /** Canvases wide enough that the minimum font size is at least 2 pixels, so
      every size the shrink loop reaches is positive. On narrower canvases the
      source divides by a zero or negative character width. */
  predicate ValidCanvas(canvasWidth: nat) { canvasWidth >= 58 }

  /** The scaled constraints of one canvas: the wrap width, the height budget,
      the size the loop stops at, and the largest starting size. */
  datatype HeadlineBox = HeadlineBox(maxWidth: real, maxHeight: real, minFontSize: int, maxFontSize: int)

  function BoxFor(canvasWidth: nat, canvasHeight: nat): HeadlineBox
  {
    HeadlineBox(MaxWidth(canvasWidth), MaxHeight(canvasHeight), MinFontSize(canvasWidth),
                StartFontSize(0, canvasWidth))
  }

  /** Constraints under which every size from `minFontSize - 1` up to
      `maxFontSize` is positive and no wider per character than the box. */
  predicate ValidBox(box: HeadlineBox)
  {
    box.minFontSize >= 2 && box.maxFontSize as real * 0.56 <= box.maxWidth
  }

  /** The sizes the shrink loop can hold: from one below the minimum (a step of
      2 can overshoot it by one) up to the largest starting size. */
  predicate InShrinkRange(box: HeadlineBox, fontSize: int)
  {
    box.minFontSize - 1 <= fontSize <= box.maxFontSize
  }

  lemma BoxForValid(canvasWidth: nat, canvasHeight: nat)
    requires ValidCanvas(canvasWidth)
    ensures ValidBox(BoxFor(canvasWidth, canvasHeight))
  {
    assert StartFontSize(0, canvasWidth) as real <= 56.0 * ScaleX(canvasWidth) + 0.5;
  }

  lemma {:induction false} UsableFontSize(box: HeadlineBox, fontSize: int)
    requires ValidBox(box) && InShrinkRange(box, fontSize)
    ensures fontSize > 0 && CharsPerLine(fontSize, box.maxWidth) >= 1
  {
    var charWidth := fontSize as real * 0.56;
    assert charWidth <= box.maxWidth;
    var n := CharsPerLine(fontSize, box.maxWidth);
    CharsPerLineBounds(fontSize, box.maxWidth);
    assert box.maxWidth < (n + 1) as real * charWidth;
    assert (n + 1) as real * charWidth - charWidth == n as real * charWidth;
    PositiveFactor(n as real, charWidth);
  }

  lemma PositiveFactor(a: real, b: real)
    requires a >= 0.0 && b > 0.0 && a * b > 0.0
    ensures a > 0.0
  {
  }

  lemma StartFontSizeNonIncreasing(shorter: nat, longer: nat, canvasWidth: nat)
    requires shorter <= longer
    ensures StartFontSize(longer, canvasWidth) <= StartFontSize(shorter, canvasWidth)
  {
    var s := ScaleX(canvasWidth);
    var lo, hi := BaseFontSize(longer) as real, BaseFontSize(shorter) as real;
    assert lo <= hi;
    assert hi * s - lo * s == (hi - lo) * s;
  }

  lemma StartFontSizeInRange(length: nat, canvasWidth: nat, canvasHeight: nat)
    requires ValidCanvas(canvasWidth)
    ensures InShrinkRange(BoxFor(canvasWidth, canvasHeight), StartFontSize(length, canvasWidth))
    ensures MinFontSize(canvasWidth) <= StartFontSize(length, canvasWidth)
  {
    StartFontSizeNonIncreasing(0, length, canvasWidth);
    var s := ScaleX(canvasWidth);
    var b := BaseFontSize(length) as real;
    assert b >= 32.0 && s > 0.0;
    assert b * s - 24.0 * s == (b - 24.0) * s;
    PositiveProduct(b - 24.0, s);
    var lo, hi := MinFontSize(canvasWidth), StartFontSize(length, canvasWidth);
    assert lo as real <= 24.0 * s + 0.5;
    assert b * s - 0.5 < hi as real;
    assert lo as real - 1.0 < hi as real;
  }

  lemma PositiveProduct(a: real, b: real)
    requires a > 0.0 && b > 0.0
    ensures a * b > 0.0
  {
  }

  /** `wrapTextHelper(headline, fontSize, maxWidth)` at a size of the shrink range. */
  function WrapAt(headline: string, box: HeadlineBox, fontSize: int): seq<string>
    requires ValidBox(box) && InShrinkRange(box, fontSize)
  {
    UsableFontSize(box, fontSize);
    Wrap(headline, CharsPerLine(fontSize, box.maxWidth))
  }

  /** The headline block at `fontSize` is no taller than the height budget. */
  predicate Fits(headline: string, box: HeadlineBox, fontSize: int)
    requires ValidBox(box) && InShrinkRange(box, fontSize)
  {
    UsableFontSize(box, fontSize);
    BlockHeight(|WrapAt(headline, box, fontSize)|, fontSize) as real <= box.maxHeight
  }

  /** `Fits`, made total: false outside the shrink range. */
  predicate FitsAt(headline: string, box: HeadlineBox, fontSize: int)
  {
    ValidBox(box) && InShrinkRange(box, fontSize) && Fits(headline, box, fontSize)
  }

  /** The fit test of script.js:237 for one headline and canvas, as a value. */
  function FitTest(headline: string, box: HeadlineBox): int -> bool
  {
    fontSize => FitsAt(headline, box, fontSize)
  }

  /** The shrink loop of script.js:237-240 for any fit test: step down by 2
      while the size does not fit and is above `floor`. */
  function ShrinkWith(fits: int -> bool, floor: int, fontSize: int): int
    decreases fontSize - floor
  {
    if !fits(fontSize) && fontSize > floor then ShrinkWith(fits, floor, fontSize - ShrinkStep)
    else fontSize
  }

  /** The size the shrink loop of script.js:237-240 ends at, from `fontSize`. */
  function Shrink(headline: string, box: HeadlineBox, fontSize: int): int
  {
    ShrinkWith(FitTest(headline, box), box.minFontSize, fontSize)
  }

  lemma StepParity(a: int, b: int)
    ensures (a - b) % ShrinkStep == 0 <==> (a - ShrinkStep - b) % ShrinkStep == 0
  {
  }

  /** The loop ends at or below where it started, a whole number of 2-pixel
      steps down, and never more than one below the floor. */
  lemma {:induction false} ShrinkSteps(fits: int -> bool, floor: int, fontSize: int)
    requires floor - 1 <= fontSize
    ensures var f := ShrinkWith(fits, floor, fontSize);
      floor - 1 <= f <= fontSize && (fontSize - f) % ShrinkStep == 0
    decreases fontSize - floor
  {
    if !fits(fontSize) && fontSize > floor {
      var next := fontSize - ShrinkStep;
      ShrinkSteps(fits, floor, next);
      StepParity(fontSize, ShrinkWith(fits, floor, next));
    }
  }

  /** The loop ends where the size fits or is not above the floor. */
  lemma {:induction false} ShrinkExit(fits: int -> bool, floor: int, fontSize: int)
    ensures var f := ShrinkWith(fits, floor, fontSize);
      fits(f) || f <= floor
    decreases fontSize - floor
  {
    if !fits(fontSize) && fontSize > floor {
      ShrinkExit(fits, floor, fontSize - ShrinkStep);
    }
  }

  /** A size above where the loop ends, a whole number of steps below where
      it starts, does not fit. */
  lemma {:induction false} ShrinkSkipsAt(fits: int -> bool, floor: int, fontSize: int, s: int)
    requires ShrinkWith(fits, floor, fontSize) < s <= fontSize && (fontSize - s) % ShrinkStep == 0
    ensures !fits(s)
    decreases fontSize - floor
  {
    assert !fits(fontSize) && fontSize > floor;
    if s < fontSize {
      StepParity(fontSize, s);
      ShrinkSkipsAt(fits, floor, fontSize - ShrinkStep, s);
    }
  }

  /** The shrink loop stops at the first size, going down by 2 from `fontSize`,
      at which the block fits or which is not above the minimum: it is in the
      shrink range, it is reached by whole steps, and no size skipped fits. */
  lemma ShrinkOutcome(headline: string, box: HeadlineBox, fontSize: int)
    requires ValidBox(box) && InShrinkRange(box, fontSize)
    ensures var f := Shrink(headline, box, fontSize);
      InShrinkRange(box, f) && f <= fontSize && (fontSize - f) % ShrinkStep == 0 &&
      (Fits(headline, box, f) || f <= box.minFontSize) &&
      forall s :: f < s <= fontSize && (fontSize - s) % ShrinkStep == 0 ==>
        InShrinkRange(box, s) && !Fits(headline, box, s)
  {
    var fits := FitTest(headline, box);
    var f := ShrinkWith(fits, box.minFontSize, fontSize);
    ShrinkSteps(fits, box.minFontSize, fontSize);
    ShrinkExit(fits, box.minFontSize, fontSize);
    assert fits(f) == FitsAt(headline, box, f);
    forall s | f < s <= fontSize && (fontSize - s) % ShrinkStep == 0
      ensures InShrinkRange(box, s) && !Fits(headline, box, s)
    {
      ShrinkSkipsAt(fits, box.minFontSize, fontSize, s);
      assert fits(s) == FitsAt(headline, box, s);
    }
  }

  /** What `drawHeadlineTextScaled` lays out: the final size, the line height,
      the wrapped lines, the top of each line and the centre line they are
      centred on. */
  datatype HeadlineLayout = HeadlineLayout(
    fontSize: int,
    lineHeight: int,
    lines: seq<string>,
    lineTops: seq<int>,
    centerX: real)

  /** Line i is drawn at `top + i * lineHeight`. */
  function LineTops(top: int, lineHeight: int, count: nat): seq<int>
  {
    seq(count, i => top + i * lineHeight)
  }

  function HeadlineLayoutOf(headline: string, canvasWidth: nat, canvasHeight: nat): HeadlineLayout
    requires ValidCanvas(canvasWidth)
  {
    var box := BoxFor(canvasWidth, canvasHeight);
    BoxForValid(canvasWidth, canvasHeight);
    var start := StartFontSize(|headline|, canvasWidth);
    StartFontSizeInRange(|headline|, canvasWidth, canvasHeight);
    var f := Shrink(headline, box, start);
    ShrinkOutcome(headline, box, start);
    UsableFontSize(box, f);
    var lines := WrapAt(headline, box, f);
    var lineHeight := LineHeight(f);
    HeadlineLayout(f, lineHeight, lines, LineTops(HeadlineTop(canvasHeight), lineHeight, |lines|),
                   canvasWidth as real / 2.0)
  }

  /** One turn of the shrink loop: a size that does not fit and is above the
      minimum ends where the size 2 below it ends. */
  lemma ShrinkTurn(headline: string, box: HeadlineBox, fontSize: int)
    requires ValidBox(box) && InShrinkRange(box, fontSize)
    requires !Fits(headline, box, fontSize) && fontSize > box.minFontSize
    ensures InShrinkRange(box, fontSize - ShrinkStep)
    ensures Shrink(headline, box, fontSize) == Shrink(headline, box, fontSize - ShrinkStep)
  {
    assert !FitTest(headline, box)(fontSize);
  }

  /** The shrink loop stops at a size that fits or is not above the minimum. */
  lemma ShrinkStops(headline: string, box: HeadlineBox, fontSize: int)
    requires ValidBox(box) && InShrinkRange(box, fontSize)
    requires Fits(headline, box, fontSize) || fontSize <= box.minFontSize
    ensures Shrink(headline, box, fontSize) == fontSize
  {
    assert FitTest(headline, box)(fontSize) || fontSize <= box.minFontSize;
  }

  /** Lines 233-240 of script.js: wrap at the starting size, then shrink by 2
      and re-wrap while the block is too tall and the size above the minimum. */
  method ShrinkToFit(headline: string, box: HeadlineBox, fontSize: int)
    returns (finalFontSize: int, lines: seq<string>)
    requires ValidBox(box) && InShrinkRange(box, fontSize)
    ensures finalFontSize == Shrink(headline, box, fontSize)
    ensures InShrinkRange(box, finalFontSize) && lines == WrapAt(headline, box, finalFontSize)
  {
    UsableFontSize(box, fontSize);
    lines := WrapTextHelper(headline, fontSize, box.maxWidth);
    finalFontSize := fontSize;
    while (|lines| * LineHeight(finalFontSize) + Padding) as real > box.maxHeight
          && finalFontSize > box.minFontSize
      invariant InShrinkRange(box, finalFontSize) && finalFontSize > 0
      invariant lines == WrapAt(headline, box, finalFontSize)
      invariant Shrink(headline, box, finalFontSize) == Shrink(headline, box, fontSize)
      decreases finalFontSize
    {
      ShrinkTurn(headline, box, finalFontSize);
      finalFontSize := finalFontSize - ShrinkStep;
      UsableFontSize(box, finalFontSize);
      lines := WrapTextHelper(headline, finalFontSize, box.maxWidth);
    }
    ShrinkStops(headline, box, finalFontSize);
  }

  /** The line loop of script.js:252-255: line i is drawn at `top + i * lineHeight`. */
  method PlaceLines(top: int, lineHeight: int, count: nat) returns (tops: seq<int>)
    ensures tops == LineTops(top, lineHeight, count)
  {
    tops := [];
    for i := 0 to count
      invariant |tops| == i
      invariant forall k :: 0 <= k < i ==> tops[k] == top + k * lineHeight
    {
      tops := tops + [top + i * lineHeight];
    }
  }

  /** `drawHeadlineTextScaled(ctx, headline, canvasWidth, canvasHeight)`, without
      the drawing calls: the positions it would draw at. */
  method DrawHeadlineTextScaled(headline: string, canvasWidth: nat, canvasHeight: nat)
    returns (layout: HeadlineLayout)
    requires ValidCanvas(canvasWidth)
    ensures layout == HeadlineLayoutOf(headline, canvasWidth, canvasHeight)
  {
    var box := BoxFor(canvasWidth, canvasHeight);
    BoxForValid(canvasWidth, canvasHeight);
    var fontSize := StartFontSize(|headline|, canvasWidth);
    StartFontSizeInRange(|headline|, canvasWidth, canvasHeight);
    var finalFontSize, lines := ShrinkToFit(headline, box, fontSize);
    var lineHeight := LineHeight(finalFontSize);
    var headlineTop := HeadlineTop(canvasHeight);
    var tops := PlaceLines(headlineTop, lineHeight, |lines|);
    layout := HeadlineLayout(finalFontSize, lineHeight, lines, tops, canvasWidth as real / 2.0);
  }

  /** The layout's size is the result of the two-phase fit: at most the
      starting size, 2-pixel steps below it, never below the minimum less one,
      the first of those sizes whose block fits or that reached the minimum,
      with the lines `wrapTextHelper` gives at that size. */
  lemma HeadlineFitOutcome(headline: string, canvasWidth: nat, canvasHeight: nat)
    requires ValidCanvas(canvasWidth)
    ensures ValidBox(BoxFor(canvasWidth, canvasHeight))
    ensures InShrinkRange(BoxFor(canvasWidth, canvasHeight), StartFontSize(|headline|, canvasWidth))
    ensures var layout, box, start :=
        HeadlineLayoutOf(headline, canvasWidth, canvasHeight), BoxFor(canvasWidth, canvasHeight),
        StartFontSize(|headline|, canvasWidth);
      InShrinkRange(box, layout.fontSize) && layout.fontSize > 0 &&
      layout.fontSize <= start && (start - layout.fontSize) % ShrinkStep == 0 &&
      layout.lines == WrapAt(headline, box, layout.fontSize) && |layout.lines| <= MaxLines &&
      (BlockHeight(|layout.lines|, layout.fontSize) as real <= MaxHeight(canvasHeight)
        || layout.fontSize <= MinFontSize(canvasWidth)) &&
      forall s :: layout.fontSize < s <= start && (start - s) % ShrinkStep == 0 ==> !Fits(headline, box, s)
  {
    var box := BoxFor(canvasWidth, canvasHeight);
    BoxForValid(canvasWidth, canvasHeight);
    var start := StartFontSize(|headline|, canvasWidth);
    StartFontSizeInRange(|headline|, canvasWidth, canvasHeight);
    ShrinkOutcome(headline, box, start);
    var f := Shrink(headline, box, start);
    UsableFontSize(box, f);
  }

  lemma MulMonotone(i: int, j: int, h: int)
    requires i < j && h > 0
    ensures i * h < j * h
  {
    assert j * h - i * h == (j - i) * h;
  }

  /** One top per line, the first at `HeadlineTop`, each `lineHeight` below the
      previous one, so the tops strictly increase. */
  lemma LineTopsIncrease(headline: string, canvasWidth: nat, canvasHeight: nat)
    requires ValidCanvas(canvasWidth)
    ensures var layout := HeadlineLayoutOf(headline, canvasWidth, canvasHeight);
      |layout.lineTops| == |layout.lines| &&
      layout.lineHeight > 0 &&
      (forall i :: 0 <= i < |layout.lineTops| ==>
        layout.lineTops[i] == HeadlineTop(canvasHeight) + i * layout.lineHeight) &&
      forall i, j :: 0 <= i < j < |layout.lineTops| ==> layout.lineTops[i] < layout.lineTops[j]
  {
    var layout := HeadlineLayoutOf(headline, canvasWidth, canvasHeight);
    HeadlineFitOutcome(headline, canvasWidth, canvasHeight);
    forall i, j | 0 <= i < j < |layout.lineTops|
      ensures layout.lineTops[i] < layout.lineTops[j]
    {
      MulMonotone(i, j, layout.lineHeight);
    }
  }

  /** The 1080x1350 canvas both compose paths use: starting sizes 66, 61, 56,
      52, 47, 42 and 38 by length tier, minimum 28, height budget 540, first
      line at 567. */
  lemma InstagramCanvasConstants(length: nat)
    ensures ValidCanvas(1080)
    ensures StartFontSize(length, 1080) ==
      if length > 100 then 38
      else if length > 80 then 42
      else if length > 60 then 47
      else if length > 50 then 52
      else if length > 40 then 56
      else if length > 30 then 61
      else 66
    ensures MinFontSize(1080) == 28
    ensures MaxHeight(1350) == 540.0
    ensures MaxWidth(1080) == 23760.0 / 23.0
    ensures HeadlineTop(1350) == 567
  {
  }
}
