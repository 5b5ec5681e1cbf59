/**
  * The earlier revision of the expandable peer title
  * (MultiScaleTextNodeExpandable.swift). A state node shows a title
  * either on one line, under a fade mask, or expanded to one text node
  * per line; `update` switches between the two arrangements and
  * `updateExpansion` moves the line nodes between their places on the
  * single line and their expanded places. The container keeps one state
  * node per title state, centres them on the main state, and fans alphas
  * out to them.
  *
  * Display nodes are modelled by the rectangles and texts they receive:
  * `ImmediateTextNode` is a class with a text and a frame, the fade mask a
  * value with a frame, an opacity and its sublayers' frames. CoreText, the
  * measuring of text nodes and `sqrt(1 - (p - 1)^2)` are supplied from
  * outside.
  */
module MultiScaleExpandable {
  import opened Geometry
  import opened LayoutLines

  /** `fontLineHeight` of `getLinesArrayOfString`: every line is 36 points tall. */
  const FixedLineHeight: real := 36.0

  /** `lineSpacing` of `update`: consecutive expanded lines overlap by four points. */
  const LineSpacing: real := -4.0

  /** `gradientRadius`: the width of the fade at the end of the single line. */
  const GradientRadius: real := 50.0

  /** The least width of the fade mask over the single line. */
  const MinFadeMaskWidth: real := 180.0

  /** What `updateExpansion` adds to the remembered width before aligning lines. */
  const ExpansionWidthInset: real := 16.0

  /** `maximumNumberOfLines` of the node that measures the whole title. */
  const MeasuredLineCount: nat := 10

  /** The box the single line is measured in. */
  const SingleLineBox: Size := Size(100000.0, 100000.0)

  /** `doTransitionBetweenWeight`, which the container hard-wires to false. */
  const DoTransitionBetweenWeight: bool := false

  /** `switchToNavTitleThreshold`: 0.2 with the weight transition, -1 without it. */
  const SwitchToNavTitleThreshold: real := if DoTransitionBetweenWeight then 0.2 else -1.0

  /** The guard of `update`: a title that is empty once its spaces are removed. */
  predicate Blank(t: Text)
  {
    forall i :: 0 <= i < |t| ==> t[i].unit == ' '
  }

  function MinInt(a: int, b: int): int
  {
    if a < b then a else b
  }

  // ---------------------------------------------------------------------
  // getLinesArrayOfString

  /**
    * The lines `getLinesArrayOfString(t, textSize:)` returns for a path of
    * width `box`, as `LayoutLine`s of height 36. The private struct of
    * this revision has the text, direction, frame, CoreText line and range
    * of each line; the glyph-run fields of `LayoutLine` are not read here.
    */
  function LinesArrayOf(ct: CoreText, t: Text, box: Extent): seq<LayoutLine>
  {
    ConvertLines(t, box, FixedLineHeight, ct.frameLines(t, box))
  }

  /** `getLinesArrayOfString`: one line per CoreText line, in order. */
  method GetLinesArrayOfString(ct: CoreText, t: Text, box: Extent) returns (lines: seq<LayoutLine>)
    ensures lines == LinesArrayOf(ct, t, box)
  {
    var ctLines := ct.frameLines(t, box);
    lines := [];
    var i := 0;
    while i < |ctLines|
      invariant 0 <= i <= |ctLines|
      invariant lines == ConvertLines(t, box, FixedLineHeight, ctLines[..i])
    {
      lines := lines + [ToLayoutLine(t, box, FixedLineHeight, ctLines[i])];
      assert ctLines[..i + 1][..i] == ctLines[..i];
      i := i + 1;
    }
    assert ctLines[..i] == ctLines;
  }

  /**
    * Line `i` of the array: the text of its range, at the origin, as wide as
    * its typographic width without trailing whitespace rounded up, or as the
    * path if that is narrower, 36 points tall, and right-to-left exactly
    * when its first glyph run is.
    */
  lemma LinesArrayShape(ct: CoreText, t: Text, box: Extent, i: int)
    requires 0 <= i < |ct.frameLines(t, box)|
    ensures |LinesArrayOf(ct, t, box)| == |ct.frameLines(t, box)|
    ensures var line := LinesArrayOf(ct, t, box)[i];
            var c := ct.frameLines(t, box)[i];
            && line.text == Substring(t, c.range) && line.lineRange == c.range && line.ctLine == c
            && line.frame.x == 0.0 && line.frame.y == 0.0 && line.frame.height == FixedLineHeight
            && line.frame.width == MinExtent(box, Ceil(c.typographicWidth - c.trailingWhitespaceWidth))
            && (line.isRTL <==> |c.runs| > 0 && c.runs[0].isRTL)
  {
    ConvertLinesAt(t, box, FixedLineHeight, ct.frameLines(t, box), i);
  }

  function LineTexts(lines: seq<LayoutLine>): (r: seq<Text>)
    ensures |r| == |lines|
    ensures forall i :: 0 <= i < |lines| ==> r[i] == lines[i].text
  {
    if lines == [] then [] else LineTexts(lines[..|lines| - 1]) + [lines[|lines| - 1].text]
  }

  lemma LineTextsStep(lines: seq<LayoutLine>, i: int)
    requires 0 <= i < |lines|
    ensures LineTexts(lines[..i + 1]) == LineTexts(lines[..i]) + [lines[i].text]
  {
    assert lines[..i + 1][..i] == lines[..i];
  }

  // ---------------------------------------------------------------------
  // The fade mask over the single line

  /** `singleLineFadeMask`: the layer's frame and opacity and the frames of its sublayers. */
  datatype MaskLayer = MaskLayer(frame: Rect, opacity: real, sublayers: seq<Rect>)

  /**
    * The frame `update` gives the mask over the single line: at the
    * origin, as tall as the line, as wide as the line but never narrower
    * than 180 points.
    */
  function CollapsedMaskFrame(singleLine: Size): (r: Rect)
    ensures r.x == 0.0 && r.y == 0.0 && r.height == singleLine.height
    ensures r.width >= MinFadeMaskWidth && r.width >= singleLine.width
    ensures r.width == MinFadeMaskWidth || r.width == singleLine.width
  {
    Rect(0.0, 0.0, Max(MinFadeMaskWidth, singleLine.width), singleLine.height)
  }

  /**
    * The two sublayers `update` puts in the mask: an opaque area from the
    * left edge up to 50 points before the mask's right edge, as tall as the
    * mask, and after it a 50-point gradient as tall as the text; together
    * they span the mask's width.
    */
  function MaskSublayers(mask: Rect, textHeight: real): (r: seq<Rect>)
    ensures |r| == 2
    ensures r[0].x == 0.0 && r[0].y == 0.0 && r[0].height == mask.AbsHeight()
    ensures r[0].x + r[0].width == r[1].x && r[1].x + r[1].width == mask.AbsWidth()
    ensures r[1].y == 0.0 && r[1].width == GradientRadius && r[1].height == textHeight
  {
    [Rect(0.0, 0.0, mask.AbsWidth() - GradientRadius, mask.AbsHeight()),
     Rect(mask.AbsWidth() - GradientRadius, 0.0, GradientRadius, textHeight)]
  }

  /** Over the single line the opaque part of the mask is at least 130 points wide. */
  lemma CollapsedMaskOpaqueWidth(singleLine: Size, textHeight: real)
    ensures var r := MaskSublayers(CollapsedMaskFrame(singleLine), textHeight);
            r[0].width >= MinFadeMaskWidth - GradientRadius && r[0].width >= singleLine.width - GradientRadius
  {
  }

  // ---------------------------------------------------------------------
  // Line nodes

  /**
    * `ImmediateTextNode`, as far as the state node uses it: the text it
    * shows and its frame. A line node belongs to one state node, so it is
    * held here as a value in that node's `textSubnodes`.
    */
  datatype ImmediateTextNode = ImmediateTextNode(attributedText: Text, frame: Rect)

  function Frames(nodes: seq<ImmediateTextNode>): (r: seq<Rect>)
    ensures |r| == |nodes|
    ensures forall i {:trigger r[i]} :: 0 <= i < |nodes| ==> r[i] == nodes[i].frame
  {
    if nodes == [] then [] else Frames(nodes[..|nodes| - 1]) + [nodes[|nodes| - 1].frame]
  }

  function Texts(nodes: seq<ImmediateTextNode>): (r: seq<Text>)
    ensures |r| == |nodes|
    ensures forall i {:trigger r[i]} :: 0 <= i < |nodes| ==> r[i] == nodes[i].attributedText
  {
    if nodes == [] then [] else Texts(nodes[..|nodes| - 1]) + [nodes[|nodes| - 1].attributedText]
  }

  // ---------------------------------------------------------------------
  // The expanded arrangement `update` builds

  /** Where `update` puts the line after `sizes`: the sum of their heights plus `lineSpacing` each. */
  function StackedOffset(sizes: seq<Size>): real
  {
    if sizes == [] then 0.0 else StackedOffset(sizes[..|sizes| - 1]) + sizes[|sizes| - 1].height + LineSpacing
  }

  /**
    * The frames `update` gives the line nodes when it expands: each line
    * in its measured size, centred in `containerWidth`, one under the other.
    */
  function CentredLineFrames(sizes: seq<Size>, containerWidth: real): (r: seq<Rect>)
    ensures |r| == |sizes|
  {
    if sizes == [] then []
    else
      var k := |sizes| - 1;
      CentredLineFrames(sizes[..k], containerWidth)
        + [Rect((containerWidth - sizes[k].width) / 2.0, StackedOffset(sizes[..k]), sizes[k].width, sizes[k].height)]
  }

  lemma {:induction false} CentredLineFramesAt(sizes: seq<Size>, containerWidth: real, i: int)
    requires 0 <= i < |sizes|
    ensures CentredLineFrames(sizes, containerWidth)[i]
              == Rect((containerWidth - sizes[i].width) / 2.0, StackedOffset(sizes[..i]), sizes[i].width, sizes[i].height)
    decreases |sizes|
  {
    var k := |sizes| - 1;
    if i < k {
      CentredLineFramesAt(sizes[..k], containerWidth, i);
      assert sizes[..k][..i] == sizes[..i];
    }
  }

  /** One more size in a prefix adds its centred frame, below the ones before. */
  lemma CentredFramesStep(sizes: seq<Size>, i: int, containerWidth: real)
    requires 0 <= i < |sizes|
    ensures CentredLineFrames(sizes[..i + 1], containerWidth)
              == CentredLineFrames(sizes[..i], containerWidth)
                 + [Rect((containerWidth - sizes[i].width) / 2.0, StackedOffset(sizes[..i]), sizes[i].width, sizes[i].height)]
    ensures StackedOffset(sizes[..i + 1]) == StackedOffset(sizes[..i]) + sizes[i].height + LineSpacing
  {
    assert sizes[..i + 1][..i] == sizes[..i];
  }

  /**
    * The expanded lines of `update` are what the alignment table gives a
    * centred line in a container as wide as the title: each line keeps its
    * measured size with equal margins on both sides, the first line is at
    * the top, and every further line starts four points above the bottom
    * of the one before it.
    */
  lemma CentredLinesStack(sizes: seq<Size>, totalSize: Size)
    ensures var r := CentredLineFrames(sizes, BoundsOf(totalSize).AbsWidth());
            && (|r| > 0 ==> r[0].y == 0.0)
            && (forall i :: 0 <= i < |r| ==>
                  r[i] == ExpandedFrame(sizes[i], r[i].y, BoundsOf(totalSize), Some(Center), false))
            && (forall i :: 0 <= i < |r| - 1 ==> r[i + 1].y == r[i].y + r[i].height + LineSpacing)
  {
    var cw := BoundsOf(totalSize).AbsWidth();
    var r := CentredLineFrames(sizes, cw);
    forall i | 0 <= i < |r|
      ensures r[i] == ExpandedFrame(sizes[i], r[i].y, BoundsOf(totalSize), Some(Center), false)
    {
      CentredLineFramesAt(sizes, cw, i);
    }
    forall i | 0 <= i < |r| - 1
      ensures r[i + 1].y == r[i].y + r[i].height + LineSpacing
    {
      CentredLineFramesAt(sizes, cw, i);
      CentredLineFramesAt(sizes, cw, i + 1);
      assert sizes[..i + 1][..i] == sizes[..i];
    }
    if |r| > 0 {
      CentredLineFramesAt(sizes, cw, 0);
    }
  }

  /**
    * The frames after the expanded lines are moved back onto the single
    * line `single`: node i goes to the caret offset of previous line i's
    * first character in the single line, at y = 0, keeping its size; nodes
    * beyond the previous lines keep their frames.
    */
  function MovedOntoLine(ct: CoreText, frames: seq<Rect>, single: CtLine, previous: seq<LayoutLine>): (r: seq<Rect>)
    ensures |r| == |frames|
  {
    if frames == [] then []
    else
      var k := |frames| - 1;
      MovedOntoLine(ct, frames[..k], single, previous)
        + [if k < |previous|
           then frames[k].(x := Floor(ct.offsetForIndex(single, previous[k].lineRange.location)), y := 0.0)
           else frames[k]]
  }

  lemma {:induction false} MovedOntoLineAt(ct: CoreText, frames: seq<Rect>, single: CtLine, previous: seq<LayoutLine>, i: int)
    requires 0 <= i < |frames|
    ensures MovedOntoLine(ct, frames, single, previous)[i]
              == if i < |previous|
                 then frames[i].(x := Floor(ct.offsetForIndex(single, previous[i].lineRange.location)), y := 0.0)
                 else frames[i]
    decreases |frames|
  {
    var k := |frames| - 1;
    if i < k {
      MovedOntoLineAt(ct, frames[..k], single, previous, i);
    }
  }

  /** Moving one more frame, as the collapse loop does. */
  lemma MovedOntoLineStep(ct: CoreText, frames: seq<Rect>, single: CtLine, previous: seq<LayoutLine>, i: int)
    requires 0 <= i < |frames| && i < |previous|
    ensures (MovedOntoLine(ct, frames[..i], single, previous) + frames[i..])[i]  == frames[i]
    ensures (MovedOntoLine(ct, frames[..i], single, previous) + frames[i..])
              [i := frames[i].(x := Floor(ct.offsetForIndex(single, previous[i].lineRange.location)), y := 0.0)]
            == MovedOntoLine(ct, frames[..i + 1], single, previous) + frames[i + 1..]
  {
    assert frames[..i + 1][..i] == frames[..i];
  }

  /** Past the previous lines nothing moves, so moving the first `n` frames is moving all of them. */
  lemma MovedOntoLineRest(ct: CoreText, frames: seq<Rect>, single: CtLine, previous: seq<LayoutLine>, n: int)
    requires 0 <= n <= |frames| && (n == |frames| || n >= |previous|)
    ensures MovedOntoLine(ct, frames[..n], single, previous) + frames[n..] == MovedOntoLine(ct, frames, single, previous)
  {
    var a := MovedOntoLine(ct, frames[..n], single, previous) + frames[n..];
    var b := MovedOntoLine(ct, frames, single, previous);
    forall i | 0 <= i < |frames|
      ensures a[i] == b[i]
    {
      MovedOntoLineAt(ct, frames, single, previous, i);
      if i < n {
        MovedOntoLineAt(ct, frames[..n], single, previous, i);
      }
    }
  }

  /**
    * Moving onto the single line keeps every node's size and puts the moved
    * ones at y = 0; moving twice is moving once onto the second line, so of
    * several single lines the last one decides.
    */
  lemma MovedOntoLineLastWins(ct: CoreText, frames: seq<Rect>, first: CtLine, second: CtLine, previous: seq<LayoutLine>)
    ensures var r := MovedOntoLine(ct, frames, first, previous);
            && (forall i :: 0 <= i < |r| ==> r[i].Dimensions() == frames[i].Dimensions())
            && (forall i :: 0 <= i < |r| && i < |previous| ==> r[i].y == 0.0)
            && MovedOntoLine(ct, r, second, previous) == MovedOntoLine(ct, frames, second, previous)
  {
    var r := MovedOntoLine(ct, frames, first, previous);
    var r2 := MovedOntoLine(ct, r, second, previous);
    var r3 := MovedOntoLine(ct, frames, second, previous);
    forall i | 0 <= i < |r|
      ensures r[i].Dimensions() == frames[i].Dimensions() && (i < |previous| ==> r[i].y == 0.0)
      ensures r2[i] == r3[i]
    {
      MovedOntoLineAt(ct, frames, first, previous, i);
      MovedOntoLineAt(ct, r, second, previous, i);
      MovedOntoLineAt(ct, frames, second, previous, i);
    }
  }

  // ---------------------------------------------------------------------
  // The frames of `updateExpansion`

  /** Where `updateExpansion` puts the line after `frames`: the sum of their heights. */
  function StackedHeight(frames: seq<Rect>): (r: real)
    ensures r >= 0.0
  {
    if frames == [] then 0.0 else StackedHeight(frames[..|frames| - 1]) + frames[|frames| - 1].AbsHeight()
  }

  /** Frames of the same heights stack to the same height. */
  lemma {:induction false} StackedHeightOfSizes(a: seq<Rect>, b: seq<Rect>)
    requires |a| == |b| && forall i :: 0 <= i < |a| ==> a[i].AbsHeight() == b[i].AbsHeight()
    ensures StackedHeight(a) == StackedHeight(b)
    decreases |a|
  {
    if a != [] {
      StackedHeightOfSizes(a[..|a| - 1], b[..|b| - 1]);
    }
  }

  /**
    * The frame `updateExpansion` gives the node of `line` at `progress`,
    * with `yP` the vertical progress, from its current frame `actual`. The
    * collapsed frame starts at the caret offset of the line's first
    * character in the single line `single` (minus the node's width for a
    * right-to-left line) at y = 0; the expanded frame is the alignment
    * table's at `offsetY`. The node keeps its (standardised) size at every
    * progress, reaches the expanded frame at progress 1 and the collapsed
    * one at progress 0.
    */
  function ExpansionProgressFrame(ct: CoreText, single: CtLine, line: LayoutLine, actual: Rect, offsetY: real,
                                  container: Rect, alignment: Option<TextAlignment>, progress: real, yP: real): (r: Rect)
    ensures r.width == actual.AbsWidth() && r.height == actual.AbsHeight()
    ensures progress == 1.0 && yP == 1.0 && actual.width >= 0.0 && actual.height >= 0.0 ==>
              r == ExpandedFrame(actual.Dimensions(), offsetY, container, alignment, line.isRTL)
  {
    var offsetX := Floor(ct.offsetForIndex(single, line.lineRange.location)) - (if line.isRTL then actual.AbsWidth() else 0.0);
    var collapsed := Rect(offsetX, 0.0, actual.AbsWidth(), actual.AbsHeight());
    var expanded := ExpandedFrame(actual.Dimensions(), offsetY, container, alignment, line.isRTL);
    Rect(Blend(expanded.x, collapsed.x, progress), Blend(expanded.y, collapsed.y, yP),
         Blend(expanded.AbsWidth(), collapsed.AbsWidth(), progress),
         Blend(expanded.AbsHeight(), collapsed.AbsHeight(), progress))
  }

  /** The frames of the first |actuals| line nodes after `updateExpansion`. */
  function ExpansionFrames(ct: CoreText, single: CtLine, lines: seq<LayoutLine>, actuals: seq<Rect>, container: Rect,
                           alignment: Option<TextAlignment>, progress: real, yP: real): (r: seq<Rect>)
    requires |actuals| <= |lines|
    ensures |r| == |actuals|
  {
    if actuals == [] then []
    else
      var k := |actuals| - 1;
      ExpansionFrames(ct, single, lines, actuals[..k], container, alignment, progress, yP)
        + [ExpansionProgressFrame(ct, single, lines[k], actuals[k], StackedHeight(actuals[..k]),
                                  container, alignment, progress, yP)]
  }

  lemma {:induction false} ExpansionFramesAt(ct: CoreText, single: CtLine, lines: seq<LayoutLine>, actuals: seq<Rect>,
                                            container: Rect, alignment: Option<TextAlignment>, progress: real, yP: real, i: int)
    requires |actuals| <= |lines| && 0 <= i < |actuals|
    ensures ExpansionFrames(ct, single, lines, actuals, container, alignment, progress, yP)[i]
              == ExpansionProgressFrame(ct, single, lines[i], actuals[i], StackedHeight(actuals[..i]),
                                        container, alignment, progress, yP)
    decreases |actuals|
  {
    var k := |actuals| - 1;
    if i < k {
      ExpansionFramesAt(ct, single, lines, actuals[..k], container, alignment, progress, yP, i);
      assert actuals[..k][..i] == actuals[..i];
    }
  }

  /**
    * Placing nodes of non-negative size a second time at the same progress
    * puts them where they already are: each keeps its size, and the frames
    * depend on the sizes only.
    */
  lemma {:induction false} ExpansionFramesAgain(ct: CoreText, single: CtLine, lines: seq<LayoutLine>, actuals: seq<Rect>,
                                                container: Rect, alignment: Option<TextAlignment>, progress: real, yP: real)
    requires |actuals| <= |lines|
    requires forall i :: 0 <= i < |actuals| ==> actuals[i].width >= 0.0 && actuals[i].height >= 0.0
    ensures var e := ExpansionFrames(ct, single, lines, actuals, container, alignment, progress, yP);
            ExpansionFrames(ct, single, lines, e, container, alignment, progress, yP) == e
    decreases |actuals|
  {
    if actuals != [] {
      var k := |actuals| - 1;
      var e := ExpansionFrames(ct, single, lines, actuals, container, alignment, progress, yP);
      var ek := ExpansionFrames(ct, single, lines, actuals[..k], container, alignment, progress, yP);
      assert e[..k] == ek;
      var y := StackedHeight(actuals[..k]);
      var x := ExpansionProgressFrame(ct, single, lines[k], actuals[k], y, container, alignment, progress, yP);
      assert e == ek + [x];
      ExpansionFramesAgain(ct, single, lines, actuals[..k], container, alignment, progress, yP);
      ExpansionFramesSettle(ct, single, lines, actuals[..k], container, alignment, progress, yP);
      StackedHeightOfSizes(ek, actuals[..k]);
      ProgressFrameOfSize(ct, single, lines[k], x, actuals[k], y, container, alignment, progress, yP);
    }
  }

  /** A progress frame depends on the node's frame through its size only. */
  lemma ProgressFrameOfSize(ct: CoreText, single: CtLine, line: LayoutLine, a: Rect, b: Rect, offsetY: real,
                            container: Rect, alignment: Option<TextAlignment>, progress: real, yP: real)
    requires a.width == b.AbsWidth() && a.height == b.AbsHeight() && b.width >= 0.0 && b.height >= 0.0
    ensures ExpansionProgressFrame(ct, single, line, a, offsetY, container, alignment, progress, yP)
            == ExpansionProgressFrame(ct, single, line, b, offsetY, container, alignment, progress, yP)
  {
    assert a.Dimensions() == b.Dimensions();
  }

  /**
    * `updateExpansion` keeps every line node's size; at progress 1 (with
    * vertical progress 1) nodes of non-negative size stand where the
    * alignment table puts them, each directly under the one before it.
    */
  lemma ExpansionFramesSettle(ct: CoreText, single: CtLine, lines: seq<LayoutLine>, actuals: seq<Rect>,
                              container: Rect, alignment: Option<TextAlignment>, progress: real, yP: real)
    requires |actuals| <= |lines|
    ensures var r := ExpansionFrames(ct, single, lines, actuals, container, alignment, progress, yP);
            forall i :: 0 <= i < |r| ==> r[i].width == actuals[i].AbsWidth() && r[i].height == actuals[i].AbsHeight()
    ensures var r := ExpansionFrames(ct, single, lines, actuals, container, alignment, 1.0, 1.0);
            forall i :: 0 <= i < |r| && actuals[i].width >= 0.0 && actuals[i].height >= 0.0 ==>
              r[i] == ExpandedFrame(actuals[i].Dimensions(), StackedHeight(actuals[..i]), container, alignment, lines[i].isRTL)
    ensures var r := ExpansionFrames(ct, single, lines, actuals, container, alignment, 1.0, 1.0);
            forall i :: 0 <= i < |r| - 1 ==> r[i + 1].y == r[i].y + r[i].AbsHeight()
  {
    var r := ExpansionFrames(ct, single, lines, actuals, container, alignment, progress, yP);
    var r1 := ExpansionFrames(ct, single, lines, actuals, container, alignment, 1.0, 1.0);
    forall i | 0 <= i < |r|
      ensures r[i].width == actuals[i].AbsWidth() && r[i].height == actuals[i].AbsHeight()
      ensures r1[i].y == StackedHeight(actuals[..i]) && r1[i].AbsHeight() == actuals[i].AbsHeight()
      ensures actuals[i].width >= 0.0 && actuals[i].height >= 0.0 ==>
                r1[i] == ExpandedFrame(actuals[i].Dimensions(), StackedHeight(actuals[..i]), container, alignment, lines[i].isRTL)
    {
      ExpansionFramesAt(ct, single, lines, actuals, container, alignment, progress, yP, i);
      ExpansionFramesAt(ct, single, lines, actuals, container, alignment, 1.0, 1.0, i);
    }
    forall i | 0 <= i < |r1| - 1
      ensures r1[i + 1].y == r1[i].y + r1[i].AbsHeight()
    {
      assert actuals[..i + 1][..i] == actuals[..i];
    }
  }

  // ---------------------------------------------------------------------
  // The line loop of `update`

  /** The sizes new line nodes measure for `lines`: each line on one line inside its frame. */
  function MeasuredSizes(measure: (Text, Size, nat) -> Size, lines: seq<LayoutLine>): (r: seq<Size>)
    ensures |r| == |lines|
  {
    if lines == [] then []
    else
      var k := |lines| - 1;
      MeasuredSizes(measure, lines[..k]) + [measure(lines[k].text, lines[k].frame.Dimensions(), 1)]
  }

  lemma {:induction false} MeasuredSizesPrefix(measure: (Text, Size, nat) -> Size, lines: seq<LayoutLine>, i: int)
    requires 0 <= i <= |lines|
    ensures MeasuredSizes(measure, lines)[..i] == MeasuredSizes(measure, lines[..i])
    decreases |lines|
  {
    if i < |lines| {
      var k := |lines| - 1;
      MeasuredSizesPrefix(measure, lines[..k], i);
      assert lines[..k][..i] == lines[..i];
    } else {
      assert lines[..i] == lines;
    }
  }


  /** The loop appends a node per line: expanding from one line, with previous lines. */
  predicate Appending(prevLinesInfo: Option<seq<LayoutLine>>, wasExpanded: bool, isExpanded: bool)
  {
    prevLinesInfo.Some? && !wasExpanded && isExpanded && |prevLinesInfo.value| > 0
  }

  /** The loop moves the line nodes onto the single line: collapsing, with previous lines. */
  predicate Moving(prevLinesInfo: Option<seq<LayoutLine>>, wasExpanded: bool, isExpanded: bool)
  {
    prevLinesInfo.Some? && wasExpanded && !isExpanded
  }

  /**
    * What the line loop has done after `i` lines to the line nodes `ts`,
    * whose frames are `frames` and texts `texts`: expanding, the nodes of
    * those lines follow the previous ones (`nodes`, with frames `before`
    * and texts `beforeTexts`) in their centred frames and `offsetY` is
    * where the next goes; collapsing, the nodes sit on line `i - 1`;
    * otherwise no node has moved.
    */
  ghost predicate LinesPlaced(ct: CoreText, measure: (Text, Size, nat) -> Size, lines: seq<LayoutLine>,
                              prevLinesInfo: Option<seq<LayoutLine>>, wasExpanded: bool, isExpanded: bool,
                              nodes: seq<ImmediateTextNode>, before: seq<Rect>, beforeTexts: seq<Text>,
                              containerWidth: real, i: int, offsetY: real,
                              ts: seq<ImmediateTextNode>, frames: seq<Rect>, texts: seq<Text>)
    requires 0 <= i <= |lines|
  {
    && (Appending(prevLinesInfo, wasExpanded, isExpanded) ==>
          && |ts| == |nodes| + i && ts[..|nodes|] == nodes
          && frames == before + CentredLineFrames(MeasuredSizes(measure, lines)[..i], containerWidth)
          && texts == beforeTexts + LineTexts(lines[..i])
          && offsetY == StackedOffset(MeasuredSizes(measure, lines)[..i]))
    && (Moving(prevLinesInfo, wasExpanded, isExpanded) ==>
          && |ts| == |nodes| && texts == beforeTexts
          && frames == if i == 0 then before else MovedOntoLine(ct, before, lines[i - 1].ctLine, prevLinesInfo.value))
    && (!Appending(prevLinesInfo, wasExpanded, isExpanded) && !Moving(prevLinesInfo, wasExpanded, isExpanded) ==>
          ts == nodes && frames == before && texts == beforeTexts)
  }

  /** Before the first line, every mode of the loop has the nodes as they were. */
  lemma LinesPlacedStart(ct: CoreText, measure: (Text, Size, nat) -> Size, lines: seq<LayoutLine>,
                         prevLinesInfo: Option<seq<LayoutLine>>, wasExpanded: bool, isExpanded: bool,
                         nodes: seq<ImmediateTextNode>, before: seq<Rect>, beforeTexts: seq<Text>, containerWidth: real)
    ensures LinesPlaced(ct, measure, lines, prevLinesInfo, wasExpanded, isExpanded, nodes, before, beforeTexts,
                        containerWidth, 0, 0.0, nodes, before, beforeTexts)
  {
    assert MeasuredSizes(measure, lines)[..0] == [];
    assert lines[..0] == [];
    assert before + [] == before;
    assert beforeTexts + [] == beforeTexts;
    assert nodes[..|nodes|] == nodes;
  }

  /** After the last line, the loop's account is the whole of the lines, in each mode. */
  lemma LinesPlacedEnd(ct: CoreText, measure: (Text, Size, nat) -> Size, lines: seq<LayoutLine>,
                       prevLinesInfo: Option<seq<LayoutLine>>, wasExpanded: bool, isExpanded: bool,
                       nodes: seq<ImmediateTextNode>, before: seq<Rect>, beforeTexts: seq<Text>,
                       containerWidth: real, offsetY: real,
                       ts: seq<ImmediateTextNode>, frames: seq<Rect>, texts: seq<Text>)
    requires LinesPlaced(ct, measure, lines, prevLinesInfo, wasExpanded, isExpanded, nodes, before, beforeTexts,
                         containerWidth, |lines|, offsetY, ts, frames, texts)
    ensures Appending(prevLinesInfo, wasExpanded, isExpanded) ==>
              && |ts| == |nodes| + |lines|
              && frames == before + CentredLineFrames(MeasuredSizes(measure, lines), containerWidth)
              && texts == beforeTexts + LineTexts(lines)
    ensures Moving(prevLinesInfo, wasExpanded, isExpanded) ==>
              && |ts| == |nodes| && texts == beforeTexts
              && frames == if lines == [] then before
                           else MovedOntoLine(ct, before, lines[|lines| - 1].ctLine, prevLinesInfo.value)
    ensures !Appending(prevLinesInfo, wasExpanded, isExpanded) && !Moving(prevLinesInfo, wasExpanded, isExpanded) ==>
              ts == nodes && frames == before && texts == beforeTexts
  {
    assert lines[..|lines|] == lines;
    assert MeasuredSizes(measure, lines)[..|lines|] == MeasuredSizes(measure, lines);
  }

  /** A line that neither appends nor moves a node leaves the loop's account as it was. */
  lemma LinesPlacedUnmoved(ct: CoreText, measure: (Text, Size, nat) -> Size, lines: seq<LayoutLine>,
                           prevLinesInfo: Option<seq<LayoutLine>>, wasExpanded: bool, isExpanded: bool,
                           nodes: seq<ImmediateTextNode>, before: seq<Rect>, beforeTexts: seq<Text>,
                           containerWidth: real, i: int, offsetY: real,
                           ts: seq<ImmediateTextNode>, frames: seq<Rect>, texts: seq<Text>)
    requires 0 <= i < |lines|
    requires !Appending(prevLinesInfo, wasExpanded, isExpanded) && !Moving(prevLinesInfo, wasExpanded, isExpanded)
    requires LinesPlaced(ct, measure, lines, prevLinesInfo, wasExpanded, isExpanded, nodes, before, beforeTexts,
                         containerWidth, i, offsetY, ts, frames, texts)
    ensures LinesPlaced(ct, measure, lines, prevLinesInfo, wasExpanded, isExpanded, nodes, before, beforeTexts,
                        containerWidth, i + 1, offsetY, ts, frames, texts)
  {
  }

  /**
    * What `update` reads and writes of a state node: the remembered title,
    * size and lines, whether it was expanded, the progress, the fade mask,
    * and the frames and texts of the line nodes in order.
    */
  datatype NodeState = NodeState(prevString: Option<Text>, prevSize: Option<Size>,
                                 prevLines: Option<seq<LayoutLine>>, wasExpanded: bool, lastProgress: real,
                                 mask: MaskLayer, frames: seq<Rect>, texts: seq<Text>)

  /** `shouldReset`: the title or the size differs from the remembered ones. */
  predicate Resets(s: NodeState, title: Text, constrainedSize: Size)
  {
    Some(title) != s.prevString || Some(constrainedSize) != s.prevSize
  }

  // ---------------------------------------------------------------------
  // The state node

  /** `MultiScaleTextStateNodeExpandable`: one title state, on one line or expanded. */
  class MultiScaleTextStateNodeExpandable {
    /** CoreText, as in the later revision. */
    const coreText: CoreText
    /** `ImmediateTextNode.updateLayout`: the size of a text in a box on at most so many lines. */
    const measure: (Text, Size, nat) -> Size
    /** The vertical progress `sqrt(1 - (p - 1)^2)` of `updateExpansion`. */
    const yProgress: real -> real

    var currentLayout: Option<Size>
    var textSubnodes: seq<ImmediateTextNode>
    /** The frame of `textContainer`, set by `updateTextFrame`. */
    var textContainerFrame: Rect
    var prevSize: Option<Size>
    var prevString: Option<Text>
    var wasExpanded: bool
    var lastProgress: real
    var prevLines: Option<seq<LayoutLine>>
    var singleLineFadeMask: MaskLayer
    /** The node's own bounds, which its parent sets. */
    var bounds: Rect
    var alpha: real

    /**
      * The remembered title, size and lines come and go together, a
      * remembered title is never blank, and the vertical progress eases out.
      */
    ghost predicate Valid()
      reads this`prevString, this`prevSize, this`prevLines
    {
      && EasesOut(yProgress)
      && (prevString.Some? <==> prevSize.Some?)
      && (prevString.Some? <==> prevLines.Some?)
      && (prevString.Some? ==> !Blank(prevString.value))
    }

    constructor(coreText: CoreText, measure: (Text, Size, nat) -> Size, yProgress: real -> real)
      requires EasesOut(yProgress)
      ensures Valid()
      ensures this.coreText == coreText && this.measure == measure && this.yProgress == yProgress
      ensures currentLayout.None? && textSubnodes == [] && textContainerFrame == ZeroRect
      ensures prevSize.None? && prevString.None? && !wasExpanded && lastProgress == 0.0 && prevLines.None?
      ensures singleLineFadeMask == MaskLayer(ZeroRect, 1.0, []) && bounds == ZeroRect && alpha == 1.0
    {
      this.coreText := coreText;
      this.measure := measure;
      this.yProgress := yProgress;
      currentLayout := None;
      textSubnodes := [];
      textContainerFrame := ZeroRect;
      prevSize := None;
      prevString := None;
      wasExpanded := false;
      lastProgress := 0.0;
      prevLines := None;
      singleLineFadeMask := MaskLayer(ZeroRect, 1.0, []);
      bounds := ZeroRect;
      alpha := 1.0;
    }

    /** `updateTextFrame`: positions the text container. */
    method UpdateTextFrame(frame: Rect)
      modifies this`textContainerFrame
      ensures textContainerFrame == frame
    {
      textContainerFrame := frame;
    }

    /** What `update` returns: nothing for a blank title, else the title measured on up to ten lines. */
    function UpdatedSize(title: Text, constrainedSize: Size): Size
    {
      if Blank(title) then ZeroSize else measure(title, constrainedSize, MeasuredLineCount)
    }

    /** What `update` reads and writes of this node, with the line nodes seen through their frames and texts. */
    ghost function State(): NodeState
      reads this`prevString, this`prevSize, this`prevLines, this`wasExpanded, this`lastProgress,
            this`singleLineFadeMask, this`textSubnodes
    {
      NodeState(prevString, prevSize, prevLines, wasExpanded, lastProgress, singleLineFadeMask,
                Frames(textSubnodes), Texts(textSubnodes))
    }

    /** `prevLinesInfo` of `update`'s loop: the lines of the remembered title at the remembered width. */
    function PrevLinesInfo(s: NodeState): Option<seq<LayoutLine>>
    {
      if s.prevString.Some? && s.prevSize.Some? then
        Some(LinesArrayOf(coreText, s.prevString.value, Finite(s.prevSize.value.width)))
      else None
    }

    /** The reset at the start of `update`, on the state. */
    function Reset(s: NodeState, title: Text, constrainedSize: Size): NodeState
    {
      if Resets(s, title, constrainedSize) then
        s.(frames := [], texts := [], prevString := None, prevSize := None, prevLines := None, lastProgress := 0.0)
      else s
    }

    /** The fade mask step of `update`, on the state. */
    function MaskUpdated(s: NodeState, title: Text, isExpanded: bool, totalSize: Size): NodeState
    {
      var s1 :=
        if !s.wasExpanded && isExpanded then
          s.(frames := [], texts := [], mask := s.mask.(frame := s.mask.frame.(height := totalSize.height)))
        else if !isExpanded then
          s.(mask := s.mask.(opacity := 1.0, frame := CollapsedMaskFrame(measure(title, SingleLineBox, 1))))
        else s;
      s1.(mask := s1.mask.(sublayers := MaskSublayers(s1.mask.frame, totalSize.height)))
    }

    /** The line loop of `update`, on the state. */
    function AfterLineLoop(s: NodeState, lines: seq<LayoutLine>, totalSize: Size, isExpanded: bool): NodeState
    {
      var info := PrevLinesInfo(s);
      if Appending(info, s.wasExpanded, isExpanded) then
        s.(frames := s.frames + CentredLineFrames(MeasuredSizes(measure, lines), BoundsOf(totalSize).AbsWidth()),
           texts := s.texts + LineTexts(lines))
      else if Moving(info, s.wasExpanded, isExpanded) && lines != [] then
        s.(frames := MovedOntoLine(coreText, s.frames, lines[|lines| - 1].ctLine, info.value))
      else s
    }

    /** `update` after the reset and the nested call: the lines, the mask, the line loop and the bookkeeping. */
    function LaidOut(s: NodeState, title: Text, constrainedSize: Size, isExpanded: bool): NodeState
    {
      var lines := LinesArrayOf(coreText, title, if isExpanded then Finite(constrainedSize.width) else Unbounded);
      var totalSize := measure(title, constrainedSize, MeasuredLineCount);
      var placed := AfterLineLoop(MaskUpdated(s, title, isExpanded, totalSize), lines, totalSize, isExpanded);
      placed.(prevSize := Some(totalSize), prevString := Some(title), prevLines := Some(lines), wasExpanded := isExpanded)
    }

    /**
      * `update` on the state: a blank title changes nothing; otherwise the
      * reset, then (expanding without line nodes) `update` of the title on
      * one line, then the rest.
      */
    function Updated(s: NodeState, title: Text, constrainedSize: Size, isExpanded: bool): NodeState
      decreases if isExpanded then 1 else 0
    {
      if Blank(title) then s
      else
        var r := Reset(s, title, constrainedSize);
        LaidOut(if isExpanded && r.frames == [] then Updated(r, title, constrainedSize, false) else r,
                title, constrainedSize, isExpanded)
    }

    /**
      * The collapse loop of `update`, run on `r` (the state after the reset),
      * indexes the line nodes by previous line for every line of the title:
      * there must be a node for each previous line, or the source traps.
      */
    predicate CollapseInBounds(r: NodeState, title: Text)
    {
      Moving(PrevLinesInfo(r), r.wasExpanded, false) && |LinesArrayOf(coreText, title, Unbounded)| > 0 ==>
        |PrevLinesInfo(r).value| <= |r.frames|
    }

    /**
      * `update` from `s` stays inside the line nodes: collapsing, its own
      * loop; expanding without line nodes after the reset, the collapsing
      * `update` it makes first.
      */
    predicate UpdateInBounds(s: NodeState, title: Text, constrainedSize: Size, isExpanded: bool)
    {
      var r := Reset(s, title, constrainedSize);
      !Blank(title) && (!isExpanded || r.frames == []) ==> CollapseInBounds(r, title)
    }

    /** The width an expanding `update` lays its lines out against: the nested call remembers the measured size. */
    function ProbeSize(s: NodeState, title: Text, constrainedSize: Size): Size
    {
      if Resets(s, title, constrainedSize) || s.frames == [] then measure(title, constrainedSize, MeasuredLineCount)
      else constrainedSize
    }

    /**
      * `update` of a title that is not blank remembers the title, the size
      * it measured (not the size it was given), the lines it laid out and
      * whether it expanded; a reset clears the progress.
      */
    lemma UpdateRemembers(s: NodeState, title: Text, constrainedSize: Size, isExpanded: bool)
      requires !Blank(title)
      ensures var r := Updated(s, title, constrainedSize, isExpanded);
              && r.prevString == Some(title)
              && r.prevSize == Some(measure(title, constrainedSize, MeasuredLineCount))
              && r.prevLines == Some(LinesArrayOf(coreText, title, if isExpanded then Finite(constrainedSize.width) else Unbounded))
              && r.wasExpanded == isExpanded
              && r.lastProgress == if Resets(s, title, constrainedSize) then 0.0 else s.lastProgress
    {
    }

    /**
      * After `update` the mask's two sublayers span its frame and the
      * measured text; on the single line the mask is opaque and fits the
      * line; expanding from the single line only stretches it to the text.
      */
    lemma UpdateMask(s: NodeState, title: Text, constrainedSize: Size, isExpanded: bool)
      requires !Blank(title)
      ensures var r := Updated(s, title, constrainedSize, isExpanded);
              var size := measure(title, constrainedSize, MeasuredLineCount);
              && r.mask.sublayers == MaskSublayers(r.mask.frame, size.height)
              && (!isExpanded ==> r.mask.frame == CollapsedMaskFrame(measure(title, SingleLineBox, 1)) && r.mask.opacity == 1.0)
              && (isExpanded && Reset(s, title, constrainedSize).frames == [] ==>
                    r.mask.frame == CollapsedMaskFrame(measure(title, SingleLineBox, 1)).(height := size.height))
              && (isExpanded && Reset(s, title, constrainedSize).frames != [] ==>
                    r.mask.frame == if s.wasExpanded then s.mask.frame else s.mask.frame.(height := size.height))
    {
    }

    /**
      * Expanding from the single line (after a reset, without line nodes or
      * from the collapsed mode) gives exactly one node per line of the
      * title at the given width, each with its line's text, centred in the
      * measured width and stacked; if the title laid out against the
      * remembered size has no line, there are no line nodes at all.
      */
    lemma UpdateExpands(s: NodeState, title: Text, constrainedSize: Size)
      requires !Blank(title)
      requires Resets(s, title, constrainedSize) || s.frames == [] || !s.wasExpanded
      ensures var r := Updated(s, title, constrainedSize, true);
              var lines := LinesArrayOf(coreText, title, Finite(constrainedSize.width));
              var probe := LinesArrayOf(coreText, title, Finite(ProbeSize(s, title, constrainedSize).width));
              var size := measure(title, constrainedSize, MeasuredLineCount);
              && (|probe| == 0 ==> r.frames == [] && r.texts == [])
              && (|probe| > 0 ==>
                    && r.frames == CentredLineFrames(MeasuredSizes(measure, lines), BoundsOf(size).AbsWidth())
                    && r.texts == LineTexts(lines))
    {
      var r := Reset(s, title, constrainedSize);
      var base := if r.frames == [] then Updated(r, title, constrainedSize, false) else r;
      if r.frames == [] {
        UpdateRemembers(r, title, constrainedSize, false);
      }
      assert Updated(s, title, constrainedSize, true) == LaidOut(base, title, constrainedSize, true);
      ExpandingLaidOut(base, title, constrainedSize, ProbeSize(s, title, constrainedSize));
    }

    /** The expanding half of `update`, from the single line: the lines of the title, one node each, or none. */
    lemma ExpandingLaidOut(base: NodeState, title: Text, constrainedSize: Size, probeSize: Size)
      requires !Blank(title) && !base.wasExpanded && base.prevString == Some(title) && base.prevSize == Some(probeSize)
      ensures var r := LaidOut(base, title, constrainedSize, true);
              var lines := LinesArrayOf(coreText, title, Finite(constrainedSize.width));
              var probe := LinesArrayOf(coreText, title, Finite(probeSize.width));
              var size := measure(title, constrainedSize, MeasuredLineCount);
              && (|probe| == 0 ==> r.frames == [] && r.texts == [])
              && (|probe| > 0 ==>
                    && r.frames == CentredLineFrames(MeasuredSizes(measure, lines), BoundsOf(size).AbsWidth())
                    && r.texts == LineTexts(lines))
    {
      var lines := LinesArrayOf(coreText, title, Finite(constrainedSize.width));
      var size := measure(title, constrainedSize, MeasuredLineCount);
      var frames := CentredLineFrames(MeasuredSizes(measure, lines), BoundsOf(size).AbsWidth());
      assert [] + frames == frames;
      assert [] + LineTexts(lines) == LineTexts(lines);
    }

    /**
      * Collapsing the same title at the same size moves the line nodes, and
      * only their frames, onto the single line: each to the caret offset of
      * its line's start, at the top.
      */
    lemma UpdateCollapses(s: NodeState, title: Text, constrainedSize: Size)
      requires !Blank(title) && !Resets(s, title, constrainedSize) && s.wasExpanded
      ensures var r := Updated(s, title, constrainedSize, false);
              var single := LinesArrayOf(coreText, title, Unbounded);
              && r.texts == s.texts
              && r.frames == if single == [] then s.frames
                             else MovedOntoLine(coreText, s.frames, single[|single| - 1].ctLine,
                                                LinesArrayOf(coreText, title, Finite(constrainedSize.width)))
    {
    }

    /**
      * Otherwise the line nodes keep their frames and texts, unless a reset
      * dropped them.
      */
    lemma UpdateKeepsLineNodes(s: NodeState, title: Text, constrainedSize: Size, isExpanded: bool)
      requires !Blank(title)
      requires isExpanded ==> !Resets(s, title, constrainedSize) && s.frames != [] && s.wasExpanded
      requires !isExpanded ==> Resets(s, title, constrainedSize) || !s.wasExpanded
      ensures var r := Updated(s, title, constrainedSize, isExpanded);
              && r.frames == (if Resets(s, title, constrainedSize) then [] else s.frames)
              && r.texts == (if Resets(s, title, constrainedSize) then [] else s.texts)
    {
    }

    /**
      * `update` remembers the measured size, which `shouldReset` compares
      * with the size it is given: unless the title measures exactly that
      * size, a repeated `update` resets again.
      */
    lemma UpdateRepeatResets(s: NodeState, title: Text, constrainedSize: Size, isExpanded: bool)
      requires !Blank(title) && measure(title, constrainedSize, MeasuredLineCount) != constrainedSize
      ensures Resets(Updated(s, title, constrainedSize, isExpanded), title, constrainedSize)
    {
      UpdateRemembers(s, title, constrainedSize, isExpanded);
    }

    /**
      * When the title measures exactly the size it is given, repeating an
      * `update` changes nothing (expanding, as long as there are line
      * nodes to keep).
      */
    lemma {:induction false} UpdateRepeatSettles(s: NodeState, title: Text, constrainedSize: Size, isExpanded: bool)
      requires !Blank(title) && measure(title, constrainedSize, MeasuredLineCount) == constrainedSize
      requires isExpanded ==> Updated(s, title, constrainedSize, isExpanded).frames != []
      ensures var r := Updated(s, title, constrainedSize, isExpanded);
              Updated(r, title, constrainedSize, isExpanded) == r
    {
      UpdateRemembers(s, title, constrainedSize, isExpanded);
      UpdateMask(s, title, constrainedSize, isExpanded);
    }

    /**
      * `update(title:constrainedSize:transition:isExpanded:)`, proved
      * against `Updated`. It touches nothing but the state, and collapsing
      * keeps or drops the line nodes, never makes new ones. The source
      * traps when its collapse loop indexes a line node that does not
      * exist, so this requires `UpdateInBounds`.
      */
    method Update(title: Text, constrainedSize: Size, isExpanded: bool) returns (size: Size)
      requires Valid() && UpdateInBounds(State(), title, constrainedSize, isExpanded)
      modifies this`textSubnodes, this`prevString, this`prevSize, this`prevLines, this`lastProgress,
               this`singleLineFadeMask, this`wasExpanded
      ensures Valid()
      ensures size == UpdatedSize(title, constrainedSize)
      ensures State() == Updated(old(State()), title, constrainedSize, isExpanded)
      ensures !isExpanded ==> |textSubnodes| == 0 || |textSubnodes| == |old(textSubnodes)|
      decreases if isExpanded then 1 else 0
    {
      if Blank(title) {
        return ZeroSize;
      }
      ResetIfChanged(title, constrainedSize);
      if isExpanded && |textSubnodes| == 0 {
        var _ := Update(title, constrainedSize, false);
      }
      size := LayOut(title, constrainedSize, isExpanded);
    }

    /**
      * One turn of the container's `updateLayout` on this node: `update`,
      * and the size it returns kept as the current layout.
      */
    method UpdateKeepingLayout(title: Text, constrainedSize: Size, isExpanded: bool) returns (size: Size)
      requires Valid() && UpdateInBounds(State(), title, constrainedSize, isExpanded)
      modifies this`textSubnodes, this`prevString, this`prevSize, this`prevLines, this`lastProgress,
               this`singleLineFadeMask, this`wasExpanded, this`currentLayout
      ensures Valid()
      ensures size == UpdatedSize(title, constrainedSize)
      ensures State() == Updated(old(State()), title, constrainedSize, isExpanded)
      ensures currentLayout == Some(size)
    {
      size := Update(title, constrainedSize, isExpanded);
      currentLayout := Some(size);
    }

    /** The reset at the start of `update`: a new title or size forgets the line nodes, the remembered state and the progress. */
    method ResetIfChanged(title: Text, constrainedSize: Size)
      requires Valid()
      modifies this`textSubnodes, this`prevString, this`prevSize, this`prevLines, this`lastProgress
      ensures Valid()
      ensures State() == Reset(old(State()), title, constrainedSize)
      ensures textSubnodes == [] || textSubnodes == old(textSubnodes)
    {
      if Some(title) != prevString || Some(constrainedSize) != prevSize {
        textSubnodes := [];
        prevString := None;
        prevSize := None;
        prevLines := None;
        lastProgress := 0.0;
      }
    }

    /**
      * `update` of a title that is not blank, after the reset and the
      * nested call: the lines (at the given width when expanding, on one
      * unbounded line otherwise), the measured size, the fade mask, the
      * line loop and the bookkeeping.
      */
    method LayOut(title: Text, constrainedSize: Size, isExpanded: bool) returns (size: Size)
      requires Valid() && !Blank(title) && (!isExpanded ==> CollapseInBounds(State(), title))
      modifies this`textSubnodes, this`singleLineFadeMask, this`prevSize, this`prevString, this`prevLines,
               this`wasExpanded
      ensures Valid()
      ensures size == measure(title, constrainedSize, MeasuredLineCount)
      ensures State() == LaidOut(old(State()), title, constrainedSize, isExpanded)
      ensures !isExpanded ==> |textSubnodes| == |old(textSubnodes)|
    {
      var lines;
      if isExpanded {
        lines := GetLinesArrayOfString(coreText, title, Finite(constrainedSize.width));
      } else {
        lines := GetLinesArrayOfString(coreText, title, Unbounded);
      }
      var totalSize := measure(title, constrainedSize, MeasuredLineCount);
      UpdateSingleLineFadeMask(title, isExpanded, totalSize);
      PlaceLineNodes(lines, totalSize, isExpanded);
      Remember(title, totalSize, lines, isExpanded);
      size := totalSize;
    }

    /** The bookkeeping that ends `update`: the title, the measured size, the lines and the mode. */
    method Remember(title: Text, totalSize: Size, lines: seq<LayoutLine>, isExpanded: bool)
      modifies this`prevSize, this`prevString, this`prevLines, this`wasExpanded
      ensures State() == old(State()).(prevSize := Some(totalSize), prevString := Some(title), prevLines := Some(lines),
                                       wasExpanded := isExpanded)
    {
      prevSize := Some(totalSize);
      prevString := Some(title);
      prevLines := Some(lines);
      wasExpanded := isExpanded;
    }

    /**
      * The fade mask step of `update`: expanding from the single line drops
      * the line nodes and stretches the mask to the text's height; showing
      * the single line makes the mask opaque and fits it to the line (at
      * least 180 points wide); in every case the mask gets new sublayers.
      */
    method UpdateSingleLineFadeMask(title: Text, isExpanded: bool, totalSize: Size)
      modifies this`textSubnodes, this`singleLineFadeMask
      ensures State() == MaskUpdated(old(State()), title, isExpanded, totalSize)
      ensures textSubnodes == [] || textSubnodes == old(textSubnodes)
      ensures !isExpanded ==> textSubnodes == old(textSubnodes)
    {
      if !wasExpanded && isExpanded {
        textSubnodes := [];
        singleLineFadeMask := singleLineFadeMask.(frame := singleLineFadeMask.frame.(height := totalSize.height));
      } else if !isExpanded {
        var singleLineSize := measure(title, SingleLineBox, 1);
        singleLineFadeMask := singleLineFadeMask.(opacity := 1.0, frame := CollapsedMaskFrame(singleLineSize));
      }
      var mask := singleLineFadeMask.frame;
      var opaqueArea := Rect(0.0, 0.0, mask.AbsWidth() - GradientRadius, mask.AbsHeight());
      var gradient := Rect(mask.AbsWidth() - GradientRadius, 0.0, GradientRadius, totalSize.height);
      singleLineFadeMask := singleLineFadeMask.(sublayers := [opaqueArea, gradient]);
    }

    /**
      * The line loop of `update`. Expanding appends one new node per line,
      * centred in the title's width and stacked with `lineSpacing`;
      * collapsing moves the existing line nodes onto each line in turn (so
      * onto the last); otherwise no remembered node changes (the nodes made
      * then only go to the text container).
      */
    method PlaceLineNodes(lines: seq<LayoutLine>, totalSize: Size, isExpanded: bool)
      requires Moving(PrevLinesInfo(State()), wasExpanded, isExpanded) && |lines| > 0 ==>
                 |PrevLinesInfo(State()).value| <= |textSubnodes|
      modifies this`textSubnodes
      ensures State() == AfterLineLoop(old(State()), lines, totalSize, isExpanded)
      ensures |textSubnodes| >= |old(textSubnodes)|
      ensures !isExpanded ==> |textSubnodes| == |old(textSubnodes)|
    {
      var prevLinesInfo := None;
      if prevString.Some? && prevSize.Some? {
        var previous := GetLinesArrayOfString(coreText, prevString.value, Finite(prevSize.value.width));
        prevLinesInfo := Some(previous);
      }
      assert prevLinesInfo == PrevLinesInfo(State());
      ghost var nodes := textSubnodes;
      ghost var before := Frames(textSubnodes);
      ghost var beforeTexts := Texts(textSubnodes);
      var containerWidth := BoundsOf(totalSize).AbsWidth();
      LinesPlacedStart(coreText, measure, lines, prevLinesInfo, wasExpanded, isExpanded, nodes, before, beforeTexts,
                       containerWidth);
      var offsetY := PlaceEveryLine(lines, prevLinesInfo, isExpanded, nodes, before, beforeTexts, containerWidth);
      LinesPlacedEnd(coreText, measure, lines, prevLinesInfo, wasExpanded, isExpanded, nodes, before, beforeTexts,
                     containerWidth, offsetY, textSubnodes, Frames(textSubnodes), Texts(textSubnodes));
    }

    /** The line loop of `update` itself: every line placed in turn, from the nodes as they were. */
    method PlaceEveryLine(lines: seq<LayoutLine>, prevLinesInfo: Option<seq<LayoutLine>>, isExpanded: bool,
                          ghost nodes: seq<ImmediateTextNode>, ghost before: seq<Rect>, ghost beforeTexts: seq<Text>,
                          containerWidth: real)
      returns (offsetY: real)
      requires prevLinesInfo.Some? <==> prevString.Some? && prevSize.Some?
      requires Moving(prevLinesInfo, wasExpanded, isExpanded) && |lines| > 0 ==> |prevLinesInfo.value| <= |nodes|
      requires LinesPlaced(coreText, measure, lines, prevLinesInfo, wasExpanded, isExpanded, nodes, before, beforeTexts,
                           containerWidth, 0, 0.0, textSubnodes, Frames(textSubnodes), Texts(textSubnodes))
      modifies this`textSubnodes
      ensures LinesPlaced(coreText, measure, lines, prevLinesInfo, wasExpanded, isExpanded, nodes, before, beforeTexts,
                          containerWidth, |lines|, offsetY, textSubnodes, Frames(textSubnodes), Texts(textSubnodes))
    {
      offsetY := 0.0;
      for i := 0 to |lines|
        invariant LinesPlaced(coreText, measure, lines, prevLinesInfo, wasExpanded, isExpanded, nodes, before, beforeTexts,
                              containerWidth, i, offsetY, textSubnodes, Frames(textSubnodes), Texts(textSubnodes))
      {
        offsetY := PlaceLine(lines, prevLinesInfo, isExpanded, nodes, before, beforeTexts, containerWidth, i, offsetY);
      }
    }

    /**
      * One turn of the line loop of `update`, for line `i`, with
      * `prevLinesInfo` worked out before the loop (it does not change in
      * it); the result is the next `offsetY`.
      */
    method PlaceLine(lines: seq<LayoutLine>, prevLinesInfo: Option<seq<LayoutLine>>, isExpanded: bool,
                     ghost nodes: seq<ImmediateTextNode>, ghost before: seq<Rect>, ghost beforeTexts: seq<Text>,
                     containerWidth: real, i: int, offsetY: real)
      returns (nextOffsetY: real)
      requires 0 <= i < |lines| && (prevLinesInfo.Some? <==> prevString.Some? && prevSize.Some?)
      requires Moving(prevLinesInfo, wasExpanded, isExpanded) ==> |prevLinesInfo.value| <= |nodes|
      requires LinesPlaced(coreText, measure, lines, prevLinesInfo, wasExpanded, isExpanded, nodes, before, beforeTexts,
                           containerWidth, i, offsetY, textSubnodes, Frames(textSubnodes), Texts(textSubnodes))
      modifies this`textSubnodes
      ensures LinesPlaced(coreText, measure, lines, prevLinesInfo, wasExpanded, isExpanded, nodes, before, beforeTexts,
                          containerWidth, i + 1, nextOffsetY, textSubnodes, Frames(textSubnodes), Texts(textSubnodes))
    {
      var line := lines[i];
      if prevLinesInfo.Some? {
        var previous := prevLinesInfo.value;
        if !wasExpanded && isExpanded && |previous| > 0 {
          nextOffsetY := AppendExpandedLine(lines, prevLinesInfo, isExpanded, nodes, before, beforeTexts,
                                            containerWidth, i, offsetY);
          return;
        } else if wasExpanded && !isExpanded {
          CollapseLine(lines, prevLinesInfo, isExpanded, nodes, before, beforeTexts, containerWidth, i, offsetY);
          nextOffsetY := offsetY;
          return;
        }
        // Otherwise the node made for the line goes only to the text container.
      }
      // With no remembered lines likewise: a node in the line's measured
      // bounds goes only to the text container.
      nextOffsetY := offsetY;
      LinesPlacedUnmoved(coreText, measure, lines, prevLinesInfo, wasExpanded, isExpanded, nodes, before, beforeTexts,
                         containerWidth, i, offsetY, textSubnodes, Frames(textSubnodes), Texts(textSubnodes));
    }

    /**
      * The expanding step of `update`'s loop for line `i`: a new node with
      * the line's text, first at the caret offset of the line's start in the
      * first previous line, then centred in `containerWidth` at `offsetY`,
      * joins the line nodes; the result is the next line's `offsetY`.
      */
    method AppendExpandedLine(lines: seq<LayoutLine>, prevLinesInfo: Option<seq<LayoutLine>>, isExpanded: bool,
                              ghost nodes: seq<ImmediateTextNode>, ghost before: seq<Rect>, ghost beforeTexts: seq<Text>,
                              containerWidth: real, i: int, offsetY: real)
      returns (nextOffsetY: real)
      requires 0 <= i < |lines| && Appending(prevLinesInfo, wasExpanded, isExpanded)
      requires LinesPlaced(coreText, measure, lines, prevLinesInfo, wasExpanded, isExpanded, nodes, before, beforeTexts,
                           containerWidth, i, offsetY, textSubnodes, Frames(textSubnodes), Texts(textSubnodes))
      modifies this`textSubnodes
      ensures LinesPlaced(coreText, measure, lines, prevLinesInfo, wasExpanded, isExpanded, nodes, before, beforeTexts,
                          containerWidth, i + 1, nextOffsetY, textSubnodes, Frames(textSubnodes), Texts(textSubnodes))
    {
      ghost var sizes := MeasuredSizes(measure, lines);
      AppendedStage(lines, i, sizes, containerWidth, before, beforeTexts);
      ghost var ts := textSubnodes;
      var line := lines[i];
      var actualSize := measure(line.text, line.frame.Dimensions(), 1);
      var single := prevLinesInfo.value[0].ctLine;
      var offsetX := Floor(coreText.offsetForIndex(single, line.lineRange.location));
      var lineTextNode := ImmediateTextNode(line.text, Rect(offsetX, 0.0, actualSize.width, actualSize.height));
      var expandedFrame := Rect((containerWidth - actualSize.width) / 2.0, offsetY, actualSize.width, actualSize.height);
      AppendLineNode(lineTextNode, expandedFrame);
      nextOffsetY := offsetY + actualSize.height + LineSpacing;
      assert textSubnodes[..|nodes|] == ts[..|nodes|];
    }

    /**
      * The collapsing step of `update`'s loop for line `i`: a node for the
      * line goes only to the text container, and the line nodes move onto
      * the line.
      */
    method CollapseLine(lines: seq<LayoutLine>, prevLinesInfo: Option<seq<LayoutLine>>, isExpanded: bool,
                        ghost nodes: seq<ImmediateTextNode>, ghost before: seq<Rect>, ghost beforeTexts: seq<Text>,
                        containerWidth: real, i: int, offsetY: real)
      requires 0 <= i < |lines| && Moving(prevLinesInfo, wasExpanded, isExpanded) && |prevLinesInfo.value| <= |nodes|
      requires LinesPlaced(coreText, measure, lines, prevLinesInfo, wasExpanded, isExpanded, nodes, before, beforeTexts,
                           containerWidth, i, offsetY, textSubnodes, Frames(textSubnodes), Texts(textSubnodes))
      modifies this`textSubnodes
      ensures LinesPlaced(coreText, measure, lines, prevLinesInfo, wasExpanded, isExpanded, nodes, before, beforeTexts,
                          containerWidth, i + 1, offsetY, textSubnodes, Frames(textSubnodes), Texts(textSubnodes))
    {
      var line := lines[i];
      MoveOntoSingleLine(line.ctLine, prevLinesInfo.value);
      if i > 0 {
        MovedOntoLineLastWins(coreText, before, lines[i - 1].ctLine, line.ctLine, prevLinesInfo.value);
      }
    }

    /** `textSubnodes.append(node)` with the node moved to `frame`; no other node changes. */
    method AppendLineNode(node: ImmediateTextNode, frame: Rect)
      modifies this`textSubnodes
      ensures textSubnodes == old(textSubnodes) + [node.(frame := frame)]
      ensures Frames(textSubnodes) == old(Frames(textSubnodes)) + [frame]
      ensures Texts(textSubnodes) == old(Texts(textSubnodes)) + [node.attributedText]
    {
      textSubnodes := textSubnodes + [node.(frame := frame)];
      assert textSubnodes[..|textSubnodes| - 1] == old(textSubnodes);
    }

    /** The stage of the expanding loop after line `i` joins: its frame and text come last. */
    lemma AppendedStage(lines: seq<LayoutLine>, i: int, sizes: seq<Size>, containerWidth: real,
                        before: seq<Rect>, beforeTexts: seq<Text>)
      requires 0 <= i < |lines| && sizes == MeasuredSizes(measure, lines)
      ensures var m := measure(lines[i].text, lines[i].frame.Dimensions(), 1);
              && (before + CentredLineFrames(sizes[..i], containerWidth))
                   + [Rect((containerWidth - m.width) / 2.0, StackedOffset(sizes[..i]), m.width, m.height)]
                 == before + CentredLineFrames(sizes[..i + 1], containerWidth)
              && StackedOffset(sizes[..i + 1]) == StackedOffset(sizes[..i]) + m.height + LineSpacing
      ensures (beforeTexts + LineTexts(lines[..i])) + [lines[i].text] == beforeTexts + LineTexts(lines[..i + 1])
    {
      CentredLineStep(lines, i, sizes, containerWidth);
      LineTextsStep(lines, i);
      var m := measure(lines[i].text, lines[i].frame.Dimensions(), 1);
      var placed := CentredLineFrames(sizes[..i], containerWidth);
      var f := Rect((containerWidth - m.width) / 2.0, StackedOffset(sizes[..i]), m.width, m.height);
      assert (before + placed) + [f] == before + (placed + [f]);
      var texts := LineTexts(lines[..i]);
      assert (beforeTexts + texts) + [lines[i].text] == beforeTexts + (texts + [lines[i].text]);
    }

    /** Line `i` of the expanding loop measures what `MeasuredSizes` lists for it. */
    lemma MeasuredSizeAt(lines: seq<LayoutLine>, i: int)
      requires 0 <= i < |lines|
      ensures MeasuredSizes(measure, lines)[i] == measure(lines[i].text, lines[i].frame.Dimensions(), 1)
    {
      MeasuredSizesPrefix(measure, lines, i + 1);
      assert lines[..i + 1][..i] == lines[..i];
    }

    /** One more line in the prefixes the expanding loop keeps. */
    lemma CentredLineStep(lines: seq<LayoutLine>, i: int, sizes: seq<Size>, containerWidth: real)
      requires 0 <= i < |lines| && sizes == MeasuredSizes(measure, lines)
      ensures var m := measure(lines[i].text, lines[i].frame.Dimensions(), 1);
              && CentredLineFrames(sizes[..i + 1], containerWidth)
                   == CentredLineFrames(sizes[..i], containerWidth)
                      + [Rect((containerWidth - m.width) / 2.0, StackedOffset(sizes[..i]), m.width, m.height)]
              && StackedOffset(sizes[..i + 1]) == StackedOffset(sizes[..i]) + m.height + LineSpacing
    {
      MeasuredSizeAt(lines, i);
      CentredFramesStep(sizes, i, containerWidth);
    }

    /**
      * The collapse step of `update`'s loop: the node of every previous line
      * moves to the caret offset of that line's start in the single line,
      * at y = 0. The nodes are indexed by previous line, so there must be
      * one for each.
      */
    method MoveOntoSingleLine(single: CtLine, previous: seq<LayoutLine>)
      requires |previous| <= |textSubnodes|
      modifies this`textSubnodes
      ensures Frames(textSubnodes) == MovedOntoLine(coreText, old(Frames(textSubnodes)), single, previous)
      ensures Texts(textSubnodes) == old(Texts(textSubnodes))
    {
      ghost var before := Frames(textSubnodes);
      var lineIndex := 0;
      while lineIndex < |previous|
        invariant 0 <= lineIndex <= |previous| && |textSubnodes| == |before|
        invariant Frames(textSubnodes) == MovedOntoLine(coreText, before[..lineIndex], single, previous) + before[lineIndex..]
        invariant Texts(textSubnodes) == old(Texts(textSubnodes))
      {
        var offsetX := Floor(coreText.offsetForIndex(single, previous[lineIndex].lineRange.location));
        var frame := textSubnodes[lineIndex].frame;
        SetLineFrame(lineIndex, frame.(x := offsetX, y := 0.0));
        MovedOntoLineStep(coreText, before, single, previous, lineIndex);
        lineIndex := lineIndex + 1;
      }
      MovedOntoLineRest(coreText, before, single, previous, lineIndex);
    }

    /** `textSubnodes[j].frame = frame`: the one node's frame changes, no other. */
    method SetLineFrame(j: int, frame: Rect)
      requires 0 <= j < |textSubnodes|
      modifies this`textSubnodes
      ensures Frames(textSubnodes) == old(Frames(textSubnodes))[j := frame]
      ensures Texts(textSubnodes) == old(Texts(textSubnodes))
    {
      textSubnodes := textSubnodes[j := textSubnodes[j].(frame := frame)];
    }

    /** The container the lines are aligned in: the remembered size, 16 points wider. */
    function ExpansionContainer(size: Size): Rect
    {
      BoundsOf(Size(size.width + ExpansionWidthInset, size.height))
    }

    /** The alignment of the lines: the forced one, else the paragraph alignment at the title's start. */
    function ExpansionAlignment(title: Text, forcedAlignment: Option<TextAlignment>): Option<TextAlignment>
      requires |title| > 0
    {
      if forcedAlignment.Some? then forcedAlignment else title[0].paragraphAlignment
    }

    /**
      * `updateExpansion` runs: a remembered title (never empty, and with a
      * remembered size) that CoreText sets on at least one line, and
      * remembered lines.
      */
    predicate ExpansionApplies(s: NodeState)
    {
      && s.prevString.Some? && s.prevLines.Some? && s.prevSize.Some? && |s.prevString.value| > 0
      && |LinesArrayOf(coreText, s.prevString.value, Unbounded)| > 0
    }

    /**
      * `updateExpansion` indexes the line nodes by remembered line: there
      * must be a node for each, or the source traps.
      */
    predicate ExpansionInBounds(s: NodeState)
    {
      ExpansionApplies(s) ==> |s.prevLines.value| <= |s.frames|
    }

    /**
      * How many line nodes `updateExpansion` places: one per remembered
      * line. Where the source traps (`ExpansionInBounds` fails, which
      * `UpdateExpansion` excludes) the function stops at the last node.
      */
    function ExpandedCount(s: NodeState): nat
      requires s.prevLines.Some?
    {
      MinInt(|s.prevLines.value|, MinInt(|s.frames|, |s.texts|))
    }

    /**
      * `updateExpansion` on the state, at `progress`: the node of each
      * remembered line gets the line's text and its progress frame, the
      * frames measured from the single line of the remembered title and
      * aligned in the widened remembered size; otherwise nothing changes.
      */
    function Expanded(s: NodeState, progress: real, forcedAlignment: Option<TextAlignment>): NodeState
    {
      if ExpansionApplies(s) then
        var lines := s.prevLines.value;
        var n := ExpandedCount(s);
        var single := LinesArrayOf(coreText, s.prevString.value, Unbounded)[0].ctLine;
        s.(frames := ExpansionFrames(coreText, single, lines, s.frames[..n], ExpansionContainer(s.prevSize.value),
                                     ExpansionAlignment(s.prevString.value, forcedAlignment), progress, yProgress(progress))
                     + s.frames[n..],
           texts := LineTexts(lines[..n]) + s.texts[n..])
      else s
    }

    /**
      * Line node `i` after `updateExpansion`: for a remembered line, that
      * line's text and the progress frame from its own frame, below the
      * heights of the nodes before it; past the remembered lines, as it was.
      */
    lemma ExpandedLineNode(s: NodeState, progress: real, forcedAlignment: Option<TextAlignment>, i: int)
      requires ExpansionApplies(s) && |s.frames| == |s.texts| && 0 <= i < |s.frames|
      ensures var r := Expanded(s, progress, forcedAlignment);
              var lines := s.prevLines.value;
              && |r.frames| == |s.frames| && |r.texts| == |s.texts|
              && (i < |lines| ==>
                    && r.texts[i] == lines[i].text
                    && r.frames[i]
                         == ExpansionProgressFrame(coreText, LinesArrayOf(coreText, s.prevString.value, Unbounded)[0].ctLine,
                                                   lines[i], s.frames[i], StackedHeight(s.frames[..i]),
                                                   ExpansionContainer(s.prevSize.value),
                                                   ExpansionAlignment(s.prevString.value, forcedAlignment),
                                                   progress, yProgress(progress)))
              && (i >= |lines| ==> r.texts[i] == s.texts[i] && r.frames[i] == s.frames[i])
    {
      var r := Expanded(s, progress, forcedAlignment);
      var lines := s.prevLines.value;
      var n := ExpandedCount(s);
      var single := LinesArrayOf(coreText, s.prevString.value, Unbounded)[0].ctLine;
      var e := ExpansionFrames(coreText, single, lines, s.frames[..n], ExpansionContainer(s.prevSize.value),
                               ExpansionAlignment(s.prevString.value, forcedAlignment), progress, yProgress(progress));
      assert n == |lines| || n == |s.frames|;
      assert r.frames == e + s.frames[n..] && |e| == n;
      assert r.texts == LineTexts(lines[..n]) + s.texts[n..];
      if i < n {
        ExpansionFramesAt(coreText, single, lines, s.frames[..n], ExpansionContainer(s.prevSize.value),
                          ExpansionAlignment(s.prevString.value, forcedAlignment), progress, yProgress(progress), i);
        assert s.frames[..n][..i] == s.frames[..i];
        assert r.frames[i] == e[i];
        assert r.texts[i] == LineTexts(lines[..n])[i];
      } else {
        assert r.frames[i] == s.frames[n..][i - n];
        assert r.texts[i] == s.texts[n..][i - n];
      }
    }

    /**
      * `updateExpansion` twice at the same progress is `updateExpansion`
      * once, as long as no line node has a negative size: a node keeps its
      * size, and the frames depend on the sizes only.
      */
    lemma ExpandedAgain(s: NodeState, progress: real, forcedAlignment: Option<TextAlignment>)
      requires |s.frames| == |s.texts|
      requires forall i :: 0 <= i < |s.frames| ==> s.frames[i].width >= 0.0 && s.frames[i].height >= 0.0
      ensures Expanded(Expanded(s, progress, forcedAlignment), progress, forcedAlignment)
              == Expanded(s, progress, forcedAlignment)
    {
      if ExpansionApplies(s) {
        var r := Expanded(s, progress, forcedAlignment);
        var n := ExpandedCount(s);
        var lines := s.prevLines.value;
        var single := LinesArrayOf(coreText, s.prevString.value, Unbounded)[0].ctLine;
        var container := ExpansionContainer(s.prevSize.value);
        var alignment := ExpansionAlignment(s.prevString.value, forcedAlignment);
        var e := ExpansionFrames(coreText, single, lines, s.frames[..n], container, alignment, progress, yProgress(progress));
        assert ExpansionApplies(r) && ExpandedCount(r) == n;
        assert r.frames[..n] == e && r.frames[n..] == s.frames[n..];
        assert r.texts[n..] == s.texts[n..];
        ExpansionFramesAgain(coreText, single, lines, s.frames[..n], container, alignment, progress, yProgress(progress));
      }
    }

    /**
      * At progress 1 the node of every remembered line stands at its
      * expanded frame, with the line's text, directly below the nodes
      * before it: what `update(stateFractions:)` leaves.
      */
    lemma ExpandedSettles(s: NodeState, forcedAlignment: Option<TextAlignment>, i: int)
      requires EasesOut(yProgress)
      requires ExpansionApplies(s) && ExpansionInBounds(s) && |s.frames| == |s.texts| && 0 <= i < |s.prevLines.value|
      requires s.frames[i].width >= 0.0 && s.frames[i].height >= 0.0
      ensures var r := Expanded(s, 1.0, forcedAlignment);
              && r.texts[i] == s.prevLines.value[i].text
              && r.frames[i] == ExpandedFrame(s.frames[i].Dimensions(), StackedHeight(s.frames[..i]),
                                              ExpansionContainer(s.prevSize.value),
                                              ExpansionAlignment(s.prevString.value, forcedAlignment),
                                              s.prevLines.value[i].isRTL)
    {
      ExpandedLineNode(s, 1.0, forcedAlignment, i);
    }

    /**
      * The trap of `updateExpansion` is reachable: a collapsing `update`
      * that resets makes no line node it keeps, yet remembers the title's
      * single line.
      */
    lemma CollapsedResetLeavesNoLineNodes(s: NodeState, title: Text, constrainedSize: Size)
      requires !Blank(title) && Resets(s, title, constrainedSize)
      requires |LinesArrayOf(coreText, title, Unbounded)| > 0
      ensures var r := Updated(s, title, constrainedSize, false);
              r.frames == [] && ExpansionApplies(r) && !ExpansionInBounds(r)
    {
    }

    /**
      * `updateExpansion(progress:transition:forcedAlignment:shouldReweight:)`,
      * proved against `Expanded`. The source indexes the line nodes by
      * remembered line, so this requires a node for each.
      */
    method UpdateExpansion(progress: real, forcedAlignment: Option<TextAlignment>)
      requires Valid() && ExpansionInBounds(State())
      modifies this`textSubnodes
      ensures State() == Expanded(old(State()), progress, forcedAlignment)
    {
      if !(prevString.Some? && prevLines.Some?) {
        return;
      }
      var singleLines := GetLinesArrayOfString(coreText, prevString.value, Unbounded);
      if |singleLines| == 0 {
        return;
      }
      var singleLineInfo := singleLines[0];
      var lines := prevLines.value;
      var totalSize := prevSize.value;
      totalSize := totalSize.(width := totalSize.width + ExpansionWidthInset);
      var containerBounds := BoundsOf(totalSize);
      var alignment := ExpansionAlignment(prevString.value, forcedAlignment);
      ExpandLines(singleLineInfo.ctLine, lines, containerBounds, alignment, progress);
    }

    /**
      * The loop of `updateExpansion`: the node of each remembered line gets
      * the line's text and its progress frame, each expanded line below the
      * previous by its node's height.
      */
    method ExpandLines(single: CtLine, lines: seq<LayoutLine>, container: Rect, alignment: Option<TextAlignment>,
                       progress: real)
      requires |lines| <= |textSubnodes|
      modifies this`textSubnodes
      ensures |textSubnodes| == |old(textSubnodes)|
      ensures Frames(textSubnodes) == ExpansionStage(single, lines, old(Frames(textSubnodes)), container, alignment, progress, |lines|)
      ensures Texts(textSubnodes) == TextStage(lines, old(Texts(textSubnodes)), |lines|)
    {
      ghost var before := Frames(textSubnodes);
      ghost var beforeTexts := Texts(textSubnodes);
      var offsetY := 0.0;
      var index := 0;
      while index < |lines|
        invariant 0 <= index <= |lines| && |textSubnodes| == |before|
        invariant offsetY == StackedHeight(before[..index])
        invariant Frames(textSubnodes) == ExpansionStage(single, lines, before, container, alignment, progress, index)
        invariant Texts(textSubnodes) == TextStage(lines, beforeTexts, index)
      {
        var height := ExpandLineNode(single, lines, before, beforeTexts, container, alignment, progress, index, offsetY);
        offsetY := offsetY + height;
        index := index + 1;
      }
    }

    /**
      * One turn of the expansion loop: the node at `index` gets the text of
      * line `index` and its progress frame; `height` is the node's height,
      * by which the expanded lines move down.
      */
    method ExpandLineNode(single: CtLine, lines: seq<LayoutLine>, ghost before: seq<Rect>, ghost beforeTexts: seq<Text>, container: Rect,
                          alignment: Option<TextAlignment>, progress: real, index: int, offsetY: real)
      returns (height: real)
      requires 0 <= index < |textSubnodes| && index < |lines|
      requires |before| == |textSubnodes| && |beforeTexts| == |textSubnodes|
      requires Frames(textSubnodes) == ExpansionStage(single, lines, before, container, alignment, progress, index)
      requires Texts(textSubnodes) == TextStage(lines, beforeTexts, index)
      requires offsetY == StackedHeight(before[..index])
      modifies this`textSubnodes
      ensures Frames(textSubnodes) == ExpansionStage(single, lines, before, container, alignment, progress, index + 1)
      ensures Texts(textSubnodes) == TextStage(lines, beforeTexts, index + 1)
      ensures offsetY + height == StackedHeight(before[..index + 1])
    {
      ExpansionStageStep(single, lines, before, container, alignment, progress, index);
      TextStageStep(lines, beforeTexts, index);
      var lineInfo := lines[index];
      assert Frames(textSubnodes)[index] == textSubnodes[index].frame;
      var actualSize := textSubnodes[index].frame;
      var expandedFrame := ExpandedFrame(actualSize.Dimensions(), offsetY, container, alignment, lineInfo.isRTL);
      var currentProgressFrame := ExpansionProgressFrame(coreText, single, lineInfo, actualSize, offsetY,
                                                         container, alignment, progress, yProgress(progress));
      SetLine(index, lineInfo.text, currentProgressFrame);
      height := expandedFrame.AbsHeight();
    }

    /** The node frames after the expansion loop has placed `index` lines. */
    ghost function ExpansionStage(single: CtLine, lines: seq<LayoutLine>, before: seq<Rect>, container: Rect,
                                  alignment: Option<TextAlignment>, progress: real, index: int): (r: seq<Rect>)
      requires 0 <= index <= |before| && index <= |lines|
      ensures |r| == |before|
    {
      ExpansionFrames(coreText, single, lines, before[..index], container, alignment, progress, yProgress(progress)) + before[index..]
    }

    /** One more line placed: the node at `index` gets its progress frame. */
    lemma ExpansionStageStep(single: CtLine, lines: seq<LayoutLine>, before: seq<Rect>, container: Rect,
                             alignment: Option<TextAlignment>, progress: real, index: int)
      requires 0 <= index < |before| && index < |lines|
      ensures ExpansionStage(single, lines, before, container, alignment, progress, index)[index] == before[index]
      ensures ExpansionStage(single, lines, before, container, alignment, progress, index)
                [index := ExpansionProgressFrame(coreText, single, lines[index], before[index], StackedHeight(before[..index]),
                                                 container, alignment, progress, yProgress(progress))]
              == ExpansionStage(single, lines, before, container, alignment, progress, index + 1)
      ensures StackedHeight(before[..index + 1]) == StackedHeight(before[..index]) + before[index].AbsHeight()
    {
      assert before[..index + 1][..index] == before[..index];
      var e := ExpansionFrames(coreText, single, lines, before[..index], container, alignment, progress, yProgress(progress));
      PrefixStep(e, before, ExpansionProgressFrame(coreText, single, lines[index], before[index], StackedHeight(before[..index]),
                                                   container, alignment, progress, yProgress(progress)));
    }

    /** `attributedText` and `frame` of `textSubnodes[j]`: the one node changes, no other. */
    method SetLine(j: int, text: Text, frame: Rect)
      requires 0 <= j < |textSubnodes|
      modifies this`textSubnodes
      ensures Frames(textSubnodes) == old(Frames(textSubnodes))[j := frame]
      ensures Texts(textSubnodes) == old(Texts(textSubnodes))[j := text]
    {
      textSubnodes := textSubnodes[j := ImmediateTextNode(text, frame)];
    }

  }

  /** Replacing the first element of the rest extends the prefix by it. */
  lemma PrefixStep<T>(prefix: seq<T>, rest: seq<T>, x: T)
    requires |prefix| < |rest|
    ensures (prefix + rest[|prefix|..])[|prefix|] == rest[|prefix|]
    ensures (prefix + rest[|prefix|..])[|prefix| := x] == (prefix + [x]) + rest[|prefix| + 1..]
  {
  }

  /** The node texts after the expansion loop has placed `index` lines. */
  function TextStage(lines: seq<LayoutLine>, before: seq<Text>, index: int): (r: seq<Text>)
    requires 0 <= index <= |before| && index <= |lines|
    ensures |r| == |before|
  {
    LineTexts(lines[..index]) + before[index..]
  }

  lemma TextStageStep(lines: seq<LayoutLine>, before: seq<Text>, index: int)
    requires 0 <= index < |before| && index < |lines|
    ensures TextStage(lines, before, index)[index := lines[index].text] == TextStage(lines, before, index + 1)
  {
    assert lines[..index + 1][..index] == lines[..index];
    PrefixStep(LineTexts(lines[..index]), before, lines[index].text);
  }

  // ---------------------------------------------------------------------
  // The container

  /** `MultiScaleTextStateExpandable`: the title of a state and the size it is laid out in. */
  datatype MultiScaleTextStateExpandable = MultiScaleTextStateExpandable(attributedText: Text, constrainedSize: Size)

  /**
    * The frame `updateLayout` gives a state's text container: the left
    * edge of the main state's size centred on the origin, and vertically
    * centred on the main state's (rounded down to whole points).
    */
  function CentredTextFrame(main: Size, node: Size): (r: Rect)
    ensures r.Dimensions() == node
    ensures r.x == -Abs(main.width) / 2.0
    ensures r.y + Abs(main.height) / 2.0 <= (Abs(main.height) - node.height) / 2.0 < r.y + Abs(main.height) / 2.0 + 1.0
  {
    var mainBounds := Rect(-main.width / 2.0, -main.height / 2.0, main.width, main.height);
    Rect(mainBounds.MinX(), mainBounds.MinY() + Floor((mainBounds.AbsHeight() - node.height) / 2.0), node.width, node.height)
  }

  /** `if alpha == 1 - target { alpha = target }`: a node showing fully the other way switches to `target`; any other alpha stays. */
  function FadedTo(alpha: real, target: real): real
  {
    if alpha == 1.0 - target then target else alpha
  }

  /**
    * The cross-fade of the container's `updateExpansion` while the avatar
    * is collapsed: below the threshold state 2 fades in and state 0 out,
    * otherwise the other way round. It needs both states.
    */
  function CrossFaded(alphas: map<int, real>, progress: real): (r: map<int, real>)
    ensures r.Keys == alphas.Keys
    ensures forall k :: k in alphas && k != 0 && k != 2 ==> r[k] == alphas[k]
  {
    if 0 in alphas && 2 in alphas then
      var target := CrossFadeTarget(progress);
      alphas[2 := FadedTo(alphas[2], target)][0 := FadedTo(alphas[0], 1.0 - target)]
    else alphas
  }

  /** The alpha state 2 fades to: shown below the threshold, hidden from it on. */
  function CrossFadeTarget(progress: real): real
  {
    if progress < SwitchToNavTitleThreshold then 1.0 else 0.0
  }

  /**
    * The alphas `update(stateFractions:)` sets, and the container's
    * `updateExpansion` while the avatar is expanded: state 0 shows exactly
    * when the avatar is collapsed, state 2 shows the other way, and a
    * missing state 0 counts as hidden.
    */
  function AvatarAlphas(alphas: map<int, real>, avatarExpanded: bool): (r: map<int, real>)
    ensures r.Keys == alphas.Keys
    ensures forall k :: k in alphas && k != 0 && k != 2 ==> r[k] == alphas[k]
    ensures 0 in r ==> r[0] == (if avatarExpanded then 0.0 else 1.0)
    ensures 2 in r ==> r[2] == (if 0 in r && !avatarExpanded then 0.0 else 1.0)
  {
    var shown := if 0 in alphas then alphas[0 := if avatarExpanded then 0.0 else 1.0] else alphas;
    if 2 in shown then shown[2 := 1.0 - (if 0 in shown then shown[0] else 0.0)] else shown
  }

  /** The alphas after the container's `updateExpansion`, which picks between the two rules by the avatar's last state. */
  function ExpansionAlphas(alphas: map<int, real>, progress: real, avatarExpanded: bool): (r: map<int, real>)
    ensures r.Keys == alphas.Keys
  {
    if avatarExpanded then AvatarAlphas(alphas, true) else CrossFaded(alphas, progress)
  }

  /** Setting the avatar alphas once more changes nothing, so the loop may set them once per state node. */
  lemma AvatarAlphasAgain(alphas: map<int, real>, avatarExpanded: bool)
    ensures AvatarAlphas(AvatarAlphas(alphas, avatarExpanded), avatarExpanded) == AvatarAlphas(alphas, avatarExpanded)
  {
    var r := AvatarAlphas(alphas, avatarExpanded);
    var rr := AvatarAlphas(r, avatarExpanded);
    assert forall k :: k in rr ==> rr[k] == r[k];
  }

  /**
    * Where both states are fully shown or fully hidden, the cross-fade
    * settles on exactly one of them: state 2 below the threshold, state 0
    * otherwise; any other state keeps its alpha.
    */
  lemma CrossFadeSettles(alphas: map<int, real>, progress: real)
    requires 0 in alphas && 2 in alphas
    requires alphas[0] == 0.0 || alphas[0] == 1.0
    requires alphas[2] == 0.0 || alphas[2] == 1.0
    ensures var r := CrossFaded(alphas, progress);
            && r.Keys == alphas.Keys
            && r[0] == (if progress < SwitchToNavTitleThreshold then 0.0 else 1.0)
            && r[2] == 1.0 - r[0]
            && (forall k :: k in alphas && k != 0 && k != 2 ==> r[k] == alphas[k])
  {
  }

  /** Fading twice towards the same state changes nothing more. */
  lemma CrossFadeAgain(alphas: map<int, real>, progress: real)
    ensures CrossFaded(CrossFaded(alphas, progress), progress) == CrossFaded(alphas, progress)
  {
  }

  /** `order` lists each key of `position` once, at the index `position` gives it. */
  ghost predicate Numbering(order: seq<int>, position: map<int, int>)
  {
    && (forall j :: 0 <= j < |order| ==> order[j] in position && position[order[j]] == j)
    && (forall k :: k in position ==> 0 <= position[k] < |order| && order[position[k]] == k)
  }

  /** Whether `k` is among the first `i` keys of the order that `position` numbers. */
  predicate Visited(position: map<int, int>, i: int, k: int)
  {
    k in position && position[k] < i
  }

  /** One more turn of a loop over a numbered order visits exactly one more key, the next one. */
  lemma VisitNext(order: seq<int>, position: map<int, int>, i: int, key: int)
    requires Numbering(order, position) && 0 <= i < |order| && key == order[i]
    ensures forall k :: Visited(position, i + 1, k) <==> Visited(position, i, k) || k == key
    ensures key in position && !Visited(position, i, key)
  {
    assert key in position && position[key] == i;
    forall k
      ensures Visited(position, i + 1, k) <==> Visited(position, i, k) || k == key
    {
      if k in position && position[k] == i {
        assert order[position[k]] == k;
      }
    }
  }

  /**
    * The keys of a dictionary in its iteration order, which is left open:
    * each key exactly once, numbered by `position`.
    */
  method KeyOrder(keys: set<int>) returns (order: seq<int>, ghost position: map<int, int>)
    ensures Numbering(order, position)
    ensures forall k :: k in position <==> k in keys
  {
    order := [];
    position := map[];
    var todo := keys;
    while todo != {}
      invariant todo <= keys
      invariant Numbering(order, position)
      invariant forall k :: k in position <==> k in keys && k !in todo
      decreases todo
    {
      SomeKey(todo);
      var key :| key in todo;
      position := position[key := |order|];
      order := order + [key];
      todo := todo - {key};
    }
  }

  /** The alphas part way through `updateExpansion`'s loop, once the first `i` nodes of the order have been visited. */
  function AlphasSoFar(alphas: map<int, real>, progress: real, avatarExpanded: bool, position: map<int, int>, i: int)
    : (r: map<int, real>)
    ensures r.Keys == alphas.Keys
  {
    if avatarExpanded then (if i <= 0 then alphas else AvatarAlphas(alphas, true))
    else if Visited(position, i, 0) then CrossFaded(alphas, progress) else alphas
  }

  /**
    * Visiting one more node applies that node's alpha rule to the alphas so
    * far: the avatar rule at every node, the cross-fade at state 0 alone.
    */
  lemma AlphasSoFarStep(alphas: map<int, real>, progress: real, avatarExpanded: bool, order: seq<int>,
                        position: map<int, int>, i: int, key: int)
    requires Numbering(order, position) && 0 <= i < |order| && key == order[i]
    ensures var current := AlphasSoFar(alphas, progress, avatarExpanded, position, i);
            AlphasSoFar(alphas, progress, avatarExpanded, position, i + 1)
            == if avatarExpanded then AvatarAlphas(current, true)
               else if key == 0 then CrossFaded(current, progress) else current
  {
    VisitNext(order, position, i, key);
    if avatarExpanded && i > 0 {
      AvatarAlphasAgain(alphas, true);
    }
  }

  /** Once every node has been visited, the alphas are those of `ExpansionAlphas`. */
  lemma AlphasSoFarDone(alphas: map<int, real>, progress: real, avatarExpanded: bool, order: seq<int>,
                        position: map<int, int>)
    requires Numbering(order, position)
    requires forall k :: k in position <==> k in alphas
    ensures AlphasSoFar(alphas, progress, avatarExpanded, position, |order|) == ExpansionAlphas(alphas, progress, avatarExpanded)
  {
    if avatarExpanded && |order| == 0 {
      assert forall k :: k !in position;
      assert forall k :: k !in alphas;
      assert alphas == map[];
    }
  }

  /** The alignment the container forces on its state nodes while expanding: left when the avatar is expanded, else centred. */
  function ForcedAlignment(avatarExpanded: bool): TextAlignment
  {
    if avatarExpanded then Left else Center
  }

  /** `MultiScaleTextNodeExpandable`: one state node per title state. */
  class MultiScaleTextNodeExpandable {
    const stateNodes: map<int, MultiScaleTextStateNodeExpandable>
    var lastAvatarStateIsExpanded: bool
    var isTransitioning: bool

    /** The state nodes, as a set (the dictionary's values). */
    ghost const nodes: set<MultiScaleTextStateNodeExpandable>

    /** Every state node is a different node. */
    predicate Injective()
    {
      forall a, b :: a in stateNodes && b in stateNodes && a != b ==> stateNodes[a] != stateNodes[b]
    }

    /** The state nodes are different nodes, and each is valid. */
    ghost predicate Valid()
      reads nodes`prevString, nodes`prevSize, nodes`prevLines
    {
      && Injective()
      && (forall k :: k in stateNodes ==> stateNodes[k] in nodes)
      && (forall k :: k in stateNodes ==> stateNodes[k].Valid())
    }

    /** The alpha of every state node, by key. */
    ghost function Alphas(): map<int, real>
      requires forall k :: k in stateNodes ==> stateNodes[k] in nodes
      reads nodes`alpha
    {
      map k | k in stateNodes :: stateNodes[k].alpha
    }

    /** Each node in `targets` is to reach the state it expands to from `states` at `progress`. */
    ghost predicate ExpandsTo(targets: map<int, NodeState>, states: map<int, NodeState>, progress: real,
                              forcedAlignment: Option<TextAlignment>)
    {
      forall k {:trigger stateNodes[k].Expanded(states[k], progress, forcedAlignment)} :: k in targets ==>
        k in stateNodes && k in states && targets[k] == stateNodes[k].Expanded(states[k], progress, forcedAlignment)
    }

    /** Each node in `targets` is to reach the state its `update` leads to from `before` with its title state. */
    ghost predicate UpdatesTo(targets: map<int, NodeState>, before: map<int, NodeState>,
                              states: map<int, MultiScaleTextStateExpandable>, isExpanded: bool)
    {
      forall k {:trigger stateNodes[k].Updated(before[k], states[k].attributedText, states[k].constrainedSize, isExpanded)} ::
        k in targets ==>
          k in stateNodes && k in before && k in states
          && targets[k] == stateNodes[k].Updated(before[k], states[k].attributedText, states[k].constrainedSize, isExpanded)
    }

    /** The states every node expands to from `states` at `progress`. */
    ghost method ExpansionTargets(states: map<int, NodeState>, progress: real, forcedAlignment: Option<TextAlignment>)
      returns (targets: map<int, NodeState>)
      requires states.Keys == stateNodes.Keys
      ensures targets.Keys == stateNodes.Keys && ExpandsTo(targets, states, progress, forcedAlignment)
    {
      targets := map k | k in stateNodes :: stateNodes[k].Expanded(states[k], progress, forcedAlignment);
    }

    /** The states the nodes that have a title state reach by `update` from `before`. */
    ghost method UpdateTargets(before: map<int, NodeState>, states: map<int, MultiScaleTextStateExpandable>, isExpanded: bool)
      returns (targets: map<int, NodeState>)
      requires before.Keys == stateNodes.Keys
      ensures (forall k :: k in targets <==> k in stateNodes && k in states) && UpdatesTo(targets, before, states, isExpanded)
    {
      targets := map k | k in stateNodes && k in states ::
                   stateNodes[k].Updated(before[k], states[k].attributedText, states[k].constrainedSize, isExpanded);
    }

    /** `init(stateKeys:)`: a new state node for every distinct key; a repeated key keeps the first. */
    constructor(stateKeys: seq<int>, coreText: CoreText, measure: (Text, Size, nat) -> Size, yProgress: real -> real)
      requires EasesOut(yProgress)
      ensures Valid() && nodes == stateNodes.Values
      ensures stateNodes.Keys == set k | k in stateKeys
      ensures forall k :: k in stateNodes ==> fresh(stateNodes[k])
      ensures forall k :: k in stateNodes ==>
                var node := stateNodes[k];
                node.prevString.None? && node.textSubnodes == [] && node.currentLayout.None? && node.alpha == 1.0
                && node.coreText == coreText && node.measure == measure && node.yProgress == yProgress
      ensures !lastAvatarStateIsExpanded && !isTransitioning
    {
      var m: map<int, MultiScaleTextStateNodeExpandable> := map[];
      var i := 0;
      while i < |stateKeys|
        invariant 0 <= i <= |stateKeys|
        invariant m.Keys == set k | k in stateKeys[..i]
        invariant forall k :: k in m ==> fresh(m[k])
        invariant forall a, b :: a in m && b in m && a != b ==> m[a] != m[b]
        invariant forall k :: k in m ==>
                    var node := m[k];
                    node.Valid() && node.prevString.None? && node.textSubnodes == [] && node.currentLayout.None?
                    && node.alpha == 1.0 && node.coreText == coreText && node.measure == measure && node.yProgress == yProgress
      {
        if stateKeys[i] !in m {
          var node := new MultiScaleTextStateNodeExpandable(coreText, measure, yProgress);
          m := m[stateKeys[i] := node];
        }
        assert stateKeys[..i + 1] == stateKeys[..i] + [stateKeys[i]];
        i := i + 1;
      }
      assert stateKeys[..i] == stateKeys;
      stateNodes := m;
      nodes := m.Values;
      lastAvatarStateIsExpanded := false;
      isTransitioning := false;
    }

    /**
      * `updateExpansion(progress:)`: every state node moves its line nodes
      * to `progress`, forced to the left while the avatar is expanded and
      * to the centre otherwise; then the alphas follow `ExpansionAlphas`.
      * With the avatar collapsed the source force-unwraps state 2 when it
      * reaches state 0, so it requires state 2 then; each state node indexes
      * its line nodes by remembered line, so it requires a node for each.
      * The dictionary's order is left open.
      */
    method UpdateExpansion(progress: real)
      requires Valid()
      requires !lastAvatarStateIsExpanded && 0 in stateNodes ==> 2 in stateNodes
      requires forall k {:trigger stateNodes[k].State()} :: k in stateNodes ==>
                 stateNodes[k].ExpansionInBounds(stateNodes[k].State())
      modifies this`isTransitioning, nodes`alpha, nodes`textSubnodes
      ensures Valid() && isTransitioning
      ensures forall k {:trigger stateNodes[k].State()} :: k in stateNodes ==>
                stateNodes[k].State()
                == stateNodes[k].Expanded(old(stateNodes[k].State()), progress, Some(ForcedAlignment(lastAvatarStateIsExpanded)))
      ensures forall k {:trigger stateNodes[k].alpha} :: k in stateNodes ==>
                stateNodes[k].alpha == ExpansionAlphas(old(Alphas()), progress, lastAvatarStateIsExpanded)[k]
    {
      ghost var alphas := Alphas();
      ghost var states := map k | k in stateNodes :: stateNodes[k].State();
      isTransitioning := true;
      var forced := ForcedAlignment(lastAvatarStateIsExpanded);
      ExpandAll(progress, forced, states, alphas);
    }

    /** The loop of `updateExpansion`, over the state nodes in the dictionary's order, which is left open. */
    method ExpandAll(progress: real, forced: TextAlignment, ghost states: map<int, NodeState>, ghost alphas: map<int, real>)
      requires Valid()
      requires !lastAvatarStateIsExpanded && 0 in stateNodes ==> 2 in stateNodes
      requires states.Keys == alphas.Keys == stateNodes.Keys
      requires forall k :: k in stateNodes ==> stateNodes[k].ExpansionInBounds(states[k])
      requires forall k {:trigger stateNodes[k].State()} :: k in stateNodes ==> stateNodes[k].State() == states[k]
      requires forall k {:trigger stateNodes[k].alpha} :: k in stateNodes ==> stateNodes[k].alpha == alphas[k]
      modifies nodes`alpha, nodes`textSubnodes
      ensures Valid()
      ensures forall k {:trigger stateNodes[k].State()} :: k in stateNodes ==> stateNodes[k].State() == stateNodes[k].Expanded(states[k], progress, Some(forced))
      ensures forall k {:trigger stateNodes[k].alpha} :: k in stateNodes ==> stateNodes[k].alpha == ExpansionAlphas(alphas, progress, lastAvatarStateIsExpanded)[k]
    {
      ghost var targets := ExpansionTargets(states, progress, Some(forced));
      var avatarExpanded := lastAvatarStateIsExpanded;
      var order;
      ghost var position;
      order, position := KeyOrder(stateNodes.Keys);
      var i := 0;
      while i < |order|
        invariant 0 <= i <= |order|
        invariant Valid()
        invariant forall k {:trigger stateNodes[k].State()} :: k in stateNodes ==>
                    stateNodes[k].State() == if k in stateNodes.Keys && Visited(position, i, k) then targets[k] else states[k]
        invariant forall k {:trigger stateNodes[k].alpha} :: k in stateNodes ==>
                    stateNodes[k].alpha == AlphasSoFar(alphas, progress, avatarExpanded, position, i)[k]
      {
        var key := order[i];
        ExpansionStep(order, position, i, key, progress, forced, avatarExpanded, states, targets, alphas);
        i := i + 1;
      }
      AlphasSoFarDone(alphas, progress, avatarExpanded, order, position);
    }

    /** One turn of `updateExpansion`'s loop: the `i`-th node expands to its target, then the alphas follow. */
    method ExpansionStep(order: seq<int>, ghost position: map<int, int>, i: int, key: int, progress: real,
                         forced: TextAlignment, avatarExpanded: bool,
                         ghost states: map<int, NodeState>, ghost targets: map<int, NodeState>, ghost alphas: map<int, real>)
      requires Valid() && Numbering(order, position) && 0 <= i < |order| && key == order[i]
      requires forall k :: k in position <==> k in stateNodes
      requires !avatarExpanded && 0 in stateNodes ==> 2 in stateNodes
      requires states.Keys == targets.Keys == alphas.Keys == stateNodes.Keys
      requires key in stateNodes && stateNodes[key].ExpansionInBounds(states[key])
      requires ExpandsTo(targets, states, progress, Some(forced))
      requires forall k {:trigger stateNodes[k].State()} :: k in stateNodes ==>
                 stateNodes[k].State() == if k in stateNodes.Keys && Visited(position, i, k) then targets[k] else states[k]
      requires forall k {:trigger stateNodes[k].alpha} :: k in stateNodes ==>
                 stateNodes[k].alpha == AlphasSoFar(alphas, progress, avatarExpanded, position, i)[k]
      modifies nodes`alpha, nodes`textSubnodes
      ensures Valid()
      ensures forall k {:trigger stateNodes[k].State()} :: k in stateNodes ==>
                stateNodes[k].State() == if k in stateNodes.Keys && Visited(position, i + 1, k) then targets[k] else states[k]
      ensures forall k {:trigger stateNodes[k].alpha} :: k in stateNodes ==>
                stateNodes[k].alpha == AlphasSoFar(alphas, progress, avatarExpanded, position, i + 1)[k]
    {
      ExpandStateNode(order, position, i, key, progress, forced, states, targets, stateNodes.Keys);
      FollowAlphas(order, position, i, key, progress, avatarExpanded, alphas);
    }

    /**
      * The `i`-th node of the order expands to its target; among the
      * `chosen` nodes, those visited so far have reached their targets and
      * the others keep their states. No alpha changes.
      */
    method ExpandStateNode(order: seq<int>, ghost position: map<int, int>, i: int, key: int, progress: real, forced: TextAlignment,
                           ghost states: map<int, NodeState>, ghost targets: map<int, NodeState>, ghost chosen: set<int>)
      requires Valid() && Numbering(order, position) && 0 <= i < |order| && key == order[i]
      requires key in chosen && chosen <= stateNodes.Keys
      requires states.Keys == targets.Keys == stateNodes.Keys && stateNodes[key].ExpansionInBounds(states[key])
      requires ExpandsTo(targets, states, progress, Some(forced))
      requires forall k {:trigger stateNodes[k].State()} :: k in stateNodes ==>
                 stateNodes[k].State() == if k in chosen && Visited(position, i, k) then targets[k] else states[k]
      modifies {stateNodes[key]}`textSubnodes
      ensures Valid()
      ensures forall k {:trigger stateNodes[k].State()} :: k in stateNodes ==>
                stateNodes[k].State() == if k in chosen && Visited(position, i + 1, k) then targets[k] else states[k]
      ensures forall k {:trigger stateNodes[k].alpha} :: k in stateNodes ==> stateNodes[k].alpha == old(stateNodes[k].alpha)
    {
      VisitNext(order, position, i, key);
      stateNodes[key].UpdateExpansion(progress, Some(forced));
    }

    /** The alpha half of a turn of `updateExpansion`'s loop: the alpha rule of the `i`-th node. */
    method FollowAlphas(order: seq<int>, ghost position: map<int, int>, i: int, key: int, progress: real, avatarExpanded: bool,
                         ghost alphas: map<int, real>)
      requires Valid() && Numbering(order, position) && 0 <= i < |order| && key == order[i] && key in stateNodes
      requires !avatarExpanded && 0 in stateNodes ==> 2 in stateNodes
      requires alphas.Keys == stateNodes.Keys
      requires forall k {:trigger stateNodes[k].alpha} :: k in stateNodes ==>
                 stateNodes[k].alpha == AlphasSoFar(alphas, progress, avatarExpanded, position, i)[k]
      modifies nodes`alpha
      ensures Valid()
      ensures forall k {:trigger stateNodes[k].State()} :: k in stateNodes ==> stateNodes[k].State() == old(stateNodes[k].State())
      ensures forall k {:trigger stateNodes[k].alpha} :: k in stateNodes ==>
                stateNodes[k].alpha == AlphasSoFar(alphas, progress, avatarExpanded, position, i + 1)[k]
    {
      AlphasSoFarStep(alphas, progress, avatarExpanded, order, position, i, key);
      ghost var current := AlphasSoFar(alphas, progress, avatarExpanded, position, i);
      if !avatarExpanded {
        if key == 0 {
          CrossFade(progress, current);
        }
      } else {
        ShowAvatarState(avatarExpanded, current);
      }
    }

    /** The cross-fade between states 0 and 2 while the avatar is collapsed. */
    method CrossFade(progress: real, ghost alphas: map<int, real>)
      requires Valid() && 0 in stateNodes && 2 in stateNodes
      requires alphas.Keys == stateNodes.Keys && forall k {:trigger stateNodes[k].alpha} :: k in stateNodes ==> stateNodes[k].alpha == alphas[k]
      modifies nodes`alpha
      ensures Valid()
      ensures forall k {:trigger stateNodes[k].State()} :: k in stateNodes ==> stateNodes[k].State() == old(stateNodes[k].State())
      ensures forall k {:trigger stateNodes[k].alpha} :: k in stateNodes ==> stateNodes[k].alpha == CrossFaded(alphas, progress)[k]
    {
      var target := CrossFadeTarget(progress);
      FadeTo(2, target);
      FadeTo(0, 1.0 - target);
    }

    /** A node fully showing the opposite of `target` switches to `target`; any other alpha stays. */
    method FadeTo(key: int, target: real)
      requires Valid() && key in stateNodes
      modifies {stateNodes[key]}`alpha
      ensures Valid()
      ensures forall k {:trigger stateNodes[k].State()} :: k in stateNodes ==> stateNodes[k].State() == old(stateNodes[k].State())
      ensures forall k {:trigger stateNodes[k].alpha} :: k in stateNodes ==>
                stateNodes[k].alpha == if k == key then FadedTo(old(stateNodes[k].alpha), target) else old(stateNodes[k].alpha)
    {
      if stateNodes[key].alpha == 1.0 - target {
        SetAlpha(key, target);
      }
    }

    /** State 0 shows unless the avatar is expanded; state 2 shows when state 0 does not. */
    method ShowAvatarState(avatarExpanded: bool, ghost alphas: map<int, real>)
      requires Valid()
      requires alphas.Keys == stateNodes.Keys && forall k {:trigger stateNodes[k].alpha} :: k in stateNodes ==> stateNodes[k].alpha == alphas[k]
      modifies nodes`alpha
      ensures Valid()
      ensures forall k {:trigger stateNodes[k].State()} :: k in stateNodes ==> stateNodes[k].State() == old(stateNodes[k].State())
      ensures forall k {:trigger stateNodes[k].alpha} :: k in stateNodes ==> stateNodes[k].alpha == AvatarAlphas(alphas, avatarExpanded)[k]
    {
      if 0 in stateNodes {
        SetAlpha(0, if avatarExpanded then 0.0 else 1.0);
      }
      if 2 in stateNodes {
        SetAlpha(2, 1.0 - (if 0 in stateNodes then stateNodes[0].alpha else 0.0));
      }
    }

    /** Sets one state node's alpha; nothing else changes. */
    method SetAlpha(key: int, alpha: real)
      requires Valid() && key in stateNodes
      modifies {stateNodes[key]}`alpha
      ensures Valid()
      ensures forall k {:trigger stateNodes[k].State()} :: k in stateNodes ==> stateNodes[k].State() == old(stateNodes[k].State())
      ensures forall k {:trigger stateNodes[k].alpha} :: k in stateNodes ==> stateNodes[k].alpha == if k == key then alpha else old(stateNodes[k].alpha)
    {
      stateNodes[key].alpha := alpha;
    }

    /**
      * `updateLayout(states:mainState:transition:isExpanded:)`: every state
      * that has a node is laid out (its size is the result for its key and
      * the node's current layout); then, when the main state was laid out,
      * each laid-out node's text container is placed by `CentredTextFrame`
      * against the main state's size. States without a node, and nodes
      * without a state, are left alone.
      */
    method UpdateLayout(states: map<int, MultiScaleTextStateExpandable>, mainState: int, isExpanded: bool)
      returns (result: map<int, Size>)
      requires Valid()
      requires forall k {:trigger stateNodes[k].State()} :: k in states && k in stateNodes ==>
                 stateNodes[k].UpdateInBounds(stateNodes[k].State(), states[k].attributedText, states[k].constrainedSize,
                                              isExpanded)
      modifies nodes`textSubnodes, nodes`prevString, nodes`prevSize, nodes`prevLines, nodes`lastProgress,
               nodes`singleLineFadeMask, nodes`wasExpanded, nodes`currentLayout, nodes`textContainerFrame
      ensures Valid()
      ensures forall k :: k in result <==> k in states && k in stateNodes
      ensures forall k :: k in result ==>
                result[k] == stateNodes[k].UpdatedSize(states[k].attributedText, states[k].constrainedSize)
      ensures forall k {:trigger stateNodes[k].State()} :: k in stateNodes ==>
                stateNodes[k].State()
                == if k in states then
                     stateNodes[k].Updated(old(stateNodes[k].State()), states[k].attributedText, states[k].constrainedSize, isExpanded)
                   else old(stateNodes[k].State())
      ensures forall k {:trigger stateNodes[k].currentLayout} :: k in stateNodes ==>
                stateNodes[k].currentLayout == if k in result then Some(result[k]) else old(stateNodes[k].currentLayout)
      ensures forall k {:trigger stateNodes[k].textContainerFrame} :: k in stateNodes ==>
                stateNodes[k].textContainerFrame
                == if mainState in result && k in result then CentredTextFrame(result[mainState], result[k])
                   else old(stateNodes[k].textContainerFrame)
    {
      ghost var frames := map k | k in stateNodes :: stateNodes[k].textContainerFrame;
      var order;
      ghost var position;
      order, position, result := LayOutAll(states, isExpanded);
      if mainState in result {
        PlaceTextContainers(order, position, result[mainState], result, frames);
      }
    }

    /**
      * The first loop of `updateLayout`, in the dictionary's order, which
      * is left open and is returned for the second loop.
      */
    method LayOutAll(states: map<int, MultiScaleTextStateExpandable>, isExpanded: bool)
      returns (order: seq<int>, ghost position: map<int, int>, result: map<int, Size>)
      requires Valid()
      requires forall k {:trigger stateNodes[k].State()} :: k in states && k in stateNodes ==>
                 stateNodes[k].UpdateInBounds(stateNodes[k].State(), states[k].attributedText, states[k].constrainedSize,
                                              isExpanded)
      modifies nodes`textSubnodes, nodes`prevString, nodes`prevSize, nodes`prevLines, nodes`lastProgress,
               nodes`singleLineFadeMask, nodes`wasExpanded, nodes`currentLayout
      ensures Valid()
      ensures Numbering(order, position) && forall k :: k in position <==> k in states
      ensures forall k :: k in result <==> k in states && k in stateNodes
      ensures forall k :: k in result ==>
                result[k] == stateNodes[k].UpdatedSize(states[k].attributedText, states[k].constrainedSize)
      ensures forall k {:trigger stateNodes[k].State()} :: k in stateNodes ==>
                stateNodes[k].State()
                == if k in states then
                     stateNodes[k].Updated(old(stateNodes[k].State()), states[k].attributedText, states[k].constrainedSize, isExpanded)
                   else old(stateNodes[k].State())
      ensures forall k {:trigger stateNodes[k].currentLayout} :: k in stateNodes ==>
                stateNodes[k].currentLayout == if k in result then Some(result[k]) else old(stateNodes[k].currentLayout)
    {
      ghost var before := map k | k in stateNodes :: stateNodes[k].State();
      ghost var layouts := map k | k in stateNodes :: stateNodes[k].currentLayout;
      ghost var frames := map k | k in stateNodes :: stateNodes[k].textContainerFrame;
      ghost var targets := UpdateTargets(before, states, isExpanded);
      order, position := KeyOrder(states.Keys);
      result := LayOutStates(states, order, position, isExpanded, before, targets, layouts, frames);
    }

    /** The first loop of `updateLayout`: the states in `order` that have a node are laid out, each node reaching its target. */
    method LayOutStates(states: map<int, MultiScaleTextStateExpandable>, order: seq<int>, ghost position: map<int, int>,
                        isExpanded: bool, ghost before: map<int, NodeState>, ghost targets: map<int, NodeState>,
                        ghost layouts: map<int, Option<Size>>, ghost frames: map<int, Rect>)
      returns (result: map<int, Size>)
      requires Valid() && Numbering(order, position) && forall k :: k in position <==> k in states
      requires before.Keys == layouts.Keys == frames.Keys == stateNodes.Keys
      requires forall k :: k in targets <==> k in stateNodes && k in states
      requires UpdatesTo(targets, before, states, isExpanded)
      requires forall k :: k in targets ==>
                 stateNodes[k].UpdateInBounds(before[k], states[k].attributedText, states[k].constrainedSize, isExpanded)
      requires forall k {:trigger stateNodes[k].State()} :: k in stateNodes ==> stateNodes[k].State() == before[k]
      requires forall k {:trigger stateNodes[k].currentLayout} :: k in stateNodes ==> stateNodes[k].currentLayout == layouts[k]
      requires forall k {:trigger stateNodes[k].textContainerFrame} :: k in stateNodes ==> stateNodes[k].textContainerFrame == frames[k]
      modifies nodes`textSubnodes, nodes`prevString, nodes`prevSize, nodes`prevLines, nodes`lastProgress,
               nodes`singleLineFadeMask, nodes`wasExpanded, nodes`currentLayout
      ensures Valid()
      ensures forall k :: k in result <==> k in targets
      ensures forall k :: k in result ==>
                result[k] == stateNodes[k].UpdatedSize(states[k].attributedText, states[k].constrainedSize)
      ensures forall k {:trigger stateNodes[k].State()} :: k in stateNodes ==> stateNodes[k].State() == if k in result then targets[k] else before[k]
      ensures forall k {:trigger stateNodes[k].currentLayout} :: k in stateNodes ==> stateNodes[k].currentLayout == if k in result then Some(result[k]) else layouts[k]
      ensures forall k {:trigger stateNodes[k].textContainerFrame} :: k in stateNodes ==> stateNodes[k].textContainerFrame == frames[k]
    {
      result := map[];
      var i := 0;
      while i < |order|
        invariant 0 <= i <= |order|
        invariant Valid()
        invariant forall k :: k in result <==> k in targets && Visited(position, i, k)
        invariant forall k :: k in result ==>
                    result[k] == stateNodes[k].UpdatedSize(states[k].attributedText, states[k].constrainedSize)
        invariant forall k {:trigger stateNodes[k].State()} :: k in stateNodes ==> stateNodes[k].State() == if k in result then targets[k] else before[k]
        invariant forall k {:trigger stateNodes[k].currentLayout} :: k in stateNodes ==> stateNodes[k].currentLayout == if k in result then Some(result[k]) else layouts[k]
        invariant forall k {:trigger stateNodes[k].textContainerFrame} :: k in stateNodes ==> stateNodes[k].textContainerFrame == frames[k]
      {
        var key := order[i];
        if key in stateNodes {
          result := LayOutState(order, position, i, key, states, isExpanded, before, targets, layouts, result);
        } else {
          VisitNext(order, position, i, key);
        }
        i := i + 1;
      }
    }

    /** One turn of `updateLayout`'s first loop: the `i`-th node is laid out to its target and remembers its layout. */
    method LayOutState(order: seq<int>, ghost position: map<int, int>, i: int, key: int,
                       states: map<int, MultiScaleTextStateExpandable>,
                       isExpanded: bool, ghost before: map<int, NodeState>, ghost targets: map<int, NodeState>,
                       ghost layouts: map<int, Option<Size>>, result: map<int, Size>)
      returns (laidOut: map<int, Size>)
      requires Valid() && Numbering(order, position) && 0 <= i < |order| && key == order[i] && key in targets
      requires before.Keys == layouts.Keys == stateNodes.Keys
      requires forall k :: k in targets ==> k in stateNodes && k in states
      requires UpdatesTo(targets, before, states, isExpanded)
      requires stateNodes[key].UpdateInBounds(before[key], states[key].attributedText, states[key].constrainedSize, isExpanded)
      requires forall k :: k in result <==> k in targets && Visited(position, i, k)
      requires forall k :: k in result ==>
                 result[k] == stateNodes[k].UpdatedSize(states[k].attributedText, states[k].constrainedSize)
      requires forall k {:trigger stateNodes[k].State()} :: k in stateNodes ==> stateNodes[k].State() == if k in result then targets[k] else before[k]
      requires forall k {:trigger stateNodes[k].currentLayout} :: k in stateNodes ==> stateNodes[k].currentLayout == if k in result then Some(result[k]) else layouts[k]
      modifies {stateNodes[key]}`textSubnodes, {stateNodes[key]}`prevString, {stateNodes[key]}`prevSize,
               {stateNodes[key]}`prevLines, {stateNodes[key]}`lastProgress, {stateNodes[key]}`singleLineFadeMask,
               {stateNodes[key]}`wasExpanded, {stateNodes[key]}`currentLayout
      ensures Valid()
      ensures forall k :: k in laidOut <==> k in targets && Visited(position, i + 1, k)
      ensures forall k :: k in laidOut ==>
                laidOut[k] == stateNodes[k].UpdatedSize(states[k].attributedText, states[k].constrainedSize)
      ensures forall k {:trigger stateNodes[k].State()} :: k in stateNodes ==> stateNodes[k].State() == if k in laidOut then targets[k] else before[k]
      ensures forall k {:trigger stateNodes[k].currentLayout} :: k in stateNodes ==> stateNodes[k].currentLayout == if k in laidOut then Some(laidOut[k]) else layouts[k]
    {
      VisitNext(order, position, i, key);
      var size := UpdateStateNode(key, states, isExpanded, before, targets, result.Keys);
      laidOut := result[key := size];
      forall k | k in laidOut
        ensures laidOut[k] == stateNodes[k].UpdatedSize(states[k].attributedText, states[k].constrainedSize)
      {
        if k != key {
          assert k in result && laidOut[k] == result[k];
        }
      }
    }

    /** The node at `key` is updated with its title state and reaches its target; no other node changes. */
    method UpdateStateNode(key: int, states: map<int, MultiScaleTextStateExpandable>, isExpanded: bool,
                           ghost before: map<int, NodeState>, ghost targets: map<int, NodeState>, ghost done: set<int>)
      returns (size: Size)
      requires Valid() && key in targets && key !in done && before.Keys == stateNodes.Keys
      requires forall k :: k in done ==> k in targets
      requires forall k :: k in targets ==> k in stateNodes && k in states
      requires UpdatesTo(targets, before, states, isExpanded)
      requires stateNodes[key].UpdateInBounds(before[key], states[key].attributedText, states[key].constrainedSize, isExpanded)
      requires forall k {:trigger stateNodes[k].State()} :: k in stateNodes ==>
                 stateNodes[k].State() == if k in done then targets[k] else before[k]
      modifies {stateNodes[key]}`textSubnodes, {stateNodes[key]}`prevString, {stateNodes[key]}`prevSize,
               {stateNodes[key]}`prevLines, {stateNodes[key]}`lastProgress, {stateNodes[key]}`singleLineFadeMask,
               {stateNodes[key]}`wasExpanded, {stateNodes[key]}`currentLayout
      ensures Valid()
      ensures size == stateNodes[key].UpdatedSize(states[key].attributedText, states[key].constrainedSize)
      ensures forall k {:trigger stateNodes[k].State()} :: k in stateNodes ==>
                stateNodes[k].State() == if k in done || k == key then targets[k] else before[k]
      ensures forall k {:trigger stateNodes[k].currentLayout} :: k in stateNodes ==>
                stateNodes[k].currentLayout == if k == key then Some(size) else old(stateNodes[k].currentLayout)
    {
      size := stateNodes[key].UpdateKeepingLayout(states[key].attributedText, states[key].constrainedSize, isExpanded);
    }

    /** The second loop of `updateLayout`: each laid-out node's text container is centred against `mainSize`. */
    method PlaceTextContainers(order: seq<int>, ghost position: map<int, int>, mainSize: Size, result: map<int, Size>,
                               ghost frames: map<int, Rect>)
      requires Valid() && Numbering(order, position) && frames.Keys == stateNodes.Keys
      requires forall k :: k in result ==> k in stateNodes && k in position
      requires forall k {:trigger stateNodes[k].textContainerFrame} :: k in stateNodes ==> stateNodes[k].textContainerFrame == frames[k]
      modifies nodes`textContainerFrame
      ensures Valid()
      ensures forall k {:trigger stateNodes[k].textContainerFrame} :: k in stateNodes ==>
                stateNodes[k].textContainerFrame == if k in result then CentredTextFrame(mainSize, result[k]) else frames[k]
    {
      var i := 0;
      while i < |order|
        invariant 0 <= i <= |order|
        invariant Valid()
        invariant forall k {:trigger stateNodes[k].textContainerFrame} :: k in stateNodes ==>
                    stateNodes[k].textContainerFrame
                    == if k in result && Visited(position, i, k) then CentredTextFrame(mainSize, result[k]) else frames[k]
      {
        var key := order[i];
        VisitNext(order, position, i, key);
        if key in stateNodes && key in result {
          stateNodes[key].UpdateTextFrame(CentredTextFrame(mainSize, result[key]));
        }
        i := i + 1;
      }
    }

    /**
      * `update(stateFractions:alpha:alignment:transition:)`: the avatar
      * counts as expanded exactly when the alignment is left; unless an
      * expansion is under way, every state in `stateFractions` whose node
      * has a layout moves its line nodes to the end of the expansion in
      * that alignment, and the alphas show state 0 or state 2 as
      * `AvatarAlphas` says. The source force-unwraps state 0 when it sets
      * state 2's alpha, so it requires state 0 then; each node it expands
      * indexes its line nodes by remembered line, so it requires a node for
      * each.
      */
    method UpdateFractions(stateFractions: map<int, real>, alignment: TextAlignment)
      requires Valid()
      requires !isTransitioning && 2 in stateNodes ==> 0 in stateNodes
      requires forall k {:trigger stateNodes[k].State()} ::
                 !isTransitioning && k in stateFractions && k in stateNodes && stateNodes[k].currentLayout.Some? ==>
                   stateNodes[k].ExpansionInBounds(stateNodes[k].State())
      modifies this`lastAvatarStateIsExpanded, nodes`textSubnodes, nodes`alpha
      ensures Valid()
      ensures lastAvatarStateIsExpanded == (alignment == Left)
      ensures forall k {:trigger stateNodes[k].State()} :: k in stateNodes ==>
                stateNodes[k].State()
                == if !isTransitioning && k in stateFractions && stateNodes[k].currentLayout.Some? then
                     stateNodes[k].Expanded(old(stateNodes[k].State()), 1.0, Some(alignment))
                   else old(stateNodes[k].State())
      ensures forall k {:trigger stateNodes[k].alpha} :: k in stateNodes ==>
                stateNodes[k].alpha == if isTransitioning then old(stateNodes[k].alpha) else AvatarAlphas(old(Alphas()), alignment == Left)[k]
    {
      ghost var alphas := Alphas();
      lastAvatarStateIsExpanded := alignment == Left;
      ExpandFractions(stateFractions, alignment);
      if !isTransitioning {
        ShowAvatarState(lastAvatarStateIsExpanded, alphas);
      }
    }

    /** The line-node half of `update(stateFractions:)`: unless an expansion is under way, the laid-out nodes of the given states expand fully. */
    method ExpandFractions(stateFractions: map<int, real>, alignment: TextAlignment)
      requires Valid()
      requires forall k {:trigger stateNodes[k].State()} ::
                 !isTransitioning && k in stateFractions && k in stateNodes && stateNodes[k].currentLayout.Some? ==>
                   stateNodes[k].ExpansionInBounds(stateNodes[k].State())
      modifies nodes`textSubnodes
      ensures Valid()
      ensures forall k {:trigger stateNodes[k].State()} :: k in stateNodes ==>
                stateNodes[k].State()
                == if !isTransitioning && k in stateFractions && stateNodes[k].currentLayout.Some? then
                     stateNodes[k].Expanded(old(stateNodes[k].State()), 1.0, Some(alignment))
                   else old(stateNodes[k].State())
      ensures forall k {:trigger stateNodes[k].alpha} :: k in stateNodes ==> stateNodes[k].alpha == old(stateNodes[k].alpha)
    {
      ghost var states := map k | k in stateNodes :: stateNodes[k].State();
      ghost var targets := ExpansionTargets(states, 1.0, Some(alignment));
      ghost var chosen := set k | k in stateNodes && k in stateFractions && stateNodes[k].currentLayout.Some? && !isTransitioning;
      var order;
      ghost var position;
      order, position := KeyOrder(stateFractions.Keys);
      ExpandLaidOut(order, position, alignment, states, targets, chosen);
    }

    /**
      * The loop of `update(stateFractions:)`: unless an expansion is under
      * way, the laid-out nodes of the states in `order` expand fully to
      * their targets; `chosen` names them.
      */
    method ExpandLaidOut(order: seq<int>, ghost position: map<int, int>, alignment: TextAlignment,
                         ghost states: map<int, NodeState>, ghost targets: map<int, NodeState>, ghost chosen: set<int>)
      requires Valid() && Numbering(order, position) && states.Keys == targets.Keys == stateNodes.Keys
      requires forall k :: k in chosen <==>
                 k in stateNodes && k in position && stateNodes[k].currentLayout.Some? && !isTransitioning
      requires ExpandsTo(targets, states, 1.0, Some(alignment))
      requires forall k :: k in chosen ==> stateNodes[k].ExpansionInBounds(states[k])
      requires forall k {:trigger stateNodes[k].State()} :: k in stateNodes ==> stateNodes[k].State() == states[k]
      modifies nodes`textSubnodes
      ensures Valid()
      ensures forall k {:trigger stateNodes[k].State()} :: k in stateNodes ==> stateNodes[k].State() == if k in chosen then targets[k] else states[k]
      ensures forall k {:trigger stateNodes[k].alpha} :: k in stateNodes ==> stateNodes[k].alpha == old(stateNodes[k].alpha)
    {
      var i := 0;
      while i < |order|
        invariant 0 <= i <= |order|
        invariant Valid()
        invariant forall k :: k in chosen <==>
                    k in stateNodes && k in position && stateNodes[k].currentLayout.Some? && !isTransitioning
        invariant forall k {:trigger stateNodes[k].State()} :: k in stateNodes ==>
                    stateNodes[k].State() == if k in chosen && Visited(position, i, k) then targets[k] else states[k]
        invariant forall k {:trigger stateNodes[k].alpha} :: k in stateNodes ==> stateNodes[k].alpha == old(stateNodes[k].alpha)
      {
        var key := order[i];
        if key in stateNodes && stateNodes[key].currentLayout.Some? && !isTransitioning {
          ExpandStateNode(order, position, i, key, 1.0, alignment, states, targets, chosen);
        } else {
          VisitNext(order, position, i, key);
        }
        i := i + 1;
      }
    }
  }
}
