/**
  * `ExpandablePeerTitleTextNode`: one title string shown as a list of text
  * fragments, one per glyph-run range of its expanded layout. The node keeps
  * a one-slot layout cache, rebuilds the fragment list when the string or
  * the layout's ranges change, moves every fragment between its place in
  * the one-line title (collapsed) and its place in the expanded layout, and
  * masks the last line with a fade when the title is truncated.
  */
module TitleTextNode {
  import opened Geometry
  import opened LayoutLines
  import opened ExpandedLayout
  import opened RangeOrder

  /** A fragment's `ImmediateTextNode`: the text it shows and its frame in the text container. */
  datatype Fragment = Fragment(text: Text, frame: Rect)

  /** The fade length of the truncation mask. */
  const FadeRadius: real := 50.0

  /**
    * The layers of the truncation mask: the mask's bounds, the solid band
    * above the last line, the solid part of the last line, and the
    * gradient that fades the last line out (towards the left when
    * `fadesLeft`).
    */
  datatype FadeMask = FadeMask(bounds: Rect, topSolid: Rect, bottomSolid: Rect, gradient: Rect, fadesLeft: bool)

  /**
    * `needsContainerFading(layout:)`: a truncated layout whose first two
    * lines run in different directions is marked by an ellipsis instead of
    * a fade.
    */
  predicate NeedsContainerFading(layout: ExpandableTextNodeLayout)
  {
    !(layout.isTruncated && |layout.lines| > 1 && layout.lines[0].isRTL != layout.lines[1].isRTL)
  }

  /** Whether fragment `k` of a rebuilt list shows "…" instead of its substring. */
  predicate ShowsEllipsis(layout: ExpandableTextNodeLayout, k: int)
  {
    layout.isTruncated && k == |layout.rangeToFrame| - 1 && !NeedsContainerFading(layout)
  }

  /** "\u{2026}" with the attributes at index 0 of `t` (none for an empty string). */
  function EllipsisText(t: Text): (r: Text)
    ensures |r| == 1 && r[0].unit == '…'
    ensures |t| > 0 ==> r[0].font == t[0].font && r[0].paragraphAlignment == t[0].paragraphAlignment
    ensures |t| == 0 ==> r[0].font == None && r[0].paragraphAlignment == None
  {
    if |t| > 0 then [t[0].(unit := '…')] else [StyledUnit('…', None, None)]
  }

  /**
    * The fragment list a rebuild creates: one fragment per range of the
    * layout in ascending order, showing its substring (or the ellipsis),
    * at the zero frame of a new node.
    */
  ghost function FreshFragments(t: Text, layout: ExpandableTextNodeLayout): (r: seq<Fragment>)
    ensures |r| == |layout.rangeToFrame|
  {
    var keys := SortedKeys(layout.rangeToFrame.Keys);
    seq(|keys|, k requires 0 <= k < |keys| =>
      Fragment(if ShowsEllipsis(layout, k) then EllipsisText(t) else Substring(t, keys[k]), ZeroRect))
  }

  /**
    * `firstIndex(where: { $0.contains(location) })`: the first range
    * holding `location`, if any.
    */
  function FirstRunContaining(ranges: seq<NsRange>, location: int): (r: Option<nat>)
    ensures r.Some? ==> r.value < |ranges| && ranges[r.value].Contains(location)
    ensures r.Some? ==> forall j :: 0 <= j < r.value ==> !ranges[j].Contains(location)
    ensures r.None? ==> forall j :: 0 <= j < |ranges| ==> !ranges[j].Contains(location)
    decreases |ranges|
  {
    if |ranges| == 0 then None
    else if ranges[0].Contains(location) then Some(0)
    else
      match FirstRunContaining(ranges[1..], location)
      case None => None
      case Some(i) => Some(i + 1)
  }

  /**
    * Where the fragment for `range` starts in the one-line title: the
    * floored secondary caret offset of its start, or the position of the
    * first glyph of the right-to-left run holding its start.
    */
  function CollapsedX(ct: CoreText, single: LayoutLine, range: NsRange): real
    requires WellFormed(single)
  {
    var found := FirstRunContaining(single.runRanges, range.location);
    if found.Some? && single.runs[found.value].isRTL && range.length > 0 then single.runs[found.value].firstGlyphX
    else Floor(ct.secondaryOffsetForIndex(single.ctLine, range.location))
  }

  /**
    * How far a right-to-left one-line title is shifted left: half of what
    * it overhangs the constrained width.
    */
  function RtlAdjustment(single: LayoutLine, cs: Size): (r: real)
    ensures r >= 0.0
    ensures !single.isRTL || single.frame.AbsWidth() <= cs.width ==> r == 0.0
    ensures single.isRTL && single.frame.AbsWidth() > cs.width ==> 2.0 * r == single.frame.AbsWidth() - cs.width
  {
    if single.isRTL then Max(single.frame.AbsWidth() - cs.width, 0.0) / 2.0 else 0.0
  }

  /**
    * The frame a fragment gets at expansion fraction `f`, `yP` being the
    * eased vertical progress: the expanded frame itself at f = 1, otherwise
    * x blended between the collapsed and the expanded x, y the expanded y
    * scaled by `yP` (the collapsed y is 0), and always the expanded width
    * and height.
    */
  function ProgressFrame(expanded: Rect, collapsedX: real, f: real, yP: real): (r: Rect)
    ensures r.width == expanded.AbsWidth() && r.height == expanded.AbsHeight()
    ensures f == 1.0 ==> r.x == expanded.x && r.y == expanded.y
    ensures f != 1.0 ==> r.x == collapsedX + (expanded.x - collapsedX) * f && r.y == expanded.y * yP
    ensures f == 0.0 ==> r.x == collapsedX
    ensures 0.0 <= f <= 1.0 ==> Min(expanded.x, collapsedX) <= r.x <= Max(expanded.x, collapsedX)
    ensures 0.0 <= yP <= 1.0 && f != 1.0 ==> Min(expanded.y, 0.0) <= r.y <= Max(expanded.y, 0.0)
  {
    var progress :=
      if f == 1.0 then expanded
      else
        var collapsed := Rect(collapsedX, 0.0, expanded.width * 1.0, expanded.height);
        Rect(Blend(expanded.x, collapsed.x, f), Blend(expanded.y, collapsed.y, yP),
             Blend(expanded.AbsWidth(), collapsed.AbsWidth(), f), Blend(expanded.AbsHeight(), collapsed.AbsHeight(), f));
    Rect(progress.x, progress.y, progress.AbsWidth(), expanded.AbsHeight())
  }

  /** The frame of fragment `k` (the `k`-th range in ascending order) at fraction `f`. */
  ghost function FragmentFrame(ct: CoreText, single: LayoutLine, layout: ExpandableTextNodeLayout,
                               k: nat, f: real, yP: real): Rect
    requires WellFormed(single) && k < |layout.rangeToFrame|
  {
    var range := SortedKeys(layout.rangeToFrame.Keys)[k];
    ProgressFrame(layout.rangeToFrame[range], CollapsedX(ct, single, range) - RtlAdjustment(single, layout.constrainedSize), f, yP)
  }

  /** The fragments after one pass of `updateExpansion`: the first one per range moved, texts kept. */
  ghost function ExpandedFragments(ct: CoreText, single: LayoutLine, layout: ExpandableTextNodeLayout,
                                   fragments: seq<Fragment>, f: real, yP: real): (r: seq<Fragment>)
    requires WellFormed(single) && |layout.rangeToFrame| <= |fragments|
    ensures |r| == |fragments|
    ensures forall k :: 0 <= k < |r| ==> r[k].text == fragments[k].text
    ensures forall k :: 0 <= k < |layout.rangeToFrame| ==> r[k].frame == FragmentFrame(ct, single, layout, k, f, yP)
    ensures forall k :: |layout.rangeToFrame| <= k < |r| ==> r[k] == fragments[k]
  {
    seq(|fragments|, k requires 0 <= k < |fragments| =>
      if k < |layout.rangeToFrame| then fragments[k].(frame := FragmentFrame(ct, single, layout, k, f, yP))
      else fragments[k])
  }

  /**
    * A pass moves every fragment it reaches to a place that depends on the
    * fraction alone, so a later pass undoes whatever an earlier one did.
    */
  lemma ExpansionOverwrites(ct: CoreText, single: LayoutLine, layout: ExpandableTextNodeLayout,
                            fragments: seq<Fragment>, f1: real, yP1: real, f2: real, yP2: real)
    requires WellFormed(single) && |layout.rangeToFrame| <= |fragments|
    ensures ExpandedFragments(ct, single, layout, ExpandedFragments(ct, single, layout, fragments, f1, yP1), f2, yP2)
            == ExpandedFragments(ct, single, layout, fragments, f2, yP2)
  {
    var once := ExpandedFragments(ct, single, layout, fragments, f1, yP1);
    var twice := ExpandedFragments(ct, single, layout, once, f2, yP2);
    var direct := ExpandedFragments(ct, single, layout, fragments, f2, yP2);
    forall k | 0 <= k < |fragments|
      ensures twice[k] == direct[k]
    {
    }
  }

  /**
    * `updateContainerFading`'s mask for the text container framed by
    * `containerFrame`, whose last fragment sits at `lastFragmentFrame`. The
    * bottom band is the last line, ending at the last fragment's bottom (the
    * container's, without fragments); a left-to-right line fades out over
    * the 50 points before the last fragment's right edge, a right-to-left
    * one over the container's first 50 points. The top band, solid, covers
    * everything above the last line and is never narrower than it.
    */
  function ContainerFadeMask(layout: Option<ExpandableTextNodeLayout>, lastFragmentFrame: Option<Rect>,
                             containerFrame: Rect): (r: Option<FadeMask>)
    ensures r.Some? <==> layout.Some? && NeedsContainerFading(layout.value) && layout.value.isTruncated
                         && |layout.value.lines| > 0
    ensures r.Some? ==>
              var m := r.value;
              var lastLine := layout.value.lines[|layout.value.lines| - 1];
              && m.fadesLeft == lastLine.isRTL
              && m.topSolid.x == 0.0 && m.topSolid.y == 0.0 && m.topSolid.width >= containerFrame.AbsWidth()
              && m.bottomSolid.y == m.topSolid.y + m.topSolid.height && m.gradient.y == m.bottomSolid.y
              && m.bottomSolid.height == lastLine.frame.AbsHeight() && m.gradient.height == lastLine.frame.AbsHeight()
              && m.gradient.width == FadeRadius
              && (!lastLine.isRTL ==> m.bottomSolid.x == 0.0 && m.gradient.x == m.bottomSolid.MaxX())
              && (lastLine.isRTL ==> m.gradient.x == 0.0 && m.gradient.x + m.gradient.width == m.bottomSolid.x)
    ensures r.Some? ==>
              var m := r.value;
              var lastLine := layout.value.lines[|layout.value.lines| - 1];
              var cw := containerFrame.AbsWidth();
              var bottomY := if lastFragmentFrame.Some? then lastFragmentFrame.value.MaxY() else containerFrame.AbsHeight();
              var lastLineWidth := if lastFragmentFrame.Some? && !lastLine.isRTL then lastFragmentFrame.value.MaxX() else cw;
              && m.bounds == BoundsOf(Size(cw, containerFrame.AbsHeight()))
              && m.topSolid.height == bottomY - lastLine.frame.AbsHeight()
              && m.topSolid.width >= lastLineWidth && (m.topSolid.width == cw || m.topSolid.width == lastLineWidth)
              && m.bottomSolid.y + m.bottomSolid.height == bottomY
              && m.bottomSolid.width == lastLineWidth - FadeRadius
              && (lastLine.isRTL ==> m.bottomSolid.x + m.bottomSolid.width == lastLineWidth)
              && (!lastLine.isRTL && lastLineWidth >= FadeRadius ==> m.gradient.x + m.gradient.width == lastLineWidth)
  {
    if layout.Some? && NeedsContainerFading(layout.value) && layout.value.isTruncated && |layout.value.lines| > 0 then
      var lastLine := layout.value.lines[|layout.value.lines| - 1];
      var isRTL := lastLine.isRTL;
      var bounds := BoundsOf(Size(containerFrame.AbsWidth(), containerFrame.AbsHeight()));
      var lastLineWidth :=
        if lastFragmentFrame.Some? && !isRTL then lastFragmentFrame.value.MaxX() else bounds.AbsWidth();
      var bottomY := if lastFragmentFrame.Some? then lastFragmentFrame.value.MaxY() else bounds.AbsHeight();
      var bottomLineHeight := lastLine.frame.AbsHeight();
      var collapseAdjustment := 0.0;
      var topSolid := Rect(0.0, -collapseAdjustment, Max(bounds.AbsWidth(), lastLineWidth) + collapseAdjustment * 2.0,
                           bottomY - bottomLineHeight);
      var bottomSolid :=
        Rect(if isRTL then FadeRadius else 0.0, bottomY - bottomLineHeight,
             lastLineWidth - FadeRadius + collapseAdjustment, bottomLineHeight);
      var gradient :=
        Rect(if isRTL then 0.0 else bottomSolid.MaxX(), bottomY - bottomLineHeight, FadeRadius, bottomLineHeight);
      Some(FadeMask(bounds, topSolid, bottomSolid, gradient, isRTL))
    else
      None
  }

  /**
    * A truncated title with lines and fragments is marked exactly once:
    * by the ellipsis in its last fragment, or by the fade mask.
    */
  lemma TruncationMarkedOnce(t: Text, layout: ExpandableTextNodeLayout, lastFragmentFrame: Option<Rect>,
                             containerFrame: Rect)
    requires layout.isTruncated && |layout.lines| > 0 && |layout.rangeToFrame| > 0
    ensures var rebuilt := FreshFragments(t, layout);
            && (ShowsEllipsis(layout, |rebuilt| - 1) ==> rebuilt[|rebuilt| - 1].text == EllipsisText(t))
            && (ShowsEllipsis(layout, |rebuilt| - 1) <==> ContainerFadeMask(Some(layout), lastFragmentFrame, containerFrame).None?)
            && (forall k :: 0 <= k < |rebuilt| - 1 ==> !ShowsEllipsis(layout, k))
  {
  }

  /**
    * The body of `updateExpansion`'s loop for one fragment: the frame it is
    * moved to, from its expanded frame and its place in the one-line title.
    */
  method FragmentProgressFrame(ct: CoreText, single: LayoutLine, range: NsRange, expandedFrame: Rect,
                               rtlAdjustment: real, f: real, yP: real) returns (pushed: Rect)
    requires WellFormed(single)
    ensures pushed == ProgressFrame(expandedFrame, CollapsedX(ct, single, range) - rtlAdjustment, f, yP)
  {
    var currentProgressFrame;
    if f == 1.0 {
      currentProgressFrame := expandedFrame;
    } else {
      var offsetX := Floor(ct.secondaryOffsetForIndex(single.ctLine, range.location));
      var glyphRangeIndex := FirstRunContaining(single.runRanges, range.location);
      if glyphRangeIndex.Some? && single.runs[glyphRangeIndex.value].isRTL {
        if range.length > 0 {
          offsetX := single.runs[glyphRangeIndex.value].firstGlyphX;
        }
      }
      var collapsedFrame := Rect(offsetX - rtlAdjustment, 0.0, expandedFrame.width * 1.0, expandedFrame.height);
      currentProgressFrame := Rect(
        Blend(expandedFrame.x, collapsedFrame.x, f),
        Blend(expandedFrame.y, collapsedFrame.y, yP),
        Blend(expandedFrame.AbsWidth(), collapsedFrame.AbsWidth(), f),
        Blend(expandedFrame.AbsHeight(), collapsedFrame.AbsHeight(), f));
    }
    pushed := Rect(currentProgressFrame.x, currentProgressFrame.y,
                   currentProgressFrame.AbsWidth(), expandedFrame.AbsHeight());
  }

  /** A snapshot of the fields of a text node that `updateIfNeeded` reads and writes. */
  datatype TextNodeCache = TextNodeCache(title: Option<Text>, layout: Option<ExpandableTextNodeLayout>,
                                         constrainedSize: Option<Size>, alignment: Option<TextAlignment>,
                                         fragments: seq<Fragment>, expansion: Option<real>,
                                         expandedTotalSize: Option<Size>, singleLineInfo: Option<LayoutLine>)
  {
    /** What `Valid` asks of a node, asked of a snapshot. */
    predicate Consistent()
    {
      && (layout.Some? ==>
            && title.Some?
            && constrainedSize == Some(layout.value.constrainedSize)
            && alignment == Some(layout.value.alignment)
            && |fragments| == |layout.value.rangeToFrame|)
      && (layout.None? ==> alignment.None? && fragments == [])
    }
  }

  class ExpandablePeerTitleTextNode {
    /** CoreText, for `getLayoutLines` and the caret offsets. */
    const coreText: CoreText
    /** `TextNode.asyncLayout`. */
    const shaper: TextShaper
    /** The vertical easing of the expansion, sqrt(1 - (f - 1)^2). */
    const yProgress: real -> real
    const maxNumberOfLines: nat

    var currentString: Option<Text>
    var currentLayout: Option<ExpandableTextNodeLayout>
    var currentConstrainedSize: Option<Size>
    var prevAlignment: Option<TextAlignment>
    /** `textFragmentsNodes`. */
    var fragments: seq<Fragment>
    var prevExpansion: Option<real>
    var currentExpandedTotalSize: Option<Size>
    var singleLineInfo: Option<LayoutLine>
    /** The frame of the masked container node (the text container spans its bounds). */
    var textFrame: Rect
    /** The mask of the text container, if any. */
    var containerMask: Option<FadeMask>
    var alpha: real

    /**
      * The cache fields are set together, there is one fragment per range
      * of the current layout, and the vertical easing eases out.
      */
    ghost predicate Valid()
      reads this`currentString, this`currentLayout, this`currentConstrainedSize, this`prevAlignment, this`fragments
    {
      && EasesOut(yProgress)
      && (currentLayout.Some? ==>
            && currentString.Some?
            && currentConstrainedSize == Some(currentLayout.value.constrainedSize)
            && prevAlignment == Some(currentLayout.value.alignment)
            && |fragments| == |currentLayout.value.rangeToFrame|)
      && (currentLayout.None? ==> prevAlignment.None? && fragments == [])
    }

    constructor(coreText: CoreText, shaper: TextShaper, yProgress: real -> real)
      requires EasesOut(yProgress)
      ensures Valid()
      ensures this.coreText == coreText && this.shaper == shaper && this.yProgress == yProgress
      ensures maxNumberOfLines == 2
      ensures currentString.None? && currentLayout.None? && currentConstrainedSize.None? && prevAlignment.None?
      ensures fragments == [] && prevExpansion.None? && currentExpandedTotalSize.None? && singleLineInfo.None?
      ensures textFrame == ZeroRect && containerMask.None? && alpha == 1.0
    {
      this.coreText := coreText;
      this.shaper := shaper;
      this.yProgress := yProgress;
      maxNumberOfLines := 2;
      currentString := None;
      currentLayout := None;
      currentConstrainedSize := None;
      prevAlignment := None;
      fragments := [];
      prevExpansion := None;
      currentExpandedTotalSize := None;
      singleLineInfo := None;
      textFrame := ZeroRect;
      containerMask := None;
      alpha := 1.0;
    }

    /** The first line of `t` laid out on one unbounded line, if it has any. */
    function SingleLine(t: Text): (r: Option<LayoutLine>)
      ensures r.Some? ==> WellFormed(r.value)
    {
      var lines := LayoutLinesOf(coreText, t, Unbounded, NoLimit);
      LayoutLinesWellFormed(coreText, t, Unbounded, NoLimit);
      if |lines| > 0 then Some(lines[0]) else None
    }

    /** The size `updateIfNeeded` reports: the container of `t` laid out in at most two lines. */
    function ExpandedTotalSize(t: Text, cs: Size): Size
    {
      TotalSize(LayoutLinesOf(coreText, t, Finite(cs.width), AtMost(maxNumberOfLines)), cs.width)
    }

    /** The fragments after `updateExpansion(fraction: f)` for the string `t`. */
    ghost function AfterExpansion(fragments: seq<Fragment>, t: Text, layout: ExpandableTextNodeLayout, f: real)
      : (r: seq<Fragment>)
      requires |layout.rangeToFrame| <= |fragments|
      ensures |r| == |fragments|
    {
      var single := SingleLine(t);
      if single.Some? then ExpandedFragments(coreText, single.value, layout, fragments, f, yProgress(f))
      else fragments
    }

    /** The one-slot cache of `getExpandedLayout` answers a request. */
    predicate CacheHit(title: Text, forced: Option<TextAlignment>, cs: Size)
      reads this`currentString, this`currentConstrainedSize, this`currentLayout, this`prevAlignment
    {
      currentString == Some(title) && currentConstrainedSize == Some(cs) && currentLayout.Some? && prevAlignment == forced
    }

    /** The layout `getExpandedLayout` returns in the current state. */
    function LayoutFor(title: Text, forced: Option<TextAlignment>, cs: Size): ExpandableTextNodeLayout
      reads this`currentString, this`currentConstrainedSize, this`currentLayout, this`prevAlignment
    {
      if CacheHit(title, forced, cs) then currentLayout.value
      else ExpandedLayoutOf(shaper, title, forced, cs, maxNumberOfLines)
    }

    /**
      * `getExpandedLayout(string:forcedAlignment:constrainedSize:)`: the
      * stored layout on a cache hit, a fresh one otherwise. Either way the
      * layout is for the requested size and alignment; without a forced
      * alignment the cache never answers.
      */
    method GetExpandedLayout(title: Text, forced: Option<TextAlignment>, cs: Size)
      returns (layout: ExpandableTextNodeLayout)
      requires Valid()
      ensures CacheHit(title, forced, cs) ==> layout == currentLayout.value
      ensures !CacheHit(title, forced, cs) ==> layout == ExpandedLayoutOf(shaper, title, forced, cs, maxNumberOfLines)
      ensures forced.None? ==> layout == ExpandedLayoutOf(shaper, title, forced, cs, maxNumberOfLines)
      ensures layout.constrainedSize == cs && layout.alignment == AlignmentOrLeft(forced)
      ensures layout == LayoutFor(title, forced, cs)
    {
      var shouldRecalculate := currentString != Some(title) || Some(cs) != currentConstrainedSize;
      if !shouldRecalculate && currentLayout.Some? && prevAlignment == forced {
        layout := currentLayout.value;
      } else {
        layout := BuildExpandedLayout(shaper, title, forced, cs, maxNumberOfLines);
      }
    }

    /** Whether `updateIfNeeded` rebuilds the fragments for `string` and `layout`. */
    predicate Remakes(title: Text, layout: ExpandableTextNodeLayout)
      reads this`currentString, this`currentLayout
    {
      currentString != Some(title) || currentLayout.None? || layout.rangeToFrame != currentLayout.value.rangeToFrame
    }

    /**
      * `updateExpansion(fraction:transition:)`: moves every fragment to its
      * frame at fraction `f` and records `f`. Nothing happens without a
      * layout, or when the string has no line.
      */
    method UpdateExpansion(f: real)
      requires Valid()
      modifies this`fragments, this`singleLineInfo, this`prevExpansion
      ensures Valid()
      ensures if currentLayout.Some? && SingleLine(currentString.value).Some? then
                && fragments == AfterExpansion(old(fragments), currentString.value, currentLayout.value, f)
                && singleLineInfo == SingleLine(currentString.value)
                && prevExpansion == Some(f)
              else
                fragments == old(fragments) && singleLineInfo == old(singleLineInfo) && prevExpansion == old(prevExpansion)
    {
      if currentLayout.None? || currentString.None? {
        return;
      }
      var layout := currentLayout.value;
      var lines := GetLayoutLines(coreText, currentString.value, Unbounded, NoLimit);
      if |lines| == 0 {
        return;
      }
      var single := lines[0];
      assert SingleLine(currentString.value) == Some(single);
      singleLineInfo := Some(single);
      var rtlAdjustment := 0.0;
      if single.isRTL {
        rtlAdjustment := Max(single.frame.AbsWidth() - layout.constrainedSize.width, 0.0) / 2.0;
      }
      assert rtlAdjustment == RtlAdjustment(single, layout.constrainedSize);
      MoveFragments(single, layout, rtlAdjustment, f, yProgress(f));
      prevExpansion := Some(f);
    }

    /** The loop of `updateExpansion`: fragment `k` goes to the frame of the `k`-th range. */
    method MoveFragments(single: LayoutLine, layout: ExpandableTextNodeLayout, rtlAdjustment: real, f: real, yP: real)
      requires WellFormed(single) && |fragments| == |layout.rangeToFrame|
      requires rtlAdjustment == RtlAdjustment(single, layout.constrainedSize)
      modifies this`fragments
      ensures fragments == ExpandedFragments(coreText, single, layout, old(fragments), f, yP)
    {
      var sortedFrames := SortRanges(layout.rangeToFrame.Keys);
      var index := 0;
      while index < |sortedFrames|
        invariant 0 <= index <= |sortedFrames| == |fragments| == |old(fragments)|
        invariant forall k :: 0 <= k < index ==>
                    fragments[k] == old(fragments)[k].(frame := FragmentFrame(coreText, single, layout, k, f, yP))
        invariant forall k :: index <= k < |fragments| ==> fragments[k] == old(fragments)[k]
      {
        var range := sortedFrames[index];
        var pushed := FragmentProgressFrame(coreText, single, range, layout.rangeToFrame[range], rtlAdjustment, f, yP);
        assert pushed == FragmentFrame(coreText, single, layout, index, f, yP);
        fragments := fragments[index := fragments[index].(frame := pushed)];
        index := index + 1;
      }
    }

    /** Two passes of `updateExpansion` on the same string leave what the second alone would. */
    lemma AfterExpansionOverwrites(fragments: seq<Fragment>, t: Text, layout: ExpandableTextNodeLayout, f1: real, f2: real)
      requires |layout.rangeToFrame| <= |fragments|
      ensures AfterExpansion(AfterExpansion(fragments, t, layout, f1), t, layout, f2) == AfterExpansion(fragments, t, layout, f2)
    {
      var single := SingleLine(t);
      if single.Some? {
        ExpansionOverwrites(coreText, single.value, layout, fragments, f1, yProgress(f1), f2, yProgress(f2));
      }
    }

    /**
      * At fraction 0 `updateExpansion` puts every fragment back on the one
      * line: at y 0 and at its collapsed x less the RTL adjustment, with
      * its expanded size.
      */
    lemma AfterExpansionCollapsed(fragments: seq<Fragment>, t: Text, layout: ExpandableTextNodeLayout)
      requires Valid() && |layout.rangeToFrame| <= |fragments| && SingleLine(t).Some?
      ensures var single := SingleLine(t).value;
              var r := AfterExpansion(fragments, t, layout, 0.0);
              forall k :: 0 <= k < |layout.rangeToFrame| ==>
                var range := SortedKeys(layout.rangeToFrame.Keys)[k];
                && r[k].frame.x == CollapsedX(coreText, single, range) - RtlAdjustment(single, layout.constrainedSize)
                && r[k].frame.y == 0.0
                && r[k].frame.width == layout.rangeToFrame[range].AbsWidth()
                && r[k].frame.height == layout.rangeToFrame[range].AbsHeight()
    {
      assert yProgress(0.0) == 0.0;
    }

    /**
      * At a fraction between 0 and 1 every fragment lies between its place
      * on the one line and its expanded place, in x and in y.
      */
    lemma AfterExpansionBetween(fragments: seq<Fragment>, t: Text, layout: ExpandableTextNodeLayout, f: real)
      requires Valid() && |layout.rangeToFrame| <= |fragments| && SingleLine(t).Some? && 0.0 <= f <= 1.0
      ensures var single := SingleLine(t).value;
              var r := AfterExpansion(fragments, t, layout, f);
              forall k :: 0 <= k < |layout.rangeToFrame| ==>
                var range := SortedKeys(layout.rangeToFrame.Keys)[k];
                var expanded := layout.rangeToFrame[range];
                var collapsedX := CollapsedX(coreText, single, range) - RtlAdjustment(single, layout.constrainedSize);
                && Min(expanded.x, collapsedX) <= r[k].frame.x <= Max(expanded.x, collapsedX)
                && Min(expanded.y, 0.0) <= r[k].frame.y <= Max(expanded.y, 0.0)
    {
      assert 0.0 <= yProgress(f) <= 1.0;
    }

    /** The part of the node's state that `updateIfNeeded` reads and writes. */
    function Cache(): (c: TextNodeCache)
      reads this`currentString, this`currentLayout, this`currentConstrainedSize, this`prevAlignment,
            this`fragments, this`prevExpansion, this`currentExpandedTotalSize, this`singleLineInfo
      ensures Valid() <==> EasesOut(yProgress) && c.Consistent()
    {
      TextNodeCache(currentString, currentLayout, currentConstrainedSize, prevAlignment,
                    fragments, prevExpansion, currentExpandedTotalSize, singleLineInfo)
    }

    /**
      * The state `updateIfNeeded(string: title, expandedLayout: layout,
      * expansionFraction: f, needsExpansionLayoutUpdate: needsUpdate)`
      * leaves behind when it starts from `before`: the string and the
      * layout are stored and the cache answers for them; when the string or
      * the layout's ranges changed, the fragments are rebuilt and moved to
      * `f`, otherwise they are moved to `f` if `needsUpdate` asks for it and
      * kept if not; the stored size is kept unless the fragments were
      * rebuilt or none was stored, and is measured again then.
      */
    ghost function UpdatedCache(before: TextNodeCache, title: Text, layout: ExpandableTextNodeLayout, f: real,
                                needsUpdate: bool): TextNodeCache
      requires before.Consistent()
    {
      var remade := before.title != Some(title) || before.layout.None?
                    || layout.rangeToFrame != before.layout.value.rangeToFrame;
      var moved := (remade || needsUpdate) && SingleLine(title).Some?;
      TextNodeCache(
        Some(title), Some(layout), Some(layout.constrainedSize), Some(layout.alignment),
        if remade then AfterExpansion(FreshFragments(title, layout), title, layout, f)
        else if needsUpdate then AfterExpansion(before.fragments, title, layout, f)
        else before.fragments,
        if moved then Some(f) else before.expansion,
        Some(if !remade && before.expandedTotalSize.Some? then before.expandedTotalSize.value
             else ExpandedTotalSize(title, layout.constrainedSize)),
        if moved || before.title != Some(title) then SingleLine(title) else before.singleLineInfo)
    }

    /**
      * `after` is the state `UpdatedCache` describes when starting from
      * `before`, and `size` is the size it stores.
      */
    ghost predicate UpdatedTo(before: TextNodeCache, after: TextNodeCache, title: Text,
                              layout: ExpandableTextNodeLayout, f: real, needsUpdate: bool, size: Size)
    {
      && before.Consistent()
      && after == UpdatedCache(before, title, layout, f, needsUpdate)
      && after.expandedTotalSize == Some(size)
    }

    /** The node holds the state `UpdatedCache` describes, and `size` is the size it stored. */
    ghost predicate UpdatedFrom(before: TextNodeCache, title: Text, layout: ExpandableTextNodeLayout, f: real,
                                needsUpdate: bool, size: Size)
      reads this`currentString, this`currentLayout, this`currentConstrainedSize, this`prevAlignment,
            this`fragments, this`prevExpansion, this`currentExpandedTotalSize, this`singleLineInfo
    {
      UpdatedTo(before, Cache(), title, layout, f, needsUpdate, size)
    }

    /**
      * `updateIfNeeded(string:expandedLayout:expansionFraction:...)`: stores
      * the string and the layout (which the cache then answers for), and
      * either moves the existing fragments (when asked to) or, when the
      * string or the layout's ranges changed, rebuilds the fragment list and
      * moves it to the previous fraction and then to the requested one. The
      * size is the stored expanded size unless the list was rebuilt or none
      * is stored; then it is measured from at most two lines again.
      */
    method UpdateIfNeeded(title: Text, expandedLayout: ExpandableTextNodeLayout, expansionFraction: real,
                          needsExpansionLayoutUpdate: bool) returns (size: Size)
      requires Valid()
      modifies this`currentString, this`currentLayout, this`currentConstrainedSize, this`prevAlignment,
               this`fragments, this`prevExpansion, this`currentExpandedTotalSize, this`singleLineInfo
      ensures Valid()
      ensures currentString == Some(title) && currentLayout == Some(expandedLayout)
      ensures CacheHit(title, Some(expandedLayout.alignment), expandedLayout.constrainedSize)
      ensures old(Remakes(title, expandedLayout)) ==>
                fragments == AfterExpansion(FreshFragments(title, expandedLayout), title, expandedLayout, expansionFraction)
      ensures !old(Remakes(title, expandedLayout)) ==>
                fragments == if needsExpansionLayoutUpdate
                             then AfterExpansion(old(fragments), title, expandedLayout, expansionFraction)
                             else old(fragments)
      ensures if !old(Remakes(title, expandedLayout)) && old(currentExpandedTotalSize).Some?
              then size == old(currentExpandedTotalSize).value
              else size == ExpandedTotalSize(title, expandedLayout.constrainedSize)
      ensures currentExpandedTotalSize == Some(size)
      ensures prevExpansion == (if (old(Remakes(title, expandedLayout)) || needsExpansionLayoutUpdate) && SingleLine(title).Some?
                                then Some(expansionFraction) else old(prevExpansion))
      ensures singleLineInfo == (if ((old(Remakes(title, expandedLayout)) || needsExpansionLayoutUpdate) && SingleLine(title).Some?)
                                    || old(currentString) != Some(title)
                                 then SingleLine(title) else old(singleLineInfo))
      ensures UpdatedFrom(old(Cache()), title, expandedLayout, expansionFraction, needsExpansionLayoutUpdate, size)
      decreases if Remakes(title, expandedLayout) then 2 else 0
    {
      ghost var before := Cache();
      var shouldRemake := currentString != Some(title) || currentLayout.None?
                          || expandedLayout.rangeToFrame != currentLayout.value.rangeToFrame;
      StoreLayout(title, expandedLayout);
      if !shouldRemake {
        if needsExpansionLayoutUpdate {
          UpdateExpansion(expansionFraction);
        }
      } else {
        RemakeFragments(title, expandedLayout, expansionFraction);
      }
      size := StoreExpandedSize(title, expandedLayout, shouldRemake);
      assert Cache() == UpdatedCache(before, title, expandedLayout, expansionFraction, needsExpansionLayoutUpdate);
    }

    /**
      * The first part of `updateIfNeeded`: the single-line layout is taken
      * again when the string changed, and the string and the layout are
      * stored.
      */
    method StoreLayout(title: Text, expandedLayout: ExpandableTextNodeLayout)
      modifies this`currentString, this`currentLayout, this`currentConstrainedSize, this`prevAlignment,
               this`singleLineInfo
      ensures currentString == Some(title) && currentLayout == Some(expandedLayout)
      ensures currentConstrainedSize == Some(expandedLayout.constrainedSize)
      ensures prevAlignment == Some(expandedLayout.alignment)
      ensures singleLineInfo == if old(currentString) != Some(title) then SingleLine(title) else old(singleLineInfo)
    {
      if currentString != Some(title) {
        var lines := GetLayoutLines(coreText, title, Unbounded, NoLimit);
        singleLineInfo := if |lines| > 0 then Some(lines[0]) else None;
      }
      currentString := Some(title);
      currentConstrainedSize := Some(expandedLayout.constrainedSize);
      currentLayout := Some(expandedLayout);
      prevAlignment := Some(expandedLayout.alignment);
    }

    /**
      * The remake branch of `updateIfNeeded`, once the string and the layout
      * are stored: the fragment list is rebuilt, moved to the previous
      * fraction when there is one, and then to `f`; only the last move
      * shows.
      */
    method RemakeFragments(title: Text, expandedLayout: ExpandableTextNodeLayout, f: real)
      requires EasesOut(yProgress)
      requires currentString == Some(title) && currentLayout == Some(expandedLayout)
      requires currentConstrainedSize == Some(expandedLayout.constrainedSize)
      requires prevAlignment == Some(expandedLayout.alignment)
      modifies this`currentString, this`currentLayout, this`currentConstrainedSize, this`prevAlignment,
               this`fragments, this`prevExpansion, this`currentExpandedTotalSize, this`singleLineInfo
      ensures Valid()
      ensures currentString == Some(title) && currentLayout == Some(expandedLayout)
      ensures currentConstrainedSize == Some(expandedLayout.constrainedSize)
      ensures prevAlignment == Some(expandedLayout.alignment)
      ensures fragments == AfterExpansion(FreshFragments(title, expandedLayout), title, expandedLayout, f)
      ensures prevExpansion == if SingleLine(title).Some? then Some(f) else old(prevExpansion)
      ensures singleLineInfo == if SingleLine(title).Some? then SingleLine(title) else old(singleLineInfo)
      decreases 1
    {
      RebuildFragments(title, expandedLayout);
      ghost var rebuilt := fragments;
      if prevExpansion.Some? {
        var previousSize := UpdateIfNeeded(title, expandedLayout, prevExpansion.value, true);
        AfterExpansionOverwrites(rebuilt, title, expandedLayout, old(prevExpansion).value, f);
      }
      var currentSize := UpdateIfNeeded(title, expandedLayout, f, true);
    }

    /**
      * The last part of `updateIfNeeded`: the stored size is kept unless the
      * fragments were rebuilt or none is stored; otherwise the string is
      * measured in at most two lines and the size stored.
      */
    method StoreExpandedSize(title: Text, expandedLayout: ExpandableTextNodeLayout, remade: bool) returns (size: Size)
      modifies this`currentExpandedTotalSize
      ensures if !remade && old(currentExpandedTotalSize).Some?
              then size == old(currentExpandedTotalSize).value
              else size == ExpandedTotalSize(title, expandedLayout.constrainedSize)
      ensures currentExpandedTotalSize == Some(size)
    {
      if !remade && currentExpandedTotalSize.Some? {
        size := currentExpandedTotalSize.value;
      } else {
        var lines := GetLayoutLines(coreText, title, Finite(expandedLayout.constrainedSize.width), AtMost(maxNumberOfLines));
        size := MeasureLines(lines, expandedLayout.constrainedSize.width);
        currentExpandedTotalSize := Some(size);
      }
    }

    /** The rebuild loop of `updateIfNeeded`: one new fragment node per range, in ascending order. */
    method RebuildFragments(title: Text, expandedLayout: ExpandableTextNodeLayout)
      modifies this`fragments
      ensures fragments == FreshFragments(title, expandedLayout)
    {
      ghost var expected := FreshFragments(title, expandedLayout);
      fragments := [];
      var needsFading := NeedsContainerFading(expandedLayout);
      var sorted := SortRanges(expandedLayout.rangeToFrame.Keys);
      var index := 0;
      while index < |sorted|
        invariant 0 <= index <= |sorted| == |expected|
        invariant |fragments| == index
        invariant forall k :: 0 <= k < index ==> fragments[k] == expected[k]
      {
        var substring := Substring(title, sorted[index]);
        if expandedLayout.isTruncated && index == |expandedLayout.rangeToFrame| - 1 && !needsFading {
          substring := EllipsisText(title);
        }
        fragments := fragments + [Fragment(substring, ZeroRect)];
        index := index + 1;
      }
    }

    /** The frame of the last fragment node, if there is one. */
    function LastFragmentFrame(): Option<Rect>
      reads this`fragments
    {
      if |fragments| > 0 then Some(fragments[|fragments| - 1].frame) else None
    }

    /** `updateContainerFading()`: the text container's mask for the current layout and fragments. */
    method UpdateContainerFading()
      modifies this`containerMask
      ensures containerMask == ContainerFadeMask(currentLayout, LastFragmentFrame(), textFrame)
    {
      if currentLayout.Some? && NeedsContainerFading(currentLayout.value) && currentLayout.value.isTruncated
         && |currentLayout.value.lines| > 0 {
        var layout := currentLayout.value;
        var lastLine := layout.lines[|layout.lines| - 1];
        var isRTL := lastLine.isRTL;
        var bounds := BoundsOf(Size(textFrame.AbsWidth(), textFrame.AbsHeight()));
        var lastLineWidth;
        var bottomY;
        if |fragments| > 0 {
          var lastTextLayerFrame := fragments[|fragments| - 1].frame;
          if isRTL {
            lastLineWidth := bounds.AbsWidth();
          } else {
            lastLineWidth := lastTextLayerFrame.MaxX();
          }
          bottomY := lastTextLayerFrame.MaxY();
        } else {
          lastLineWidth := bounds.AbsWidth();
          bottomY := bounds.AbsHeight();
        }
        var bottomLineHeight := lastLine.frame.AbsHeight();
        var collapseAdjustment := 0.0;
        var topSolidArea := Rect(0.0, -collapseAdjustment,
                                 Max(bounds.AbsWidth(), lastLineWidth) + collapseAdjustment * 2.0,
                                 bottomY - bottomLineHeight);
        var bottomSolidArea;
        var maskGradient;
        if isRTL {
          bottomSolidArea := Rect(FadeRadius, bottomY - bottomLineHeight,
                                  lastLineWidth - FadeRadius + collapseAdjustment, bottomLineHeight);
          maskGradient := Rect(0.0, bottomY - bottomLineHeight, FadeRadius, bottomLineHeight);
        } else {
          bottomSolidArea := Rect(0.0, bottomY - bottomLineHeight,
                                  lastLineWidth - FadeRadius + collapseAdjustment, bottomLineHeight);
          maskGradient := Rect(bottomSolidArea.MaxX(), bottomY - bottomLineHeight, FadeRadius, bottomLineHeight);
        }
        containerMask := Some(FadeMask(bounds, topSolidArea, bottomSolidArea, maskGradient, isRTL));
      } else {
        containerMask := None;
      }
    }

    /** `updateTextFrame(_:)`: places the text container and recomputes its mask. */
    method UpdateTextFrame(frame: Rect)
      modifies this`textFrame, this`containerMask
      ensures textFrame == frame
      ensures containerMask == ContainerFadeMask(currentLayout, LastFragmentFrame(), frame)
    {
      textFrame := frame;
      UpdateContainerFading();
    }
  }
}
