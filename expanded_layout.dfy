/**
  * The expanded layout of `ExpandablePeerTitleTextNode.getExpandedLayout`:
  * the lines TextNode produces for the title, the container they share,
  * and one rectangle per glyph-run range, found by walking each line's runs
  * with a cursor from the line's aligned origin.
  */
module ExpandedLayout {
  import opened Geometry
  import opened LayoutLines

  /** One line of a TextNode layout: its range, rectangle, direction and CTLine. */
  datatype ShapedLine = ShapedLine(range: NsRange, rect: Rect, isRTL: bool, ctLine: CtLine)

  /** A TextNode layout: its lines and whether the text was truncated. */
  datatype ShapedText = ShapedText(lines: seq<ShapedLine>, truncated: bool)

  /** `TextNode.asyncLayout` for a string, a line limit, a constrained size and an alignment. */
  type TextShaper = (Text, nat, Size, TextAlignment) -> ShapedText

  /** `ExpandablePeerTitleTextNode.ExpandableTextNodeLayout`. */
  datatype ExpandableTextNodeLayout = ExpandableTextNodeLayout(
    rangeToFrame: map<NsRange, Rect>,
    constrainedSize: Size,
    alignment: TextAlignment,
    isTruncated: bool,
    lines: seq<LayoutLine>)

  /** `forcedAlignment ?? .left`. */
  function AlignmentOrLeft(forced: Option<TextAlignment>): TextAlignment
  {
    if forced.Some? then forced.value else Left
  }

  /** The `LayoutLine`s built from a TextNode layout (lines 372-385). */
  function LinesOf(t: Text, shaped: seq<ShapedLine>): (r: seq<LayoutLine>)
    ensures |r| == |shaped|
    ensures forall i :: 0 <= i < |r| ==>
              && WellFormed(r[i])
              && r[i].lineRange == shaped[i].range && r[i].frame == shaped[i].rect
              && r[i].isRTL == shaped[i].isRTL && r[i].runs == shaped[i].ctLine.runs
  {
    seq(|shaped|, i requires 0 <= i < |shaped| =>
      LayoutLine(Substring(t, shaped[i].range), shaped[i].isRTL, shaped[i].rect, shaped[i].ctLine,
                 shaped[i].range, shaped[i].ctLine.runs, RunRanges(shaped[i].ctLine.runs)))
  }

  predicate AllWellFormed(lines: seq<LayoutLine>)
  {
    forall i :: 0 <= i < |lines| ==> WellFormed(lines[i])
  }

  // ---------------------------------------------------------------------
  // Container size (lines 387-393, and again at 563-571)

  /**
    * The size loop: the width grows to the widest line clamped to
    * `maxWidth`, starting from 0, and the height adds up the line heights.
    */
  function TotalSize(lines: seq<LayoutLine>, maxWidth: real): Size
    decreases |lines|
  {
    if |lines| == 0 then ZeroSize
    else
      var p := TotalSize(lines[..|lines| - 1], maxWidth);
      var line := lines[|lines| - 1];
      Size(Max(p.width, Min(line.frame.AbsWidth(), maxWidth)), p.height + line.frame.AbsHeight())
  }

  /**
    * The container is as wide as the widest clamped line (0 without lines),
    * never wider than a non-negative constraint, and never of negative
    * height.
    */
  lemma {:induction false} TotalSizeIsWidestLine(lines: seq<LayoutLine>, maxWidth: real)
    ensures var s := TotalSize(lines, maxWidth);
            && s.width >= 0.0 && s.height >= 0.0
            && (forall i :: 0 <= i < |lines| ==> Min(lines[i].frame.AbsWidth(), maxWidth) <= s.width)
            && (s.width == 0.0 || exists i :: 0 <= i < |lines| && s.width == Min(lines[i].frame.AbsWidth(), maxWidth))
            && (maxWidth >= 0.0 ==> s.width <= maxWidth)
    decreases |lines|
  {
    if |lines| > 0 {
      var init := lines[..|lines| - 1];
      TotalSizeIsWidestLine(init, maxWidth);
      var p := TotalSize(init, maxWidth);
      var s := TotalSize(lines, maxWidth);
      forall i | 0 <= i < |lines|
        ensures Min(lines[i].frame.AbsWidth(), maxWidth) <= s.width
      {
        if i < |lines| - 1 {
          assert lines[i] == init[i];
        }
      }
      if s.width != 0.0 && s.width == p.width {
        var j :| 0 <= j < |init| && p.width == Min(init[j].frame.AbsWidth(), maxWidth);
        assert init[j] == lines[j];
      }
    }
  }

  /** The size loop as the source runs it. */
  method MeasureLines(lines: seq<LayoutLine>, maxWidth: real) returns (size: Size)
    ensures size == TotalSize(lines, maxWidth)
  {
    var width := 0.0;
    var height := 0.0;
    var i := 0;
    while i < |lines|
      invariant 0 <= i <= |lines|
      invariant Size(width, height) == TotalSize(lines[..i], maxWidth)
    {
      assert lines[..i + 1][..i] == lines[..i];
      width := Max(width, Min(lines[i].frame.AbsWidth(), maxWidth));
      height := height + lines[i].frame.AbsHeight();
      i := i + 1;
    }
    assert lines[..|lines|] == lines;
    size := Size(width, height);
  }

  // ---------------------------------------------------------------------
  // The order in which a line's runs are visited (lines 414-419)

  predicate IndicesBelow(s: seq<nat>, n: nat)
  {
    forall i :: 0 <= i < |s| ==> s[i] < n
  }

  predicate SortedByKey(keys: seq<int>, s: seq<nat>)
    requires IndicesBelow(s, |keys|)
  {
    forall i, j {:trigger keys[s[i]], keys[s[j]]} :: 0 <= i < j < |s| ==> keys[s[i]] <= keys[s[j]]
  }

  function Indices(n: nat): (r: seq<nat>)
    ensures |r| == n && IndicesBelow(r, n)
    ensures forall i :: 0 <= i < n ==> r[i] == i
  {
    seq(n, i requires 0 <= i < n => i)
  }

  /** Puts `x` after every element whose key is not above its own. */
  function InsertByKey(keys: seq<int>, x: nat, s: seq<nat>): (r: seq<nat>)
    requires x < |keys| && IndicesBelow(s, |keys|) && SortedByKey(keys, s)
    ensures |r| == |s| + 1 && IndicesBelow(r, |keys|) && SortedByKey(keys, r)
    ensures r[0] == if |s| == 0 || keys[x] < keys[s[0]] then x else s[0]
    decreases |s|
  {
    if |s| == 0 then [x]
    else if keys[x] < keys[s[0]] then [x] + s
    else
      var rest := InsertByKey(keys, x, s[1..]);
      InsertedAfterHead(keys, s[0], rest);
      [s[0]] + rest
  }

  /** An element whose key is not above that of the head of a key-sorted sequence can go in front. */
  lemma InsertedAfterHead(keys: seq<int>, h: nat, rest: seq<nat>)
    requires h < |keys| && |rest| > 0 && IndicesBelow(rest, |keys|) && SortedByKey(keys, rest)
    requires keys[h] <= keys[rest[0]]
    ensures IndicesBelow([h] + rest, |keys|) && SortedByKey(keys, [h] + rest)
  {
    var r := [h] + rest;
    forall i, j | 0 <= i < j < |r|
      ensures keys[r[i]] <= keys[r[j]]
    {
      if i == 0 {
        assert r[j] == rest[j - 1];
        if j > 1 {
          assert keys[rest[0]] <= keys[rest[j - 1]];
        }
      } else {
        assert r[i] == rest[i - 1] && r[j] == rest[j - 1];
      }
    }
  }

  /** Inserting `x` adds one occurrence of it and keeps every other element. */
  lemma {:induction false} InsertByKeyPermutes(keys: seq<int>, x: nat, s: seq<nat>)
    requires x < |keys| && IndicesBelow(s, |keys|) && SortedByKey(keys, s)
    ensures multiset(InsertByKey(keys, x, s)) == multiset(s) + multiset{x}
    decreases |s|
  {
    if |s| > 0 && keys[s[0]] <= keys[x] {
      InsertByKeyPermutes(keys, x, s[1..]);
      assert s == [s[0]] + s[1..];
    }
  }

  /**
    * `enumerated().sorted(by: location <)`: the indices of `s` reordered by
    * ascending key; insertion keeps equal keys in their original order.
    */
  function SortByKey(keys: seq<int>, s: seq<nat>): (r: seq<nat>)
    requires IndicesBelow(s, |keys|)
    ensures |r| == |s| && IndicesBelow(r, |keys|) && SortedByKey(keys, r)
    decreases |s|
  {
    if |s| == 0 then []
    else InsertByKey(keys, s[|s| - 1], SortByKey(keys, s[..|s| - 1]))
  }

  /** Sorting reorders the indices and neither drops nor repeats one. */
  lemma {:induction false} SortByKeyPermutes(keys: seq<int>, s: seq<nat>)
    requires IndicesBelow(s, |keys|)
    ensures multiset(SortByKey(keys, s)) == multiset(s)
    decreases |s|
  {
    if |s| > 0 {
      var init := s[..|s| - 1];
      SortByKeyPermutes(keys, init);
      InsertByKeyPermutes(keys, s[|s| - 1], SortByKey(keys, init));
      assert s == init + [s[|s| - 1]];
    }
  }

  function Locations(ranges: seq<NsRange>): (r: seq<int>)
    ensures |r| == |ranges| && forall i :: 0 <= i < |ranges| ==> r[i] == ranges[i].location
  {
    seq(|ranges|, i requires 0 <= i < |ranges| => ranges[i].location)
  }

  /**
    * A right-to-left line is walked in ascending range start, unless the
    * first line of the layout is right-to-left too; every other line is
    * walked in CoreText's run order. Either way every run is visited once.
    */
  function WalkOrder(line: LayoutLine, typeSetterWasRTL: bool): (r: seq<nat>)
    ensures IndicesBelow(r, |line.runRanges|)
    ensures line.isRTL && !typeSetterWasRTL ==> SortedByKey(Locations(line.runRanges), r)
    ensures !(line.isRTL && !typeSetterWasRTL) ==> r == Indices(|line.runRanges|)
  {
    var n := |line.runRanges|;
    if line.isRTL && !typeSetterWasRTL then SortByKey(Locations(line.runRanges), Indices(n))
    else Indices(n)
  }

  /** The walk visits every run of the line exactly once. */
  lemma WalkOrderVisitsEachRun(line: LayoutLine, typeSetterWasRTL: bool)
    ensures VisitsEachOnce(WalkOrder(line, typeSetterWasRTL), |line.runRanges|)
  {
    if line.isRTL && !typeSetterWasRTL {
      SortByKeyPermutes(Locations(line.runRanges), Indices(|line.runRanges|));
    }
  }

  // ---------------------------------------------------------------------
  // Run placement (lines 395-465)

  /** The widths of the runs `order` names, added up in that order. */
  function WidthSum(runs: seq<CtRun>, order: seq<nat>): real
    requires IndicesBelow(order, |runs|)
    decreases |order|
  {
    if |order| == 0 then 0.0
    else WidthSum(runs, order[..|order| - 1]) + runs[order[|order| - 1]].typographicWidth
  }

  /** `glyphOffset` before the `k`-th visited run. */
  function Cursor(line: LayoutLine, order: seq<nat>, k: nat): real
    requires IndicesBelow(order, |line.runs|) && k <= |order|
  {
    WidthSum(line.runs, order[..k])
  }

  /** The paragraph alignment of a line when none is forced; `.left` for an empty line. */
  function LineAlignment(line: LayoutLine, forced: Option<TextAlignment>): Option<TextAlignment>
  {
    if forced.Some? then forced
    else if |line.text| > 0 then line.text[0].paragraphAlignment
    else Some(Left)
  }

  /** `offsetY` before line `i`: the heights of the lines above it, without spacing. */
  function LineTop(lines: seq<LayoutLine>, i: nat): real
    requires i <= |lines|
  {
    if i == 0 then 0.0 else LineTop(lines, i - 1) + lines[i - 1].frame.height
  }

  /** The aligned frame of line `i` in the container. */
  function LineFrame(lines: seq<LayoutLine>, i: nat, container: Rect, forced: Option<TextAlignment>): Rect
    requires i < |lines|
  {
    var line := lines[i];
    ExpandedFrame(Size(Min(line.frame.width, container.AbsWidth()), line.frame.height),
                  LineTop(lines, i), container, LineAlignment(line, forced), line.isRTL)
  }

  /** A right-to-left line that follows a left-to-right one places its runs from its right end. */
  predicate Mirrored(lines: seq<LayoutLine>, i: nat)
    requires i < |lines|
  {
    lines[i].isRTL && i > 0 && !lines[i - 1].isRTL
  }

  function TypeSetterWasRTL(lines: seq<LayoutLine>): bool
  {
    |lines| > 0 && lines[0].isRTL
  }

  /** The rectangle of the `k`-th visited run of line `i`. */
  function RunFrame(lines: seq<LayoutLine>, i: nat, container: Rect, forced: Option<TextAlignment>,
                    order: seq<nat>, k: nat): Rect
    requires i < |lines| && IndicesBelow(order, |lines[i].runs|) && k < |order|
  {
    var line := lines[i];
    var cursor := Cursor(line, order, k);
    var glyphWidth := line.runs[order[k]].typographicWidth;
    var xOffset := if Mirrored(lines, i) then line.frame.AbsWidth() - cursor - glyphWidth else cursor;
    Rect(xOffset + LineFrame(lines, i, container, forced).x, LineTop(lines, i), glyphWidth, line.frame.height)
  }

  /** The (range, rectangle) assignments line `i` makes for the first `m` runs it visits in `order`. */
  function RunPlacements(lines: seq<LayoutLine>, i: nat, container: Rect, forced: Option<TextAlignment>,
                         order: seq<nat>, m: nat): (r: seq<(NsRange, Rect)>)
    requires i < |lines| && WellFormed(lines[i]) && IndicesBelow(order, |lines[i].runs|) && m <= |order|
    ensures |r| == m
  {
    if m == 0 then []
    else RunPlacements(lines, i, container, forced, order, m - 1)
         + [(lines[i].runRanges[order[m - 1]], RunFrame(lines, i, container, forced, order, m - 1))]
  }

  /** The (range, rectangle) assignments line `i` makes, visiting its runs in `order`. */
  function LinePlacements(lines: seq<LayoutLine>, i: nat, container: Rect, forced: Option<TextAlignment>,
                          order: seq<nat>): seq<(NsRange, Rect)>
    requires i < |lines| && WellFormed(lines[i]) && IndicesBelow(order, |lines[i].runs|)
  {
    RunPlacements(lines, i, container, forced, order, |order|)
  }

  /** The `k`-th assignment is for the `k`-th visited run and holds that run's rectangle. */
  lemma {:induction false} RunPlacementsAt(lines: seq<LayoutLine>, i: nat, container: Rect,
                                           forced: Option<TextAlignment>, order: seq<nat>, m: nat)
    requires i < |lines| && WellFormed(lines[i]) && IndicesBelow(order, |lines[i].runs|) && m <= |order|
    ensures forall k :: 0 <= k < m ==>
              RunPlacements(lines, i, container, forced, order, m)[k]
              == (lines[i].runRanges[order[k]], RunFrame(lines, i, container, forced, order, k))
  {
    if m > 0 {
      RunPlacementsAt(lines, i, container, forced, order, m - 1);
    }
  }

  /** The walk order of every line, as the loop computes it line by line. */
  function WalkOrders(lines: seq<LayoutLine>): (r: seq<seq<nat>>)
    ensures |r| == |lines|
    ensures forall j :: 0 <= j < |lines| ==> r[j] == WalkOrder(lines[j], TypeSetterWasRTL(lines))
  {
    seq(|lines|, j requires 0 <= j < |lines| => WalkOrder(lines[j], TypeSetterWasRTL(lines)))
  }

  /** `orders` gives, for every line, a sequence of indices of that line's runs. */
  predicate Walkable(lines: seq<LayoutLine>, orders: seq<seq<nat>>)
  {
    |orders| == |lines| && forall j :: 0 <= j < |lines| ==> IndicesBelow(orders[j], |lines[j].runs|)
  }

  /** `order` lists every index below `n` exactly once. */
  predicate VisitsEachOnce(order: seq<nat>, n: nat)
  {
    multiset(order) == multiset(Indices(n))
  }

  /** The assignments of the first `n` lines, line `j` walked in `orders[j]`, in the order the loop makes them. */
  function Placements(lines: seq<LayoutLine>, orders: seq<seq<nat>>, n: nat, container: Rect,
                      forced: Option<TextAlignment>): seq<(NsRange, Rect)>
    requires n <= |lines| && AllWellFormed(lines) && Walkable(lines, orders)
  {
    if n == 0 then []
    else Placements(lines, orders, n - 1, container, forced)
         + LinePlacements(lines, n - 1, container, forced, orders[n - 1])
  }

  /** A dictionary filled by the assignments in order; a later one overwrites an earlier one. */
  function MapOf(ps: seq<(NsRange, Rect)>): map<NsRange, Rect>
  {
    if |ps| == 0 then map[]
    else MapOf(ps[..|ps| - 1])[ps[|ps| - 1].0 := ps[|ps| - 1].1]
  }

  lemma MapOfSnoc(ps: seq<(NsRange, Rect)>, p: (NsRange, Rect))
    ensures MapOf(ps + [p]) == MapOf(ps)[p.0 := p.1]
  {
    assert (ps + [p])[..|ps|] == ps;
  }

  /** Walking one more run stores that run's rectangle under its range. */
  lemma MapOfRunPlacementsStep(lines: seq<LayoutLine>, i: nat, container: Rect, forced: Option<TextAlignment>,
                               order: seq<nat>, k: nat, before: seq<(NsRange, Rect)>)
    requires i < |lines| && WellFormed(lines[i]) && IndicesBelow(order, |lines[i].runs|) && k < |order|
    ensures MapOf(before + RunPlacements(lines, i, container, forced, order, k + 1))
            == MapOf(before + RunPlacements(lines, i, container, forced, order, k))
                 [lines[i].runRanges[order[k]] := RunFrame(lines, i, container, forced, order, k)]
  {
    var done := RunPlacements(lines, i, container, forced, order, k);
    var p := (lines[i].runRanges[order[k]], RunFrame(lines, i, container, forced, order, k));
    assert before + RunPlacements(lines, i, container, forced, order, k + 1) == (before + done) + [p];
    MapOfSnoc(before + done, p);
  }

  lemma CursorStep(line: LayoutLine, order: seq<nat>, k: nat)
    requires IndicesBelow(order, |line.runs|) && k < |order|
    ensures Cursor(line, order, k + 1) == Cursor(line, order, k) + line.runs[order[k]].typographicWidth
  {
    assert order[..k + 1][..k] == order[..k];
  }

  /**
    * `getExpandedLayout` on a cache miss: TextNode lays the string out in at
    * most `maxLines` lines, the container is the lines' total size, and
    * every run range maps to its rectangle.
    */
  function ExpandedLayoutOf(shaper: TextShaper, t: Text, forced: Option<TextAlignment>, cs: Size, maxLines: nat)
    : ExpandableTextNodeLayout
  {
    var shaped := shaper(t, maxLines, cs, AlignmentOrLeft(forced));
    var lines := LinesOf(t, shaped.lines);
    var container := BoundsOf(TotalSize(lines, cs.width));
    ExpandableTextNodeLayout(MapOf(Placements(lines, WalkOrders(lines), |lines|, container, forced)), cs,
                             AlignmentOrLeft(forced), shaped.truncated, lines)
  }

  /** The computation of `getExpandedLayout` after the cache check, loop for loop. */
  method BuildExpandedLayout(shaper: TextShaper, t: Text, forced: Option<TextAlignment>, cs: Size, maxLines: nat)
    returns (layout: ExpandableTextNodeLayout)
    ensures layout == ExpandedLayoutOf(shaper, t, forced, cs, maxLines)
  {
    var shaped := shaper(t, maxLines, cs, AlignmentOrLeft(forced));
    var lines := LinesOf(t, shaped.lines);
    var totalSize := MeasureLines(lines, cs.width);
    var containerBounds := BoundsOf(totalSize);
    var rangeExpandedFrames := PlaceLines(lines, containerBounds, forced);
    layout := ExpandableTextNodeLayout(rangeExpandedFrames, cs, AlignmentOrLeft(forced), shaped.truncated, lines);
  }

  /** The outer loop of `getExpandedLayout`: every line, top to bottom, each walked in its walk order. */
  method PlaceLines(lines: seq<LayoutLine>, containerBounds: Rect, forced: Option<TextAlignment>)
    returns (rangeExpandedFrames: map<NsRange, Rect>)
    requires AllWellFormed(lines)
    ensures Walkable(lines, WalkOrders(lines))
    ensures rangeExpandedFrames == MapOf(Placements(lines, WalkOrders(lines), |lines|, containerBounds, forced))
  {
    var prevLineIsRTL := false;
    var offsetY := 0.0;
    rangeExpandedFrames := map[];
    var typeSetterWasRTL := |lines| > 0 && lines[0].isRTL;
    var lineIndex := 0;
    ghost var orders := WalkOrders(lines);
    assert Walkable(lines, orders);
    while lineIndex < |lines|
      invariant 0 <= lineIndex <= |lines|
      invariant offsetY == LineTop(lines, lineIndex)
      invariant prevLineIsRTL == (lineIndex > 0 && lines[lineIndex - 1].isRTL)
      invariant rangeExpandedFrames == MapOf(Placements(lines, orders, lineIndex, containerBounds, forced))
    {
      rangeExpandedFrames := PlaceLine(lines, lineIndex, containerBounds, forced, typeSetterWasRTL, prevLineIsRTL,
                                       offsetY, rangeExpandedFrames, orders);
      offsetY := offsetY + lines[lineIndex].frame.height;
      prevLineIsRTL := lines[lineIndex].isRTL;
      lineIndex := lineIndex + 1;
    }
  }

  /** One pass of the outer loop: the aligned frame of line `lineIndex`, then its runs in walk order. */
  method PlaceLine(lines: seq<LayoutLine>, lineIndex: nat, containerBounds: Rect, forced: Option<TextAlignment>,
                   typeSetterWasRTL: bool, prevLineIsRTL: bool, offsetY: real, frames: map<NsRange, Rect>,
                   ghost orders: seq<seq<nat>>)
    returns (rangeExpandedFrames: map<NsRange, Rect>)
    requires AllWellFormed(lines) && lineIndex < |lines| && orders == WalkOrders(lines) && Walkable(lines, orders)
    requires typeSetterWasRTL == TypeSetterWasRTL(lines)
    requires prevLineIsRTL == (lineIndex > 0 && lines[lineIndex - 1].isRTL)
    requires offsetY == LineTop(lines, lineIndex)
    requires frames == MapOf(Placements(lines, orders, lineIndex, containerBounds, forced))
    ensures rangeExpandedFrames == MapOf(Placements(lines, orders, lineIndex + 1, containerBounds, forced))
  {
    var line := lines[lineIndex];
    var lineFrame := ExpandedFrame(Size(Min(line.frame.width, containerBounds.AbsWidth()), line.frame.height),
                                   offsetY, containerBounds, LineAlignment(line, forced), line.isRTL);
    assert lineFrame == LineFrame(lines, lineIndex, containerBounds, forced);
    var sequence := WalkOrder(line, typeSetterWasRTL);
    assert sequence == orders[lineIndex];
    rangeExpandedFrames := WalkLineRuns(lines, lineIndex, containerBounds, forced, sequence,
                                        prevLineIsRTL, offsetY, lineFrame, frames,
                                        Placements(lines, orders, lineIndex, containerBounds, forced));
  }

  /** The inner loop of `getExpandedLayout`: one line's runs, in walking order, with the cursor. */
  method WalkLineRuns(lines: seq<LayoutLine>, lineIndex: nat, containerBounds: Rect, forced: Option<TextAlignment>,
                      sequence: seq<nat>, prevLineIsRTL: bool, offsetY: real, lineFrame: Rect,
                      frames: map<NsRange, Rect>, ghost before: seq<(NsRange, Rect)>)
    returns (rangeExpandedFrames: map<NsRange, Rect>)
    requires lineIndex < |lines| && WellFormed(lines[lineIndex])
    requires IndicesBelow(sequence, |lines[lineIndex].runs|)
    requires prevLineIsRTL == (lineIndex > 0 && lines[lineIndex - 1].isRTL)
    requires offsetY == LineTop(lines, lineIndex)
    requires lineFrame == LineFrame(lines, lineIndex, containerBounds, forced)
    requires frames == MapOf(before)
    ensures rangeExpandedFrames == MapOf(before + LinePlacements(lines, lineIndex, containerBounds, forced, sequence))
  {
    var line := lines[lineIndex];
    rangeExpandedFrames := frames;
    var glyphOffset := 0.0;
    var k := 0;
    assert before + RunPlacements(lines, lineIndex, containerBounds, forced, sequence, 0) == before;
    while k < |sequence|
      invariant 0 <= k <= |sequence|
      invariant glyphOffset == Cursor(line, sequence, k)
      invariant rangeExpandedFrames == MapOf(before + RunPlacements(lines, lineIndex, containerBounds, forced, sequence, k))
    {
      var index := sequence[k];
      var glyphRunRange := line.runRanges[index];
      var glyphWidth := line.runs[index].typographicWidth;
      var xOffset := if line.isRTL && lineIndex > 0 && !prevLineIsRTL
                     then line.frame.AbsWidth() - glyphOffset - glyphWidth
                     else glyphOffset;
      CursorStep(line, sequence, k);
      glyphOffset := glyphOffset + glyphWidth;
      var expandedFrame := Rect(xOffset + lineFrame.x, offsetY, glyphWidth, line.frame.height);
      assert RunFrame(lines, lineIndex, containerBounds, forced, sequence, k) == expandedFrame;
      MapOfRunPlacementsStep(lines, lineIndex, containerBounds, forced, sequence, k, before);
      rangeExpandedFrames := rangeExpandedFrames[glyphRunRange := expandedFrame];
      k := k + 1;
    }
  }

  // ---------------------------------------------------------------------
  // What the walk guarantees

  /** The ranges the assignments `ps` are for. */
  function AssignedKeys(ps: seq<(NsRange, Rect)>): set<NsRange>
    decreases |ps|
  {
    if |ps| == 0 then {} else AssignedKeys(ps[..|ps| - 1]) + {ps[|ps| - 1].0}
  }

  /** The dictionary holds exactly the ranges that were assigned. */
  lemma {:induction false} MapOfKeys(ps: seq<(NsRange, Rect)>)
    ensures MapOf(ps).Keys == AssignedKeys(ps)
    decreases |ps|
  {
    if |ps| > 0 {
      MapOfKeys(ps[..|ps| - 1]);
    }
  }

  /** A range is assigned when some assignment is for it. */
  lemma {:induction false} AssignedKeysAt(ps: seq<(NsRange, Rect)>)
    ensures forall key :: key in AssignedKeys(ps) <==> exists j :: 0 <= j < |ps| && ps[j].0 == key
    decreases |ps|
  {
    if |ps| > 0 {
      var init := ps[..|ps| - 1];
      AssignedKeysAt(init);
      forall key | key in AssignedKeys(ps)
        ensures exists j :: 0 <= j < |ps| && ps[j].0 == key
      {
        if key != ps[|ps| - 1].0 {
          assert key in AssignedKeys(init);
          var j :| 0 <= j < |init| && init[j].0 == key;
          assert ps[j].0 == key;
        }
      }
      forall key | exists j :: 0 <= j < |ps| && ps[j].0 == key
        ensures key in AssignedKeys(ps)
      {
        var j :| 0 <= j < |ps| && ps[j].0 == key;
        if j < |ps| - 1 {
          assert init[j].0 == key;
        }
      }
    }
  }

  lemma {:induction false} AssignedKeysConcat(a: seq<(NsRange, Rect)>, b: seq<(NsRange, Rect)>)
    ensures AssignedKeys(a + b) == AssignedKeys(a) + AssignedKeys(b)
    decreases |b|
  {
    if |b| == 0 {
      assert a + b == a;
    } else {
      assert (a + b)[..|a + b| - 1] == a + b[..|b| - 1];
      AssignedKeysConcat(a, b[..|b| - 1]);
    }
  }

  /** A range assigned at position `j` and never again keeps the rectangle assigned there. */
  lemma {:induction false} MapOfLastAssignment(ps: seq<(NsRange, Rect)>, j: nat)
    requires j < |ps|
    requires forall l :: j < l < |ps| ==> ps[l].0 != ps[j].0
    ensures ps[j].0 in MapOf(ps) && MapOf(ps)[ps[j].0] == ps[j].1
    decreases |ps|
  {
    if j < |ps| - 1 {
      var init := ps[..|ps| - 1];
      MapOfLastAssignment(init, j);
    }
  }

  /** The widths add up the same whatever the order of the runs. */
  lemma {:induction false} WidthSumAppend(runs: seq<CtRun>, a: seq<nat>, b: seq<nat>)
    requires IndicesBelow(a, |runs|) && IndicesBelow(b, |runs|)
    ensures IndicesBelow(a + b, |runs|)
    ensures WidthSum(runs, a + b) == WidthSum(runs, a) + WidthSum(runs, b)
    decreases |b|
  {
    if |b| == 0 {
      assert a + b == a;
    } else {
      var b' := b[..|b| - 1];
      assert (a + b)[..|a + b| - 1] == a + b';
      assert (a + b)[|a + b| - 1] == b[|b| - 1];
      WidthSumAppend(runs, a, b');
    }
  }

  lemma RemoveAt(b: seq<nat>, j: nat)
    requires j < |b|
    ensures multiset(b[..j] + b[j + 1..]) == multiset(b) - multiset{b[j]}
  {
    assert b == b[..j] + [b[j]] + b[j + 1..];
  }

  /** Taking the `j`-th run out of an order takes its width out of the sum. */
  lemma WidthSumRemove(runs: seq<CtRun>, b: seq<nat>, j: nat)
    requires IndicesBelow(b, |runs|) && j < |b|
    ensures IndicesBelow(b[..j] + b[j + 1..], |runs|)
    ensures WidthSum(runs, b) == WidthSum(runs, b[..j] + b[j + 1..]) + runs[b[j]].typographicWidth
  {
    var l, r := b[..j], b[j + 1..];
    assert IndicesBelow(l, |runs|) && IndicesBelow(r, |runs|);
    assert b == (l + [b[j]]) + r;
    WidthSumAppend(runs, l, [b[j]]);
    WidthSumAppend(runs, l + [b[j]], r);
    WidthSumAppend(runs, l, r);
  }

  lemma {:induction false} WidthSumPermutation(runs: seq<CtRun>, a: seq<nat>, b: seq<nat>)
    requires IndicesBelow(a, |runs|) && IndicesBelow(b, |runs|)
    requires multiset(a) == multiset(b)
    ensures WidthSum(runs, a) == WidthSum(runs, b)
    decreases |a|
  {
    if |a| > 0 {
      var x := a[|a| - 1];
      var a' := a[..|a| - 1];
      assert a == a' + [x];
      assert x in multiset(b);
      var j :| 0 <= j < |b| && b[j] == x;
      RemoveAt(b, j);
      WidthSumRemove(runs, b, j);
      WidthSumPermutation(runs, a', b[..j] + b[j + 1..]);
    }
  }

  /** The ranges of the runs of `line`. */
  function LineRanges(line: LayoutLine): set<NsRange>
  {
    set x | x in line.runRanges
  }

  /** The ranges of the runs of the first `n` lines. */
  function RangesOfLines(lines: seq<LayoutLine>, n: nat): set<NsRange>
    requires n <= |lines|
  {
    if n == 0 then {} else RangesOfLines(lines, n - 1) + LineRanges(lines[n - 1])
  }

  /** The ranges of the first `m` runs visited in `order`. */
  function VisitedRanges(ranges: seq<NsRange>, order: seq<nat>, m: nat): set<NsRange>
    requires IndicesBelow(order, |ranges|) && m <= |order|
  {
    if m == 0 then {} else VisitedRanges(ranges, order, m - 1) + {ranges[order[m - 1]]}
  }

  /** The assignments for the first `m` visited runs are for those runs' ranges. */
  lemma {:induction false} RunPlacementsKeys(lines: seq<LayoutLine>, i: nat, container: Rect,
                                             forced: Option<TextAlignment>, order: seq<nat>, m: nat)
    requires i < |lines| && WellFormed(lines[i]) && IndicesBelow(order, |lines[i].runs|) && m <= |order|
    ensures AssignedKeys(RunPlacements(lines, i, container, forced, order, m))
            == VisitedRanges(lines[i].runRanges, order, m)
  {
    if m > 0 {
      RunPlacementsKeys(lines, i, container, forced, order, m - 1);
      var ps := RunPlacements(lines, i, container, forced, order, m);
      assert ps[..m - 1] == RunPlacements(lines, i, container, forced, order, m - 1);
    }
  }

  /** A range was visited when some visited run has it. */
  lemma {:induction false} VisitedRangesAt(ranges: seq<NsRange>, order: seq<nat>, m: nat)
    requires IndicesBelow(order, |ranges|) && m <= |order|
    ensures forall key :: key in VisitedRanges(ranges, order, m) <==> exists k :: 0 <= k < m && ranges[order[k]] == key
  {
    if m > 0 {
      VisitedRangesAt(ranges, order, m - 1);
    }
  }

  /** Visiting every run once, in any order, visits exactly the ranges of the runs. */
  lemma VisitingAllRuns(ranges: seq<NsRange>, order: seq<nat>)
    requires IndicesBelow(order, |ranges|) && VisitsEachOnce(order, |ranges|)
    ensures VisitedRanges(ranges, order, |order|) == set x | x in ranges
  {
    var n := |ranges|;
    VisitedRangesAt(ranges, order, |order|);
    forall key | key in ranges
      ensures key in VisitedRanges(ranges, order, |order|)
    {
      var r :| 0 <= r < n && ranges[r] == key;
      assert Indices(n)[r] == r;
      assert r in multiset(order);
      var k :| 0 <= k < |order| && order[k] == r;
    }
  }

  /** Walking a line in an order that visits each of its runs once assigns exactly the ranges of its runs. */
  lemma LineAssignsItsRuns(lines: seq<LayoutLine>, i: nat, container: Rect, forced: Option<TextAlignment>,
                           order: seq<nat>)
    requires i < |lines| && WellFormed(lines[i]) && IndicesBelow(order, |lines[i].runs|)
    requires VisitsEachOnce(order, |lines[i].runs|)
    ensures AssignedKeys(LinePlacements(lines, i, container, forced, order)) == LineRanges(lines[i])
  {
    RunPlacementsKeys(lines, i, container, forced, order, |order|);
    VisitingAllRuns(lines[i].runRanges, order);
  }

  /**
    * The assignments of the first `n` lines are for exactly the run ranges
    * of those lines, when each line's order visits all of that line's ranges.
    */
  lemma {:induction false} PlacementsAssignRunRanges(lines: seq<LayoutLine>, orders: seq<seq<nat>>, n: nat,
                                                     container: Rect, forced: Option<TextAlignment>)
    requires n <= |lines| && AllWellFormed(lines) && Walkable(lines, orders)
    requires forall j :: 0 <= j < |lines| ==>
               VisitedRanges(lines[j].runRanges, orders[j], |orders[j]|) == LineRanges(lines[j])
    ensures AssignedKeys(Placements(lines, orders, n, container, forced)) == RangesOfLines(lines, n)
  {
    if n > 0 {
      PlacementsAssignRunRanges(lines, orders, n - 1, container, forced);
      PlacementsStep(lines, orders, n, container, forced);
    }
  }

  /** Line `n - 1` adds the ranges its order visits to those the earlier lines assigned. */
  lemma PlacementsStep(lines: seq<LayoutLine>, orders: seq<seq<nat>>, n: nat, container: Rect,
                       forced: Option<TextAlignment>)
    requires 0 < n <= |lines| && AllWellFormed(lines) && Walkable(lines, orders)
    ensures AssignedKeys(Placements(lines, orders, n, container, forced))
            == AssignedKeys(Placements(lines, orders, n - 1, container, forced))
               + VisitedRanges(lines[n - 1].runRanges, orders[n - 1], |orders[n - 1]|)
  {
    var order := orders[n - 1];
    assert WellFormed(lines[n - 1]) && IndicesBelow(order, |lines[n - 1].runs|);
    var earlier := Placements(lines, orders, n - 1, container, forced);
    var here := LinePlacements(lines, n - 1, container, forced, order);
    assert Placements(lines, orders, n, container, forced) == earlier + here;
    AssignedKeysConcat(earlier, here);
    RunPlacementsKeys(lines, n - 1, container, forced, order, |order|);
  }

  /**
    * `rangeToFrame` has an entry for every glyph-run range of every line
    * and for nothing else.
    */
  lemma LayoutCoversEveryRun(shaper: TextShaper, t: Text, forced: Option<TextAlignment>, cs: Size, maxLines: nat)
    ensures var layout := ExpandedLayoutOf(shaper, t, forced, cs, maxLines);
            layout.rangeToFrame.Keys == RangesOfLines(layout.lines, |layout.lines|)
  {
    var shaped := shaper(t, maxLines, cs, AlignmentOrLeft(forced));
    var lines := LinesOf(t, shaped.lines);
    var container := BoundsOf(TotalSize(lines, cs.width));
    var orders := WalkOrders(lines);
    forall j | 0 <= j < |lines|
      ensures VisitedRanges(lines[j].runRanges, orders[j], |orders[j]|) == LineRanges(lines[j])
    {
      WalkOrderVisitsEachRun(lines[j], TypeSetterWasRTL(lines));
      VisitingAllRuns(lines[j].runRanges, orders[j]);
    }
    MapOfKeys(Placements(lines, orders, |lines|, container, forced));
    PlacementsAssignRunRanges(lines, orders, |lines|, container, forced);
  }

  /** The assignments of the first `a` lines start the assignments of the first `b`. */
  lemma {:induction false} PlacementsPrefix(lines: seq<LayoutLine>, orders: seq<seq<nat>>, a: nat, b: nat,
                                            container: Rect, forced: Option<TextAlignment>)
    requires a <= b <= |lines| && AllWellFormed(lines) && Walkable(lines, orders)
    ensures var pa := Placements(lines, orders, a, container, forced);
            var pb := Placements(lines, orders, b, container, forced);
            |pa| <= |pb| && pb[..|pa|] == pa
    decreases b
  {
    if a < b {
      PlacementsPrefix(lines, orders, a, b - 1, container, forced);
      var pa := Placements(lines, orders, a, container, forced);
      var init := Placements(lines, orders, b - 1, container, forced);
      assert WellFormed(lines[b - 1]) && IndicesBelow(orders[b - 1], |lines[b - 1].runs|);
      var pb := init + LinePlacements(lines, b - 1, container, forced, orders[b - 1]);
      assert pb[..|pa|] == init[..|pa|];
    }
  }

  /** Line `j`'s `m`-th visited run is assigned right after the assignments of the lines above it and its `m` earlier runs. */
  lemma PlacementsAt(lines: seq<LayoutLine>, orders: seq<seq<nat>>, n: nat, container: Rect,
                     forced: Option<TextAlignment>, j: nat, m: nat)
    requires n <= |lines| && AllWellFormed(lines) && Walkable(lines, orders) && j < n && m < |orders[j]|
    ensures var ps := Placements(lines, orders, n, container, forced);
            var at := |Placements(lines, orders, j, container, forced)| + m;
            && at < |Placements(lines, orders, j + 1, container, forced)| <= |ps|
            && ps[at] == (lines[j].runRanges[orders[j][m]], RunFrame(lines, j, container, forced, orders[j], m))
  {
    assert WellFormed(lines[j]) && IndicesBelow(orders[j], |lines[j].runs|);
    var before := Placements(lines, orders, j, container, forced);
    var here := LinePlacements(lines, j, container, forced, orders[j]);
    RunPlacementsAt(lines, j, container, forced, orders[j], |orders[j]|);
    assert Placements(lines, orders, j + 1, container, forced) == before + here;
    assert (before + here)[|before| + m] == here[m];
    PlacementsPrefix(lines, orders, j + 1, n, container, forced);
  }

  /** Every assignment belongs to one visited run of one line. */
  lemma {:induction false} PlacementsIndex(lines: seq<LayoutLine>, orders: seq<seq<nat>>, n: nat, container: Rect,
                                           forced: Option<TextAlignment>, l: nat)
    returns (j: nat, m: nat)
    requires n <= |lines| && AllWellFormed(lines) && Walkable(lines, orders)
    requires l < |Placements(lines, orders, n, container, forced)|
    ensures j < n && m < |orders[j]| && l == |Placements(lines, orders, j, container, forced)| + m
    decreases n
  {
    var init := Placements(lines, orders, n - 1, container, forced);
    assert WellFormed(lines[n - 1]) && IndicesBelow(orders[n - 1], |lines[n - 1].runs|);
    assert Placements(lines, orders, n, container, forced)
           == init + LinePlacements(lines, n - 1, container, forced, orders[n - 1]);
    if l < |init| {
      j, m := PlacementsIndex(lines, orders, n - 1, container, forced, l);
    } else {
      j, m := n - 1, l - |init|;
    }
  }

  /**
    * The rectangle the dictionary keeps for a range is the one the last
    * run with that range was given: the range of run `orders[i][k]` of
    * line `i` maps to that run's rectangle when no run visited after it,
    * on that line or a line below, has the same range.
    */
  lemma {:induction false} LastAssignmentWins(lines: seq<LayoutLine>, orders: seq<seq<nat>>, container: Rect,
                                              forced: Option<TextAlignment>, i: nat, k: nat)
    requires AllWellFormed(lines) && Walkable(lines, orders) && i < |lines| && k < |orders[i]|
    requires forall j, m :: 0 <= j < |lines| && 0 <= m < |orders[j]| && (j > i || (j == i && m > k)) ==>
               lines[j].runRanges[orders[j][m]] != lines[i].runRanges[orders[i][k]]
    ensures var frames := MapOf(Placements(lines, orders, |lines|, container, forced));
            var r := lines[i].runRanges[orders[i][k]];
            r in frames && frames[r] == RunFrame(lines, i, container, forced, orders[i], k)
  {
    var ps := Placements(lines, orders, |lines|, container, forced);
    var p := |Placements(lines, orders, i, container, forced)| + k;
    PlacementsAt(lines, orders, |lines|, container, forced, i, k);
    forall l | p < l < |ps|
      ensures ps[l].0 != ps[p].0
    {
      var j, m := PlacementsIndex(lines, orders, |lines|, container, forced, l);
      PlacementsAt(lines, orders, |lines|, container, forced, j, m);
      if j < i {
        PlacementsPrefix(lines, orders, j + 1, i, container, forced);
      }
    }
    MapOfLastAssignment(ps, p);
  }

  /**
    * `rangeToFrame` maps the range of run `k` of line `i`'s walk order to
    * that run's rectangle, unless a run walked later has the same range and
    * overwrites it.
    */
  lemma LayoutFrameOfRun(shaper: TextShaper, t: Text, forced: Option<TextAlignment>, cs: Size, maxLines: nat,
                         i: nat, k: nat)
    requires var lines := ExpandedLayoutOf(shaper, t, forced, cs, maxLines).lines;
             var orders := WalkOrders(lines);
             && i < |lines| && k < |orders[i]|
             && forall j, m :: 0 <= j < |lines| && 0 <= m < |orders[j]| && (j > i || (j == i && m > k)) ==>
                  lines[j].runRanges[orders[j][m]] != lines[i].runRanges[orders[i][k]]
    ensures var layout := ExpandedLayoutOf(shaper, t, forced, cs, maxLines);
            var lines := layout.lines;
            var order := WalkOrders(lines)[i];
            var r := lines[i].runRanges[order[k]];
            && r in layout.rangeToFrame
            && layout.rangeToFrame[r] == RunFrame(lines, i, BoundsOf(TotalSize(lines, cs.width)), forced, order, k)
  {
    var lines := ExpandedLayoutOf(shaper, t, forced, cs, maxLines).lines;
    forall j | 0 <= j < |lines|
      ensures IndicesBelow(WalkOrders(lines)[j], |lines[j].runs|)
    {
      assert WellFormed(lines[j]);
    }
    LastAssignmentWins(lines, WalkOrders(lines), BoundsOf(TotalSize(lines, cs.width)), forced, i, k);
  }

  /** The widths of all the runs of a line. */
  function RunsWidth(line: LayoutLine): real
  {
    WidthSum(line.runs, Indices(|line.runs|))
  }

  /**
    * Consecutive runs of a line share its row and touch: each run starts
    * where the previous one ends, or, in a mirrored line, ends where the
    * previous one starts.
    */
  lemma RunsAbut(lines: seq<LayoutLine>, i: nat, container: Rect, forced: Option<TextAlignment>,
                 order: seq<nat>, k: nat)
    requires i < |lines| && IndicesBelow(order, |lines[i].runs|) && k + 1 < |order|
    ensures var f := RunFrame(lines, i, container, forced, order, k);
            var g := RunFrame(lines, i, container, forced, order, k + 1);
            && g.y == f.y && g.height == f.height
            && (if Mirrored(lines, i) then g.x + g.width == f.x else g.x == f.x + f.width)
  {
    CursorStep(lines[i], order, k);
  }

  /**
    * Whatever the walk order, the runs of a line cover its run widths from
    * the aligned line origin: rightwards from it, or leftwards from the
    * line's right end when the line is mirrored.
    */
  lemma WalkSpansLine(lines: seq<LayoutLine>, i: nat, container: Rect, forced: Option<TextAlignment>)
    requires i < |lines| && AllWellFormed(lines)
    requires |lines[i].runs| > 0
    ensures var order := WalkOrder(lines[i], TypeSetterWasRTL(lines));
            var first := RunFrame(lines, i, container, forced, order, 0);
            var last := RunFrame(lines, i, container, forced, order, |order| - 1);
            var x0 := LineFrame(lines, i, container, forced).x;
            var w := lines[i].frame.AbsWidth();
            if Mirrored(lines, i) then
              first.x + first.width == x0 + w && last.x == x0 + w - RunsWidth(lines[i])
            else
              first.x == x0 && last.x + last.width == x0 + RunsWidth(lines[i])
  {
    var line := lines[i];
    var order := WalkOrder(line, TypeSetterWasRTL(lines));
    var n := |order|;
    assert order[..0] == [];
    CursorStep(line, order, n - 1);
    assert order[..n] == order;
    WalkOrderVisitsEachRun(line, TypeSetterWasRTL(lines));
    WidthSumPermutation(line.runs, order, Indices(|line.runs|));
  }
}
