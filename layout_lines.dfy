/**
  * `LayoutLine` and `getLayoutLines`: splitting an attributed string into
  * lines with CoreText, and folding every line past `maxNumberOfLines` into
  * the last visible one. CoreText itself is an input: the lines a
  * framesetter produces for a string and a width, and the caret offsets of a
  * line.
  */
module LayoutLines {
  import opened Geometry

  /** NSRange: a start index and a length in UTF-16 units. */
  datatype NsRange = NsRange(location: int, length: int)
  {
    function UpperBound(): int { location + length }

    /** `NSRange.contains(_:)`. */
    predicate Contains(index: int) { location <= index < location + length }
  }

  /** The two metrics of a CTFont the layout reads. */
  datatype Font = Font(ascent: real, descent: real)

  /**
    * One UTF-16 unit of an NSAttributedString with the attributes read at
    * it: its font and the alignment of its paragraph style (None when the
    * unit carries no paragraph style).
    */
  datatype StyledUnit = StyledUnit(unit: char, font: Option<Font>, paragraphAlignment: Option<TextAlignment>)

  type Text = seq<StyledUnit>

  /** A CTRun: its string range, direction, typographic width and first glyph position. */
  datatype CtRun = CtRun(range: NsRange, isRTL: bool, typographicWidth: real, firstGlyphX: real)

  /** A CTLine: its string range, typographic and trailing-whitespace widths, and glyph runs. */
  datatype CtLine = CtLine(range: NsRange, typographicWidth: real, trailingWhitespaceWidth: real, runs: seq<CtRun>)

  /** A width for the framesetter's path; `Unbounded` is CGFloat.greatestFiniteMagnitude. */
  datatype Extent = Finite(value: real) | Unbounded

  function MinExtent(e: Extent, a: real): (r: real)
    ensures r <= a
    ensures e.Unbounded? ==> r == a
    ensures e.Finite? ==> r <= e.value && (r == a || r == e.value)
  {
    match e
    case Finite(v) => Min(v, a)
    case Unbounded => a
  }

  /**
    * What the model needs of CoreText: the lines of a framesetter frame for
    * a string and a path width (`CTFrameGetLines`), the primary and secondary
    * caret offsets of a string index in a line
    * (`CTLineGetOffsetForStringIndex`), and the system font at size 30.
    */
  datatype CoreText = CoreText(
    frameLines: (Text, Extent) -> seq<CtLine>,
    offsetForIndex: (CtLine, int) -> real,
    secondaryOffsetForIndex: (CtLine, int) -> real,
    systemFont: Font)

  /**
    * `LayoutLine`. `runs` are the line's glyph runs as CoreText returned them;
    * `runRanges` are their ranges, which folding relabels while the runs
    * keep their own.
    */
  datatype LayoutLine = LayoutLine(
    text: Text,
    isRTL: bool,
    frame: Rect,
    ctLine: CtLine,
    lineRange: NsRange,
    runs: seq<CtRun>,
    runRanges: seq<NsRange>)

  /** Every run range has its run, so `glyphRuns[i]` never traps for a range index `i`. */
  predicate WellFormed(line: LayoutLine)
  {
    |line.runs| == |line.runRanges|
  }

  /**
    * `attributedSubstring(from:)` for a range inside the string. A range
    * reaching outside, which the source meets when a state's string is
    * shorter than the main state's, is clamped to the string, where the
    * source raises.
    */
  function Substring(t: Text, range: NsRange): (s: Text)
    ensures |s| <= |t|
    ensures 0 <= range.location && 0 <= range.length && range.UpperBound() <= |t| ==>
              s == t[range.location..range.UpperBound()]
  {
    var lo := if range.location < 0 then 0 else if range.location > |t| then |t| else range.location;
    var hi := if range.UpperBound() < lo then lo else if range.UpperBound() > |t| then |t| else range.UpperBound();
    t[lo..hi]
  }

  function RunRanges(runs: seq<CtRun>): (r: seq<NsRange>)
    ensures |r| == |runs|
    ensures forall i :: 0 <= i < |runs| ==> r[i] == runs[i].range
  {
    seq(|runs|, i requires 0 <= i < |runs| => runs[i].range)
  }

  /** The font at index 0 of the string, or the system font for an empty or font-less string. */
  function LineFont(ct: CoreText, t: Text): Font
  {
    if |t| > 0 && t[0].font.Some? then t[0].font.value else ct.systemFont
  }

  function FontLineHeight(f: Font): real
  {
    Floor(f.ascent + f.descent)
  }

  /** One line of the loop at lines 967-1001: frame, direction and ranges of a CoreText line. */
  function ToLayoutLine(t: Text, box: Extent, lineHeight: real, line: CtLine): LayoutLine
  {
    LayoutLine(
      Substring(t, line.range),
      |line.runs| > 0 && line.runs[0].isRTL,
      Rect(0.0, 0.0, MinExtent(box, Ceil(line.typographicWidth - line.trailingWhitespaceWidth)), lineHeight),
      line,
      line.range,
      line.runs,
      RunRanges(line.runs))
  }

  function ConvertLines(t: Text, box: Extent, lineHeight: real, lines: seq<CtLine>): (r: seq<LayoutLine>)
    ensures |r| == |lines|
    decreases |lines|
  {
    if |lines| == 0 then []
    else ConvertLines(t, box, lineHeight, lines[..|lines| - 1]) + [ToLayoutLine(t, box, lineHeight, lines[|lines| - 1])]
  }

  lemma {:induction false} ConvertLinesAt(t: Text, box: Extent, lineHeight: real, lines: seq<CtLine>, i: int)
    requires 0 <= i < |lines|
    ensures ConvertLines(t, box, lineHeight, lines)[i] == ToLayoutLine(t, box, lineHeight, lines[i])
    decreases |lines|
  {
    if i < |lines| - 1 {
      ConvertLinesAt(t, box, lineHeight, lines[..|lines| - 1], i);
    }
  }

  /** `maxNumberOfLines`: a count, or `.max` (no limit). */
  datatype LineLimit = AtMost(n: nat) | NoLimit

  /** `allLines[0..<min(allLines.count, maxNumberOfLines)]`. */
  function Visible(all: seq<CtLine>, limit: LineLimit): (r: seq<CtLine>)
    ensures |r| <= |all| && r == all[..|r|]
    ensures limit.NoLimit? ==> r == all
    ensures limit.AtMost? ==> |r| == if limit.n < |all| then limit.n else |all|
  {
    match limit
    case NoLimit => all
    case AtMost(n) => if n < |all| then all[..n] else all
  }

  predicate Overflows(count: nat, limit: LineLimit)
  {
    limit.AtMost? && count > limit.n
  }

  function Shifted(ranges: seq<NsRange>, offset: int): (r: seq<NsRange>)
    ensures |r| == |ranges|
    ensures forall i :: 0 <= i < |ranges| ==> r[i] == NsRange(ranges[i].location + offset, ranges[i].length)
  {
    seq(|ranges|, i requires 0 <= i < |ranges| => NsRange(ranges[i].location + offset, ranges[i].length))
  }

  /**
    * The first line of the overflow's own layout relabelled as part of the
    * whole string: range [v, length) and run ranges moved right by `v`.
    */
  function FoldedLine(line: LayoutLine, v: int, length: int): LayoutLine
  {
    line.(lineRange := NsRange(v, length - v), runRanges := Shifted(line.runRanges, v))
  }

  /**
    * `getLayoutLines(_:textSize:maxNumberOfLines:)`. With no more lines than
    * the limit every line is converted; otherwise the lines are folded at
    * the start of the last visible line.
    */
  function LayoutLinesOf(ct: CoreText, t: Text, box: Extent, limit: LineLimit): seq<LayoutLine>
    decreases if limit.AtMost? then 1 else 0, 0
  {
    var all := ct.frameLines(t, box);
    if |all| == 0 then []
    else if Overflows(|all|, limit) && limit.n > 0 then
      FoldAt(ct, t, box, all[limit.n - 1].range.location)
    else
      ConvertLines(t, box, FontLineHeight(LineFont(ct, t)), Visible(all, limit))
  }

  /**
    * The fold at the last visible line's start `v`: the text before `v` is
    * laid out again without a limit, and the text from `v` to the end is
    * laid out on one unbounded line that becomes the last line.
    */
  function FoldAt(ct: CoreText, t: Text, box: Extent, v: int): seq<LayoutLine>
    decreases 0, 1
  {
    var prefix := if v > 0 then LayoutLinesOf(ct, Substring(t, NsRange(0, v)), box, NoLimit) else [];
    var tail := LayoutLinesOf(ct, Substring(t, NsRange(v, |t| - v)), Unbounded, NoLimit);
    prefix + (if |tail| > 0 then [FoldedLine(tail[0], v, |t|)] else [])
  }

  /** `getLayoutLines`, as the source computes it: a conversion loop, and recursion for the fold. */
  method GetLayoutLines(ct: CoreText, t: Text, box: Extent, limit: LineLimit) returns (lines: seq<LayoutLine>)
    ensures lines == LayoutLinesOf(ct, t, box, limit)
    decreases if limit.AtMost? then 1 else 0
  {
    lines := [];
    var all := ct.frameLines(t, box);
    if |all| == 0 {
      return;
    }
    var shown := Visible(all, limit);
    if Overflows(|all|, limit) && |shown| > 0 {
      var lastVisible := shown[|shown| - 1].range;
      var v := lastVisible.location;
      var lastString := Substring(t, NsRange(v, |t| - v));
      var unaffectedString := Substring(t, NsRange(0, v));
      var firstLines := [];
      if v > 0 {
        firstLines := GetLayoutLines(ct, unaffectedString, box, NoLimit);
      }
      var lastLines := GetLayoutLines(ct, lastString, Unbounded, NoLimit);
      var lastLine := if |lastLines| > 0 then [FoldedLine(lastLines[0], v, |t|)] else lastLines;
      lines := firstLines + lastLine;
      assert lines == FoldAt(ct, t, box, v);
    } else {
      var fontLineHeight := FontLineHeight(LineFont(ct, t));
      var i := 0;
      while i < |shown|
        invariant 0 <= i <= |shown|
        invariant lines == ConvertLines(t, box, fontLineHeight, shown[..i])
      {
        assert shown[..i + 1][..i] == shown[..i];
        lines := lines + [ToLayoutLine(t, box, fontLineHeight, shown[i])];
        i := i + 1;
      }
      assert shown[..|shown|] == shown;
    }
  }

  /**
    * No more framesetter lines than the limit: one line per CoreText line,
    * at the origin, as wide as its ink without trailing whitespace (rounded
    * up, at most the box), as tall as the string's font, right-to-left
    * exactly when its first run is, with the line's own ranges.
    */
  lemma FittingLines(ct: CoreText, t: Text, box: Extent, limit: LineLimit)
    requires !Overflows(|ct.frameLines(t, box)|, limit)
    ensures var all := ct.frameLines(t, box);
            var r := LayoutLinesOf(ct, t, box, limit);
            |r| == |all| &&
            forall i :: 0 <= i < |all| ==>
              && r[i].frame.x == 0.0 && r[i].frame.y == 0.0
              && r[i].frame.width == MinExtent(box, Ceil(all[i].typographicWidth - all[i].trailingWhitespaceWidth))
              && r[i].frame.height == FontLineHeight(LineFont(ct, t))
              && (r[i].isRTL <==> |all[i].runs| > 0 && all[i].runs[0].isRTL)
              && r[i].lineRange == all[i].range
              && r[i].text == Substring(t, all[i].range)
              && r[i].runs == all[i].runs
              && r[i].runRanges == RunRanges(all[i].runs)
  {
    var all := ct.frameLines(t, box);
    var h := FontLineHeight(LineFont(ct, t));
    forall i | 0 <= i < |all|
      ensures LayoutLinesOf(ct, t, box, limit)[i] == ToLayoutLine(t, box, h, all[i])
    {
      ConvertLinesAt(t, box, h, all, i);
    }
  }

  /**
    * More framesetter lines than a positive limit: the lines laid out for
    * the text before the last visible line, then (when the rest of the text
    * lays out at all) one folded line covering [v, length), whose run ranges
    * are the rest's own run ranges moved right by v.
    */
  lemma OverflowFolds(ct: CoreText, t: Text, box: Extent, n: nat)
    requires 0 < n < |ct.frameLines(t, box)|
    ensures var v := ct.frameLines(t, box)[n - 1].range.location;
            var r := LayoutLinesOf(ct, t, box, AtMost(n));
            var prefix := if v > 0 then LayoutLinesOf(ct, Substring(t, NsRange(0, v)), box, NoLimit) else [];
            var tail := LayoutLinesOf(ct, Substring(t, NsRange(v, |t| - v)), Unbounded, NoLimit);
            && |prefix| <= |r| && r[..|prefix|] == prefix
            && (|tail| == 0 ==> r == prefix)
            && (|tail| > 0 ==>
                  && |r| == |prefix| + 1
                  && r[|prefix|].lineRange == NsRange(v, |t| - v)
                  && r[|prefix|].frame == tail[0].frame
                  && r[|prefix|].runs == tail[0].runs
                  && |r[|prefix|].runRanges| == |tail[0].runRanges|
                  && forall k :: 0 <= k < |tail[0].runRanges| ==>
                       r[|prefix|].runRanges[k] == NsRange(tail[0].runRanges[k].location + v, tail[0].runRanges[k].length))
  {
  }

  /** A limit of zero lines yields no lines at all. */
  lemma ZeroLimitIsEmpty(ct: CoreText, t: Text, box: Extent)
    ensures LayoutLinesOf(ct, t, box, AtMost(0)) == []
  {
  }

  /** Every line `getLayoutLines` returns keeps one range per run. */
  lemma {:induction false} LayoutLinesWellFormed(ct: CoreText, t: Text, box: Extent, limit: LineLimit)
    ensures forall line :: line in LayoutLinesOf(ct, t, box, limit) ==> WellFormed(line)
    decreases if limit.AtMost? then 1 else 0
  {
    var all := ct.frameLines(t, box);
    if |all| == 0 {
    } else if Overflows(|all|, limit) && limit.n > 0 {
      var v := all[limit.n - 1].range.location;
      if v > 0 {
        LayoutLinesWellFormed(ct, Substring(t, NsRange(0, v)), box, NoLimit);
      }
      var tail := LayoutLinesOf(ct, Substring(t, NsRange(v, |t| - v)), Unbounded, NoLimit);
      LayoutLinesWellFormed(ct, Substring(t, NsRange(v, |t| - v)), Unbounded, NoLimit);
      if |tail| > 0 {
        assert WellFormed(tail[0]);
        assert WellFormed(FoldedLine(tail[0], v, |t|));
      }
    } else {
      var h := FontLineHeight(LineFont(ct, t));
      var shown := Visible(all, limit);
      forall line | line in ConvertLines(t, box, h, shown)
        ensures WellFormed(line)
      {
        var i :| 0 <= i < |shown| && ConvertLines(t, box, h, shown)[i] == line;
        ConvertLinesAt(t, box, h, shown, i);
      }
    }
  }
}
