/**
  * Plane geometry shared by both revisions of the expandable peer title.
  * CGFloat is modelled as `real`, CGSize and CGRect as datatypes, and the
  * line-alignment table (`expandedFrame`, identical in both revisions) as
  * one function.
  */
module Geometry {

  datatype Option<T> = None | Some(value: T)

  /** A dictionary's remaining keys can be walked one at a time. */
  lemma SomeKey(keys: set<int>)
    requires keys != {}
    ensures exists k :: k in keys
  {
    // By extensionality, a set without members would be the empty set.
    if forall k :: k !in keys {
      assert false;
    }
  }

  /**
    * What the model needs of the vertical easing `sqrt(1 - (p - 1)^2)` of
    * both revisions: 0 at progress 0, 1 at progress 1, and between the two
    * in between.
    */
  ghost predicate EasesOut(yProgress: real -> real)
  {
    && yProgress(0.0) == 0.0 && yProgress(1.0) == 1.0
    && forall p :: 0.0 <= p <= 1.0 ==> 0.0 <= yProgress(p) <= 1.0
  }

  function Abs(a: real): (r: real)
    ensures r >= 0.0 && (r == a || r == -a)
  {
    if a < 0.0 then -a else a
  }

  function Max(a: real, b: real): (r: real)
    ensures r >= a && r >= b && (r == a || r == b)
  {
    if a < b then b else a
  }

  function Min(a: real, b: real): (r: real)
    ensures r <= a && r <= b && (r == a || r == b)
  {
    if a < b then a else b
  }

  /** `floor` on CGFloat: the greatest whole number not above `a`. */
  function Floor(a: real): (r: real)
    ensures r <= a < r + 1.0
    ensures r == r.Floor as real
  {
    a.Floor as real
  }

  /** `ceil` on CGFloat: the least whole number not below `a`. */
  function Ceil(a: real): (r: real)
    ensures r - 1.0 < a <= r
  {
    -Floor(-a)
  }

  datatype Point = Point(x: real, y: real)

  datatype Size = Size(width: real, height: real)

  const ZeroSize: Size := Size(0.0, 0.0)

  /**
    * CGRect: an origin and a size whose components may be negative. The
    * accessors `minX`, `maxX`, `width`, ... of Core Graphics read the
    * standardised rectangle, which `MinX`, `MaxX`, `AbsWidth`, ... mirror;
    * the fields are the raw `origin` and `size`.
    */
  datatype Rect = Rect(x: real, y: real, width: real, height: real)
  {
    function MinX(): real { Min(x, x + width) }
    function MaxX(): real { Max(x, x + width) }
    function MinY(): real { Min(y, y + height) }
    function MaxY(): real { Max(y, y + height) }
    function AbsWidth(): real { Abs(width) }
    function AbsHeight(): real { Abs(height) }
    function Dimensions(): Size { Size(width, height) }
  }

  const ZeroRect: Rect := Rect(0.0, 0.0, 0.0, 0.0)

  /** The rectangle at the origin of a node's own coordinate space (`bounds`). */
  function BoundsOf(s: Size): (r: Rect)
    ensures r.x == 0.0 && r.y == 0.0 && r.Dimensions() == s
  {
    Rect(0.0, 0.0, s.width, s.height)
  }

  /**
    * The interpolation `e * p - c * (p - 1)` both revisions apply to every
    * frame component: the collapsed value `c` at p = 0, the expanded value
    * `e` at p = 1, and a value between the two for p in [0, 1].
    */
  function Blend(e: real, c: real, p: real): (r: real)
    ensures r == c + (e - c) * p
    ensures p == 0.0 ==> r == c
    ensures p == 1.0 ==> r == e
    ensures e == c ==> r == e
    ensures 0.0 <= p <= 1.0 ==> Min(e, c) <= r <= Max(e, c)
  {
    var r := e * p - c * (p - 1.0);
    if 0.0 <= p <= 1.0 then BlendBetween(e, c, p); r else r
  }

  lemma BlendBetween(e: real, c: real, p: real)
    requires 0.0 <= p <= 1.0
    ensures Min(e, c) <= c + (e - c) * p <= Max(e, c)
  {
    var d := e - c;
    NonNegativeProduct(if d >= 0.0 then d else -d, p);
    NonNegativeProduct(if d >= 0.0 then d else -d, 1.0 - p);
    assert d * (1.0 - p) == d - d * p;
  }

  lemma NonNegativeProduct(a: real, b: real)
    requires a >= 0.0 && b >= 0.0
    ensures a * b >= 0.0
  {
  }

  /** NSTextAlignment; `Other` stands for any raw value the switch does not name. */
  datatype TextAlignment = Left | Center | Right | Justified | Natural | Other(raw: int)

  /** `.center` and the missing alignment (`.none`) centre the line. */
  predicate Centred(alignment: Option<TextAlignment>)
  {
    alignment == None || alignment == Some(Center)
  }

  /**
    * Whether the table puts the line against the container's right edge:
    * `.right` for a left-to-right line, and `.left`, `.natural` or an
    * unnamed value for a right-to-left one.
    */
  predicate FlushRight(alignment: Option<TextAlignment>, isRTL: bool)
  {
    match alignment
    case None => false
    case Some(a) =>
      match a
      case Right => !isRTL
      case Center => false
      case Justified => false
      case _ => isRTL
  }

  /**
    * `expandedFrame(lineSize:offsetY:containerBounds:alignment:isRTL:)`: the
    * frame of a line of size `lineSize` placed at height `offsetY` inside
    * `container`. A centred line has equal margins on both sides, a
    * right-flush line ends at the container's right edge, every other line
    * starts at x = 0; a line no wider than the container stays inside it.
    */
  function ExpandedFrame(lineSize: Size, offsetY: real, container: Rect,
                         alignment: Option<TextAlignment>, isRTL: bool): (r: Rect)
    ensures r.y == offsetY && r.Dimensions() == lineSize
    ensures Centred(alignment) ==> r.x == container.AbsWidth() - (r.x + r.width)
    ensures FlushRight(alignment, isRTL) ==> r.x + r.width == container.AbsWidth()
    ensures !Centred(alignment) && !FlushRight(alignment, isRTL) ==> r.x == 0.0
    ensures 0.0 <= lineSize.width <= container.AbsWidth() ==>
              0.0 <= r.x && r.x + r.width <= container.AbsWidth()
  {
    var cw := container.AbsWidth();
    var lineOriginX :=
      match alignment
      case None => (cw - lineSize.width) / 2.0
      case Some(a) =>
        match a
        case Left => if isRTL then cw - lineSize.width else 0.0
        case Right => if isRTL then 0.0 else cw - lineSize.width
        case Center => (cw - lineSize.width) / 2.0
        case Justified => 0.0
        case Natural => if isRTL then cw - lineSize.width else 0.0
        case Other(_) => if isRTL then cw - lineSize.width else 0.0;
    Rect(lineOriginX, offsetY, lineSize.width, lineSize.height)
  }
}
