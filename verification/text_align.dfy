/** The text-alignment table of nae-core: each of the nine `TextAlign`
    anchors names one vertical and one horizontal alignment. */
module TextAlignment {

  datatype TextAlign =
    | TopLeft | TopCenter | TopRight
    | MiddleLeft | Center | MiddleRight
    | BottomLeft | BottomCenter | BottomRight

  datatype VerticalAlign = Top | Center | Bottom

  datatype HorizontalAlign = Left | Center | Right

  /** The anchors on the top row, the middle row and the bottom row. */
  predicate OnTopRow(t: TextAlign) { t == TopLeft || t == TopCenter || t == TopRight }
  predicate OnMiddleRow(t: TextAlign) { t == MiddleLeft || t == TextAlign.Center || t == MiddleRight }
  predicate OnBottomRow(t: TextAlign) { t == BottomLeft || t == BottomCenter || t == BottomRight }

  /** The anchors in the left, centre and right columns. */
  predicate InLeftColumn(t: TextAlign) { t == TopLeft || t == MiddleLeft || t == BottomLeft }
  predicate InCenterColumn(t: TextAlign) { t == TopCenter || t == TextAlign.Center || t == BottomCenter }
  predicate InRightColumn(t: TextAlign) { t == TopRight || t == MiddleRight || t == BottomRight }

  /** `TextAlign::get_align`: the row decides the vertical alignment and the
      column the horizontal one. */
  function GetAlign(t: TextAlign): (r: (VerticalAlign, HorizontalAlign))
    ensures r.0 == Top <==> OnTopRow(t)
    ensures r.0 == VerticalAlign.Center <==> OnMiddleRow(t)
    ensures r.0 == Bottom <==> OnBottomRow(t)
    ensures r.1 == Left <==> InLeftColumn(t)
    ensures r.1 == HorizontalAlign.Center <==> InCenterColumn(t)
    ensures r.1 == Right <==> InRightColumn(t)
  {
    match t
    case TopLeft => (Top, Left)
    case TopCenter => (Top, HorizontalAlign.Center)
    case TopRight => (Top, Right)
    case MiddleLeft => (VerticalAlign.Center, Left)
    case Center => (VerticalAlign.Center, HorizontalAlign.Center)
    case MiddleRight => (VerticalAlign.Center, Right)
    case BottomLeft => (Bottom, Left)
    case BottomCenter => (Bottom, HorizontalAlign.Center)
    case BottomRight => (Bottom, Right)
  }

  /** The anchor standing at a given row and column. */
  function AnchorAt(v: VerticalAlign, h: HorizontalAlign): (t: TextAlign)
    ensures v == Top <==> OnTopRow(t)
    ensures v == Bottom <==> OnBottomRow(t)
    ensures h == Left <==> InLeftColumn(t)
    ensures h == Right <==> InRightColumn(t)
  {
    match (v, h)
    case (Top, Left) => TopLeft
    case (Top, Center) => TopCenter
    case (Top, Right) => TopRight
    case (Center, Left) => MiddleLeft
    case (Center, Center) => TextAlign.Center
    case (Center, Right) => MiddleRight
    case (Bottom, Left) => BottomLeft
    case (Bottom, Center) => BottomCenter
    case (Bottom, Right) => BottomRight
  }

  /** `get_align` is a bijection onto the nine (vertical, horizontal) pairs:
      every pair is produced, by exactly one anchor. */
  lemma GetAlignBijective(t: TextAlign, v: VerticalAlign, h: HorizontalAlign)
    ensures GetAlign(AnchorAt(v, h)) == (v, h)
    ensures AnchorAt(GetAlign(t).0, GetAlign(t).1) == t
    ensures GetAlign(t) == (v, h) <==> t == AnchorAt(v, h)
  {
  }

  /** No two anchors share an alignment pair. */
  lemma GetAlignInjective(t1: TextAlign, t2: TextAlign)
    ensures GetAlign(t1) == GetAlign(t2) ==> t1 == t2
  {
    GetAlignBijective(t1, GetAlign(t1).0, GetAlign(t1).1);
    GetAlignBijective(t2, GetAlign(t2).0, GetAlign(t2).1);
  }
}
