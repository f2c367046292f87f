/** The UI layer of nae: a list of elements drawn in order, each between a
    push and a pop of its own matrix, and the button's choice of shape. Drawing
    is recorded as the trace of calls made on the draw context. */
module UI {
  import W = Wrappers
  import opened Colors

  /** A 4x4 transform (`Matrix4`), carried around but never computed with. */
  type Matrix = seq<real>

  datatype CornerRadius =
    | None
    | Radius(radius: real)
    | Custom(top: real, left: real, right: real, bottom: real)

  datatype BorderStyle = BorderStyle(width: real, cornerRadius: CornerRadius, color: W.Option<Color>)

  datatype UIButtonStyle = UIButtonStyle(backgroundColor: W.Option<Color>, border: W.Option<BorderStyle>)

  datatype UIButton = UIButton(width: real, height: real, style: UIButtonStyle, transform: Matrix)

  /** An element of the context: a button, an element that keeps the trait's
      default `draw` (which draws nothing), or any other implementation of the
      trait, given by its matrix and the calls its `draw` makes. Those calls
      are fixed per element: a `draw` that reads the `state` argument or its own
      mutable fields, and so draws differently from frame to frame, is not modelled. */
  datatype UIElement =
    | Button(button: UIButton)
    | Plain(matrix: Matrix)
    | Other(otherMatrix: Matrix, calls: seq<DrawCmd>)

  /** The calls made on the draw context. */
  datatype DrawCmd =
    | Push(m: Matrix)
    | Pop
    | SetColor(color: Color)
    | DrawRect(x: real, y: real, width: real, height: real)
    | DrawRoundedRect(rx: real, ry: real, rwidth: real, rheight: real, radius: real)

  datatype UIContext = UIContext(elements: seq<UIElement>)

  /** `impl Default for CornerRadius`: no rounding. */
  function DefaultCornerRadius(): (c: CornerRadius)
    ensures c.None?
  {
    None
  }

  /** The derived `Default` of `UIButtonStyle`: no background and no border. */
  function DefaultButtonStyle(): (s: UIButtonStyle)
    ensures s.backgroundColor.None? && s.border.None?
  {
    UIButtonStyle(W.None, W.None)
  }

  /** `UIButton::new`; the transform built from the size is given. */
  function NewButton(width: real, height: real, transform: Matrix): (b: UIButton)
    ensures b.width == width && b.height == height && b.transform == transform
    ensures b.style == DefaultButtonStyle()
  {
    UIButton(width, height, DefaultButtonStyle(), transform)
  }

  /** The corner radius a button draws with: its border's, or none without a border. */
  function EffectiveRadius(b: UIButton): CornerRadius {
    match b.style.border
    case None => None
    case Some(border) => border.cornerRadius
  }

  /** `UIButton::draw`: set the fill colour to the background colour (transparent
      when none), then draw a plain rect for no radius or radius 0, a rounded
      rect for any other radius, and nothing for a custom radius. */
  function ButtonDraw(b: UIButton): (t: seq<DrawCmd>)
    ensures 1 <= |t| <= 2
    ensures t[0] == SetColor(b.style.backgroundColor.UnwrapOr(TRANSPARENT))
    ensures |t| == 2 <==> !EffectiveRadius(b).Custom?
    ensures |t| == 2 ==> t[1] == DrawRect(0.0, 0.0, b.width, b.height)
                          || (EffectiveRadius(b).Radius?
                              && t[1] == DrawRoundedRect(0.0, 0.0, b.width, b.height, EffectiveRadius(b).radius))
  {
    var fill := SetColor(b.style.backgroundColor.UnwrapOr(TRANSPARENT));
    match EffectiveRadius(b)
    case None => [fill, DrawRect(0.0, 0.0, b.width, b.height)]
    case Radius(r) =>
      if r == 0.0 then [fill, DrawRect(0.0, 0.0, b.width, b.height)]
      else [fill, DrawRoundedRect(0.0, 0.0, b.width, b.height, r)]
    case Custom(_, _, _, _) => [fill]
  }

  /** The shape rule: a rounded rect exactly when the effective radius is a
      non-zero `Radius`, with that radius; a plain rect for no border, `None`
      or `Radius(0.0)`. */
  lemma ButtonShapeRule(b: UIButton)
    ensures var t := ButtonDraw(b);
            && ((|t| == 2 && t[1].DrawRoundedRect?) <==> (EffectiveRadius(b).Radius? && EffectiveRadius(b).radius != 0.0))
            && ((|t| == 2 && t[1].DrawRoundedRect?) ==> t[1].radius == EffectiveRadius(b).radius)
            && (b.style.border.None? || EffectiveRadius(b) == None || EffectiveRadius(b) == Radius(0.0)
                <==> t == [t[0], DrawRect(0.0, 0.0, b.width, b.height)])
  {
  }

  /** A new button draws a transparent rect of its own size. */
  lemma NewButtonDraw(width: real, height: real, transform: Matrix)
    ensures ButtonDraw(NewButton(width, height, transform))
            == [SetColor(TRANSPARENT), DrawRect(0.0, 0.0, width, height)]
  {
  }

  function MatrixOf(e: UIElement): Matrix {
    match e
    case Button(b) => b.transform
    case Plain(m) => m
    case Other(m, _) => m
  }

  /** The calls one element's own `draw` makes. A button and a default element
      never touch the matrix stack; another implementation may. */
  function ElementDraw(e: UIElement): (t: seq<DrawCmd>)
    ensures !e.Other? ==> forall k :: 0 <= k < |t| ==> !t[k].Push? && !t[k].Pop?
  {
    match e
    case Button(b) => ButtonDraw(b)
    case Plain(_) => []
    case Other(_, calls) => calls
  }

  /** What drawing one element contributes: push its matrix, draw it, pop. */
  function Segment(e: UIElement): seq<DrawCmd> {
    [Push(MatrixOf(e))] + ElementDraw(e) + [Pop]
  }

  // ---------------------------------------------------------------------------
  // Matrix-stack depth

  /** The matrix-stack depth change of a trace: pushes minus pops. */
  function Depth(t: seq<DrawCmd>): int {
    if |t| == 0 then 0
    else Depth(t[..|t| - 1]) + (match t[|t| - 1] case Push(_) => 1 case Pop => -1 case _ => 0)
  }

  /** The trace never pops below the depth it started at and ends at that depth. */
  predicate Balanced(t: seq<DrawCmd>) {
    Depth(t) == 0 && forall k :: 0 <= k <= |t| ==> Depth(t[..k]) >= 0
  }

  lemma {:induction false} DepthAppend(a: seq<DrawCmd>, b: seq<DrawCmd>)
    ensures Depth(a + b) == Depth(a) + Depth(b)
    decreases |b|
  {
    if |b| == 0 {
      assert a + b == a;
    } else {
      var n := |b| - 1;
      assert (a + b)[..|a| + n] == a + b[..n];
      DepthAppend(a, b[..n]);
    }
  }

  lemma {:induction false} DepthWithoutStackCalls(t: seq<DrawCmd>)
    requires forall k :: 0 <= k < |t| ==> !t[k].Push? && !t[k].Pop?
    ensures forall k :: 0 <= k <= |t| ==> Depth(t[..k]) == 0
    decreases |t|
  {
    if |t| > 0 {
      var n := |t| - 1;
      assert t[..n][..n] == t[..n];
      DepthWithoutStackCalls(t[..n]);
      forall k | 0 <= k <= |t| ensures Depth(t[..k]) == 0 {
        if k <= n {
          assert t[..k] == t[..n][..k];
        } else {
          assert t[..k] == t;
          assert t[..k][..n] == t[..n];
        }
      }
    }
  }

  /** An element whose own calls leave the matrix stack as they found it. */
  predicate WellBehaved(e: UIElement) {
    Balanced(ElementDraw(e))
  }

  /** Buttons and default elements are well behaved. */
  lemma BuiltInElementsWellBehaved(e: UIElement)
    requires !e.Other?
    ensures WellBehaved(e)
  {
    DepthWithoutStackCalls(ElementDraw(e));
    assert ElementDraw(e)[..|ElementDraw(e)|] == ElementDraw(e);
  }

  /** The segment of a well-behaved element is balanced: the depth is at least 1
      throughout the element's own drawing and returns to 0 at the pop. */
  lemma SegmentBalanced(e: UIElement)
    requires WellBehaved(e)
    ensures Balanced(Segment(e))
  {
    var body := ElementDraw(e);
    var p := [Push(MatrixOf(e))];
    var t := Segment(e);
    DepthAppend(p, body);
    DepthAppend(p + body, [Pop]);
    assert p[..0] == [] && [Pop][..0] == [];
    assert body[..|body|] == body;
    forall k | 0 <= k <= |t| ensures Depth(t[..k]) >= 0 {
      if k == 0 {
        assert t[..k] == [];
      } else if k <= |body| + 1 {
        assert t[..k] == p + body[..k - 1];
        DepthAppend(p, body[..k - 1]);
      } else {
        assert t[..k] == t;
      }
    }
  }

  /** Appending the segment of a well-behaved element keeps a trace balanced. */
  lemma DrawStep(prev: seq<DrawCmd>, e: UIElement)
    ensures Balanced(prev) && WellBehaved(e) ==> Balanced(prev + Segment(e))
  {
    if Balanced(prev) && WellBehaved(e) {
      SegmentBalanced(e);
      BalancedAppend(prev, Segment(e));
    }
  }

  lemma BalancedAppend(a: seq<DrawCmd>, b: seq<DrawCmd>)
    requires Balanced(a) && Balanced(b)
    ensures Balanced(a + b)
  {
    DepthAppend(a, b);
    forall k | 0 <= k <= |a + b| ensures Depth((a + b)[..k]) >= 0 {
      if k <= |a| {
        assert (a + b)[..k] == a[..k];
      } else {
        assert (a + b)[..k] == a + b[..k - |a|];
        DepthAppend(a, b[..k - |a|]);
      }
    }
  }

  // ---------------------------------------------------------------------------
  // The context

  /** A context holding only buttons and default elements always draws a
      balanced trace. */
  lemma BuiltInContextBalanced(ctx: UIContext)
    requires forall i :: 0 <= i < |ctx.elements| ==> !ctx.elements[i].Other?
    ensures Balanced(Draw(ctx))
  {
    forall i | 0 <= i < |ctx.elements| ensures WellBehaved(ctx.elements[i]) {
      BuiltInElementsWellBehaved(ctx.elements[i]);
    }
  }

  /** The hypothesis is needed: an element whose own `draw` pops twice makes the
      context's trace underflow the matrix stack. */
  lemma StrayPopsUnbalance(m: Matrix)
    ensures !Balanced(Draw(UIContext([Other(m, [Pop, Pop])])))
  {
    var t := Draw(UIContext([Other(m, [Pop, Pop])]));
    var e := Other(m, [Pop, Pop]);
    assert UIContext([e]).elements[..0] == [];
    assert Draw(UIContext([])) == [];
    assert Segment(e) == [Push(m)] + [Pop, Pop] + [Pop];
    assert t == [Push(m), Pop, Pop, Pop];
    var p0, p1, p2 := t[..1], t[..2], t[..3];
    assert p0[..0] == [] && p1[..1] == p0 && p2[..2] == p1;
    assert Depth(p0) == 1;
    assert Depth(p1) == 0;
    assert Depth(p2) == -1;
  }

  /** `UIContext::new`. */
  function New(): (ctx: UIContext)
    ensures |ctx.elements| == 0
    ensures Draw(ctx) == []
  {
    UIContext([])
  }

  /** `add_element`: the element goes at the end; the others are unchanged and
      the next draw is the previous one followed by the new element's segment. */
  function AddElement(ctx: UIContext, e: UIElement): (r: UIContext)
    ensures |r.elements| == |ctx.elements| + 1
    ensures r.elements[..|ctx.elements|] == ctx.elements && r.elements[|ctx.elements|] == e
    ensures Draw(r) == Draw(ctx) + Segment(e)
  {
    var r := UIContext(ctx.elements + [e]);
    assert r.elements[..|ctx.elements|] == ctx.elements;
    r
  }

  /** `UIContext::draw`: the elements in order, each bracketed by a push of its
      matrix and a pop. When every element's own calls are balanced, the matrix
      stack ends where it started and never underflows. */
  function Draw(ctx: UIContext): (t: seq<DrawCmd>)
    ensures (forall i :: 0 <= i < |ctx.elements| ==> WellBehaved(ctx.elements[i])) ==> Balanced(t)
    ensures |t| >= 2 * |ctx.elements|
    decreases |ctx.elements|
  {
    if |ctx.elements| == 0 then []
    else
      var n := |ctx.elements| - 1;
      var prev := Draw(UIContext(ctx.elements[..n]));
      DrawStep(prev, ctx.elements[n]);
      prev + Segment(ctx.elements[n])
  }
}
