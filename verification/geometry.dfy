/** The shape/path builder of nae-core. A `Geometry` holds an optional open
    path, a stack of queued shapes and the list of draw batches emitted so far;
    `fill` and `stroke` drain every queued shape into exactly one batch.
    Tessellation is done by an external engine and is a function parameter here. */
module GeometryBuilder {
  import opened Wrappers
  import opened Colors

  datatype Point = Point(x: real, y: real)

  /** One command recorded by an open path builder. */
  datatype PathCmd =
    | MoveCmd(to: Point)
    | LineCmd(to: Point)
    | CubicCmd(ctrl1: Point, ctrl2: Point, to: Point)
    | QuadraticCmd(ctrl: Point, to: Point)
    | CloseCmd

  /** A queued shape (`GeomTypes`). */
  datatype Shape =
    | CircleShape(cx: real, cy: real, radius: real)
    | RectShape(rx: real, ry: real, width: real, height: real)
    | RoundedRectShape(rrx: real, rry: real, rwidth: real, rheight: real, cornerRadius: real)
    | TriangleShape(p1: Point, p2: Point, p3: Point)
    | PathShape(commands: seq<PathCmd>)

  /** One draw batch: flattened `(x, y, depth)` vertices, their indices and a colour. */
  datatype GeometryData = GeometryData(vertices: seq<real>, indices: seq<nat>, color: Color)

  datatype Geometry = Geometry(
    depth: real,
    currentPath: Option<seq<PathCmd>>,
    stack: seq<Shape>,
    data: seq<GeometryData>)

  /** The indexed output of a tessellator (lyon's `VertexBuffers`). */
  datatype VertexBuffers = VertexBuffers(vertices: seq<Point>, indices: seq<nat>)

  /** Every index points at a vertex; lyon's builders only emit such buffers. */
  predicate WellFormed(buf: VertexBuffers) {
    forall k :: 0 <= k < |buf.indices| ==> buf.indices[k] < |buf.vertices|
  }

  datatype FillConfig = FillConfig(tolerance: real)

  datatype LineCap = ButtCap | SquareCap | RoundCap
  datatype LineJoin = MiterJoin | MiterClipJoin | RoundJoin | BevelJoin

  datatype StrokeConfig = StrokeConfig(tolerance: real, startCap: LineCap, endCap: LineCap, lineJoin: LineJoin)

  /** The options handed to the stroke tessellator: the configuration plus the line width. */
  datatype StrokeOptions = StrokeOptions(config: StrokeConfig, lineWidth: real)

  /** A tessellator never produces an index out of range. */
  ghost predicate FillTessellatorSound(tess: (seq<Shape>, FillConfig) -> VertexBuffers) {
    forall shapes, cfg :: WellFormed(tess(shapes, cfg))
  }

  ghost predicate StrokeTessellatorSound(tess: (seq<Shape>, StrokeOptions) -> VertexBuffers) {
    forall shapes, opts :: WellFormed(tess(shapes, opts))
  }

  /** What the next fill or stroke would draw: the queued shapes, followed by
      the open path once it is flushed. */
  function Pending(g: Geometry): seq<Shape> {
    match g.currentPath
    case None => g.stack
    case Some(cmds) => g.stack + [PathShape(cmds)]
  }

  /** `Geometry::new`. */
  function New(): (g: Geometry)
    ensures g.depth == 0.0 && g.data == [] && Pending(g) == []
  {
    Geometry(0.0, None, [], [])
  }

  /** `end_path`: the open path, if any, is built and pushed as one shape. */
  function EndPath(g: Geometry): (r: Geometry)
    ensures r.currentPath == None
    ensures r.stack == Pending(g)
    ensures r.data == g.data && r.depth == g.depth
  {
    match g.currentPath
    case None => g
    case Some(cmds) => g.(currentPath := None, stack := g.stack + [PathShape(cmds)])
  }

  /** `move_to`: flush any open path, then open a fresh one starting at (x, y). */
  function MoveTo(g: Geometry, x: real, y: real): (r: Geometry)
    ensures r.stack == Pending(g)
    ensures r.currentPath == Some([MoveCmd(Point(x, y))])
    ensures r.data == g.data && r.depth == g.depth
  {
    EndPath(g).(currentPath := Some([MoveCmd(Point(x, y))]))
  }

  /** Append one command to the open path. */
  function Append(g: Geometry, cmd: PathCmd): (r: Geometry)
    requires g.currentPath.Some?
    ensures r.currentPath == Some(g.currentPath.value + [cmd])
    ensures r.stack == g.stack && r.data == g.data && r.depth == g.depth
  {
    g.(currentPath := Some(g.currentPath.value + [cmd]))
  }

  /** `line_to`: with no open path it is exactly `move_to(x, y)`; otherwise one
      line segment is appended and nothing else changes. */
  function LineTo(g: Geometry, x: real, y: real): (r: Geometry)
    ensures g.currentPath.None? ==> r == MoveTo(g, x, y)
    ensures g.currentPath.Some? ==>
              r.currentPath == Some(g.currentPath.value + [LineCmd(Point(x, y))])
              && r.stack == g.stack && r.data == g.data && r.depth == g.depth
  {
    match g.currentPath
    case None => MoveTo(g, x, y)
    case Some(_) => Append(g, LineCmd(Point(x, y)))
  }

  /** Open a path at `p` when none is open (the guard of the curve builders and `arc_to`). */
  function EnsurePath(g: Geometry, p: Point): (r: Geometry)
    ensures r.currentPath.Some?
    ensures g.currentPath.Some? ==> r == g
    ensures g.currentPath.None? ==> r.currentPath == Some([MoveCmd(p)]) && r.stack == g.stack
    ensures r.data == g.data && r.depth == g.depth
  {
    if g.currentPath.None? then MoveTo(g, p.x, p.y) else g
  }

  /** `cubic_bezier_to`: with no open path a path is first started at the
      first control point; then the curve is appended. */
  function CubicBezierTo(g: Geometry, x1: real, y1: real, x2: real, y2: real, x3: real, y3: real): (r: Geometry)
    ensures r.stack == g.stack && r.data == g.data && r.depth == g.depth
    ensures var curve := CubicCmd(Point(x1, y1), Point(x2, y2), Point(x3, y3));
            r.currentPath == Some(match g.currentPath
                                  case None => [MoveCmd(Point(x1, y1)), curve]
                                  case Some(cmds) => cmds + [curve])
  {
    var curve := CubicCmd(Point(x1, y1), Point(x2, y2), Point(x3, y3));
    var e := EnsurePath(g, Point(x1, y1));
    assert g.currentPath.None? ==> e.currentPath.value + [curve] == [MoveCmd(Point(x1, y1)), curve];
    Append(e, curve)
  }

  /** `quadratic_bezier_to`: as for the cubic curve, with one control point. */
  function QuadraticBezierTo(g: Geometry, x1: real, y1: real, x2: real, y2: real): (r: Geometry)
    ensures r.stack == g.stack && r.data == g.data && r.depth == g.depth
    ensures var curve := QuadraticCmd(Point(x1, y1), Point(x2, y2));
            r.currentPath == Some(match g.currentPath
                                  case None => [MoveCmd(Point(x1, y1)), curve]
                                  case Some(cmds) => cmds + [curve])
  {
    var curve := QuadraticCmd(Point(x1, y1), Point(x2, y2));
    var e := EnsurePath(g, Point(x1, y1));
    assert g.currentPath.None? ==> e.currentPath.value + [curve] == [MoveCmd(Point(x1, y1)), curve];
    Append(e, curve)
  }

  /** `arc_to`: the arc itself is not drawn (the source leaves it unimplemented);
      the call only opens a path at (x, y) when none is open. */
  function ArcTo(g: Geometry, x: real, y: real, startAngle: real, endAngle: real, radius: real): (r: Geometry)
    ensures r.stack == g.stack && r.data == g.data && r.depth == g.depth
    ensures r.currentPath == Some(g.currentPath.UnwrapOr([MoveCmd(Point(x, y))]))
  {
    EnsurePath(g, Point(x, y))
  }

  /** `close_path`: closes the open path; without one it does nothing. */
  function ClosePath(g: Geometry): (r: Geometry)
    ensures r.stack == g.stack && r.data == g.data && r.depth == g.depth
    ensures g.currentPath.None? ==> r == g
    ensures g.currentPath.Some? ==> r.currentPath == Some(g.currentPath.value + [CloseCmd])
  {
    if g.currentPath.Some? then Append(g, CloseCmd) else g
  }

  /** Flush the open path, then queue one basic shape on top of the stack. */
  function PushShape(g: Geometry, s: Shape): (r: Geometry)
    ensures r.currentPath == None
    ensures r.stack == Pending(g) + [s]
    ensures r.data == g.data && r.depth == g.depth
  {
    var e := EndPath(g);
    e.(stack := e.stack + [s])
  }

  /** `circle`. */
  function Circle(g: Geometry, x: real, y: real, radius: real): (r: Geometry)
    ensures r.currentPath == None && r.stack == Pending(g) + [CircleShape(x, y, radius)]
    ensures r.data == g.data && r.depth == g.depth
  {
    PushShape(g, CircleShape(x, y, radius))
  }

  /** `rect`. */
  function Rect(g: Geometry, x: real, y: real, width: real, height: real): (r: Geometry)
    ensures r.currentPath == None && r.stack == Pending(g) + [RectShape(x, y, width, height)]
    ensures r.data == g.data && r.depth == g.depth
  {
    PushShape(g, RectShape(x, y, width, height))
  }

  /** `rounded_rect`. */
  function RoundedRect(g: Geometry, x: real, y: real, width: real, height: real, cornerRadius: real): (r: Geometry)
    ensures r.currentPath == None && r.stack == Pending(g) + [RoundedRectShape(x, y, width, height, cornerRadius)]
    ensures r.data == g.data && r.depth == g.depth
  {
    PushShape(g, RoundedRectShape(x, y, width, height, cornerRadius))
  }

  /** `triangle`. */
  function Triangle(g: Geometry, x1: real, y1: real, x2: real, y2: real, x3: real, y3: real): (r: Geometry)
    ensures r.currentPath == None
    ensures r.stack == Pending(g) + [TriangleShape(Point(x1, y1), Point(x2, y2), Point(x3, y3))]
    ensures r.data == g.data && r.depth == g.depth
  {
    PushShape(g, TriangleShape(Point(x1, y1), Point(x2, y2), Point(x3, y3)))
  }

  /** `vertex_buffer_as_vec`: three floats per index, `(x, y, depth)` of the
      indexed vertex, in index order. */
  function VertexBufferAsVec(buf: VertexBuffers, depth: real): (out: seq<real>)
    requires WellFormed(buf)
    ensures |out| == 3 * |buf.indices|
    ensures forall k :: 0 <= k < |buf.indices| ==>
              out[3 * k] == buf.vertices[buf.indices[k]].x
              && out[3 * k + 1] == buf.vertices[buf.indices[k]].y
              && out[3 * k + 2] == depth
    decreases |buf.indices|
  {
    if |buf.indices| == 0 then []
    else
      var n := |buf.indices| - 1;
      var v := buf.vertices[buf.indices[n]];
      VertexBufferAsVec(buf.(indices := buf.indices[..n]), depth) + [v.x, v.y, depth]
  }

  /** The indices emitted with a batch: `0, 1, ..., vertices.len() / 3 - 1`. */
  function SequentialIndices(vertexCount: nat): (ix: seq<nat>)
    ensures |ix| == vertexCount / 3
    ensures forall k :: 0 <= k < |ix| ==> ix[k] == k
  {
    seq(vertexCount / 3, k => k)
  }

  /** The shared tail of `fill_with_config` and `stroke_with_config`: drain the
      stack into one batch of the given vertices and colour. */
  function EmitBatch(g: Geometry, vertices: seq<real>, color: Color): (r: Geometry)
    requires g.currentPath.None?
    ensures r.currentPath == None && r.stack == [] && r.depth == g.depth
    ensures r.data == g.data + [GeometryData(vertices, SequentialIndices(|vertices|), color)]
  {
    g.(stack := [], data := g.data + [GeometryData(vertices, SequentialIndices(|vertices|), color)])
  }

  /** `fill_with_config`: every pending shape, the open path included, is
      tessellated into exactly one new batch carrying `color`, even when nothing
      was pending. */
  function FillWithConfig(g: Geometry, color: Color, config: FillConfig,
                          tess: (seq<Shape>, FillConfig) -> VertexBuffers): (r: Geometry)
    requires FillTessellatorSound(tess)
    ensures r.currentPath == None && r.stack == [] && r.depth == g.depth
    ensures |r.data| == |g.data| + 1 && r.data[..|g.data|] == g.data
    ensures var batch := r.data[|g.data|];
            && batch.color == color
            && batch.vertices == VertexBufferAsVec(tess(Pending(g), config), g.depth)
            && |batch.indices| == |tess(Pending(g), config).indices|
            && forall k :: 0 <= k < |batch.indices| ==> batch.indices[k] == k
  {
    var e := EndPath(g);
    var vertices := VertexBufferAsVec(tess(e.stack, config), e.depth);
    EmitBatch(e, vertices, color)
  }

  /** `stroke_with_config`: as `fill_with_config`, through the stroke
      tessellator with the line width added to the options. */
  function StrokeWithConfig(g: Geometry, color: Color, strength: real, config: StrokeConfig,
                            tess: (seq<Shape>, StrokeOptions) -> VertexBuffers): (r: Geometry)
    requires StrokeTessellatorSound(tess)
    ensures r.currentPath == None && r.stack == [] && r.depth == g.depth
    ensures |r.data| == |g.data| + 1 && r.data[..|g.data|] == g.data
    ensures var batch := r.data[|g.data|];
            var buf := tess(Pending(g), StrokeOptions(config, strength));
            && batch.color == color
            && batch.vertices == VertexBufferAsVec(buf, g.depth)
            && |batch.indices| == |buf.indices|
            && forall k :: 0 <= k < |batch.indices| ==> batch.indices[k] == k
  {
    var e := EndPath(g);
    var vertices := VertexBufferAsVec(tess(e.stack, StrokeOptions(config, strength)), e.depth);
    EmitBatch(e, vertices, color)
  }

  /** `clear`: no open path, no queued shape, no batch; the depth is kept. */
  function Clear(g: Geometry): (r: Geometry)
    ensures r.currentPath == None && r.stack == [] && r.data == []
    ensures r.depth == g.depth
    ensures r == New().(depth := g.depth)
  {
    g.(stack := [], data := [], currentPath := None)
  }

  // ---------------------------------------------------------------------------
  // Builder programs

  /** The calls a user makes on a geometry before filling or stroking it. */
  datatype BuildOp =
    | OpMoveTo(x: real, y: real)
    | OpLineTo(x: real, y: real)
    | OpCubicBezierTo(x1: real, y1: real, x2: real, y2: real, x3: real, y3: real)
    | OpQuadraticBezierTo(qx1: real, qy1: real, qx2: real, qy2: real)
    | OpArcTo(ax: real, ay: real, startAngle: real, endAngle: real, radius: real)
    | OpClosePath
    | OpCircle(cx: real, cy: real, radius: real)
    | OpRect(rx: real, ry: real, width: real, height: real)
    | OpRoundedRect(rrx: real, rry: real, rwidth: real, rheight: real, cornerRadius: real)
    | OpTriangle(tx1: real, ty1: real, tx2: real, ty2: real, tx3: real, ty3: real)

  function Apply(g: Geometry, op: BuildOp): Geometry {
    match op
    case OpMoveTo(x, y) => MoveTo(g, x, y)
    case OpLineTo(x, y) => LineTo(g, x, y)
    case OpCubicBezierTo(x1, y1, x2, y2, x3, y3) => CubicBezierTo(g, x1, y1, x2, y2, x3, y3)
    case OpQuadraticBezierTo(x1, y1, x2, y2) => QuadraticBezierTo(g, x1, y1, x2, y2)
    case OpArcTo(x, y, s, e, rad) => ArcTo(g, x, y, s, e, rad)
    case OpClosePath => ClosePath(g)
    case OpCircle(x, y, rad) => Circle(g, x, y, rad)
    case OpRect(x, y, w, h) => Rect(g, x, y, w, h)
    case OpRoundedRect(x, y, w, h, c) => RoundedRect(g, x, y, w, h, c)
    case OpTriangle(x1, y1, x2, y2, x3, y3) => Triangle(g, x1, y1, x2, y2, x3, y3)
  }

  function Run(g: Geometry, ops: seq<BuildOp>): Geometry
    decreases |ops|
  {
    if |ops| == 0 then g else Run(Apply(g, ops[0]), ops[1..])
  }

  /** A builder call never drops a queued shape, never touches the emitted batches
      and never changes the depth: the queued shapes only grow. */
  lemma ApplyKeepsQueue(g: Geometry, op: BuildOp)
    ensures g.stack <= Apply(g, op).stack
    ensures Apply(g, op).data == g.data && Apply(g, op).depth == g.depth
  {
  }

  /** A builder program only extends the stack: whatever was queued before is
      still queued, in the same order, after any sequence of builder calls. */
  lemma {:induction false} RunKeepsQueue(g: Geometry, ops: seq<BuildOp>)
    ensures g.stack <= Run(g, ops).stack
    ensures Run(g, ops).data == g.data && Run(g, ops).depth == g.depth
    decreases |ops|
  {
    if |ops| > 0 {
      ApplyKeepsQueue(g, ops[0]);
      RunKeepsQueue(Apply(g, ops[0]), ops[1..]);
    }
  }

  /** Only the basic-shape calls and `move_to` push onto the stack themselves;
      `close_path`, `arc_to`, `line_to` on an open path and the curves never do. */
  lemma PathCallsDoNotPush(g: Geometry, op: BuildOp)
    requires op.OpClosePath? || op.OpArcTo? || op.OpCubicBezierTo? || op.OpQuadraticBezierTo?
             || (op.OpLineTo? && g.currentPath.Some?)
    ensures Apply(g, op).stack == g.stack
  {
  }

  /** Each basic shape lands on top of the stack, right after the flushed path. */
  lemma ShapeCallsPushOne(g: Geometry, op: BuildOp)
    requires op.OpCircle? || op.OpRect? || op.OpRoundedRect? || op.OpTriangle?
    ensures var r := Apply(g, op);
            r.currentPath.None? && |r.stack| == |Pending(g)| + 1 && r.stack[..|Pending(g)|] == Pending(g)
  {
  }
}
