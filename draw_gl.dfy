/**
 * The draw-buffer bookkeeping of the annotator's WebGL context: draw actions
 * append quads to parallel vertex, colour, texture-coordinate and index
 * arrays, which are later handed to the graphics pipeline.  Only the
 * bookkeeping and the clamping are modelled; the trigonometry that turns a
 * line direction into a unit vector is a parameter of the context.
 */
module DrawGl {
  import opened Wrappers
  import JsArray

  /** A point in view-pixel coordinates, `[x, y]` in the source. */
  datatype Point = Point(x: real, y: real)

  /** The accumulated draw actions: 2 floats per vertex, RGBA per vertex, 2 uv floats per vertex, 6 indices per quad. */
  datatype DrawBuffer = DrawBuffer(vertices: seq<real>, colors: seq<real>, uv: seq<real>, indices: seq<int>)

  /** The buffer `beginDraw` creates. */
  const Empty := DrawBuffer([], [], [], [])

  /** The two triangles of a quad, as offsets from its first vertex. */
  const QuadIndices: seq<int> := [0, 1, 2, 0, 2, 3]

  /** Default width and alpha of a pen. */
  const DefaultWidth: real := 3.0
  const DefaultAlpha: real := 255.0

  /** A well-formed buffer: whole vertices only, one uv pair per vertex, every index names an existing vertex, and no pen vertex samples the image. */
  ghost predicate WellFormed(b: DrawBuffer) {
    && |b.vertices| % 2 == 0
    && |b.uv| == |b.vertices|
    && (forall i | 0 <= i < |b.indices| :: 0 <= b.indices[i] < |b.vertices| / 2)
    && (forall i | 0 <= i < |b.uv| :: b.uv[i] == -1.0)
  }

  /** The buffer a draw action extends: a missing one is begun first. */
  function Base(b: Option<DrawBuffer>): (r: DrawBuffer)
    ensures b.None? ==> r == Empty
    ensures b.Some? ==> r == b.value
  {
    if b.Some? then b.value else Empty
  }

  /** `Math.min(Math.max(v, 0), hi)`. */
  function Clamp(v: real, hi: real): (r: real)
    ensures 0.0 <= hi ==> 0.0 <= r <= hi
    ensures 0.0 <= v <= hi ==> r == v
    ensures v < 0.0 <= hi ==> r == 0.0
    ensures 0.0 <= hi < v ==> r == hi
  {
    var m := if v > 0.0 then v else 0.0;
    if m < hi then m else hi
  }

  /**
   * The four corners of a line of half-thickness `margin`, clamped into the
   * view: start and finish pulled back by the margin, then finish and start
   * pushed forward by it.
   */
  function LineVertices(start: Point, finish: Point, margin: Point, width: real, height: real): (r: seq<real>)
    ensures |r| == 8
    ensures 0.0 <= width ==> forall k | 0 <= k < 4 :: 0.0 <= r[2 * k] <= width
    ensures 0.0 <= height ==> forall k | 0 <= k < 4 :: 0.0 <= r[2 * k + 1] <= height
    ensures 0.0 <= start.x - margin.x <= width ==> r[0] == start.x - margin.x
    ensures 0.0 <= finish.x + margin.x <= width ==> r[4] == finish.x + margin.x
  {
    [ Clamp(start.x - margin.x, width), Clamp(start.y - margin.y, height),
      Clamp(finish.x - margin.x, width), Clamp(finish.y - margin.y, height),
      Clamp(finish.x + margin.x, width), Clamp(finish.y + margin.y, height),
      Clamp(start.x + margin.x, width), Clamp(start.y + margin.y, height) ]
  }

  /** `n` copies of `s` one after another. */
  function Repeat<T>(s: seq<T>, n: nat): (r: seq<T>)
    ensures |r| == n * |s|
    ensures forall i | 0 <= i < |r| :: r[i] in s
  {
    if n == 0 then [] else Repeat(s, n - 1) + s
  }

  /** Each element of `q` moved up by `k`. */
  function Shift(q: seq<int>, k: int): (r: seq<int>)
    ensures |r| == |q|
    ensures forall i | 0 <= i < |q| :: r[i] == q[i] + k
  {
    seq(|q|, i requires 0 <= i < |q| => q[i] + k)
  }

  /** `b` after one line: its 8 coordinates, 4 RGBA colours, 4 untextured uv pairs and the quad's 6 indices. */
  function WithLine(b: DrawBuffer, quad: seq<real>, pen: seq<real>, alpha: real): DrawBuffer {
    DrawBuffer(
      b.vertices + quad,
      b.colors + Repeat(pen + [alpha], 4),
      b.uv + Repeat([-1.0, -1.0], 4),
      b.indices + Shift(QuadIndices, |b.vertices| / 2))
  }

  /**
   * A line grows each array by a fixed amount, keeps every earlier entry, and
   * keeps the buffer well formed: its indices are the quad's offsets from the
   * old vertex count, so they name the four vertices just added.
   */
  lemma LineGrowth(b: DrawBuffer, quad: seq<real>, pen: seq<real>, alpha: real)
    requires WellFormed(b) && |quad| == 8
    ensures var b' := WithLine(b, quad, pen, alpha);
      && |b'.vertices| == |b.vertices| + 8 && b'.vertices[..|b.vertices|] == b.vertices
      && |b'.uv| == |b.uv| + 8 && b'.uv[..|b.uv|] == b.uv
      && |b'.colors| == |b.colors| + 4 * (|pen| + 1) && b'.colors[..|b.colors|] == b.colors
      && |b'.indices| == |b.indices| + 6 && b'.indices[..|b.indices|] == b.indices
      && (forall i | 0 <= i < 6 :: b'.indices[|b.indices| + i] == QuadIndices[i] + |b.vertices| / 2)
      && WellFormed(b')
  {
    var b' := WithLine(b, quad, pen, alpha);
    assert |b'.vertices| / 2 == |b.vertices| / 2 + 4;
    forall i | 0 <= i < |b'.indices|
      ensures 0 <= b'.indices[i] < |b'.vertices| / 2
    {
      if i >= |b.indices| {
        assert b'.indices[i] == QuadIndices[i - |b.indices|] + |b.vertices| / 2;
      }
    }
  }

  /**
   * The pen-colour and index loops of `drawLine`, on the arrays of `b`: four
   * colour-and-alpha pushes with two -1 uv entries each, the eight clamped
   * coordinates appended, then the six quad indices shifted by the old
   * vertex count.
   */
  method AppendLine(b: DrawBuffer, quad: seq<real>, pen: seq<real>, alpha: real) returns (b': DrawBuffer)
    requires |quad| == 8
    ensures b' == WithLine(b, quad, pen, alpha)
  {
    var startIdx := |b.vertices| / 2;
    var colors := b.colors;
    var uv := b.uv;
    for idx := 0 to |quad| / 2
      invariant colors == b.colors + Repeat(pen + [alpha], idx)
      invariant uv == b.uv + Repeat([-1.0, -1.0], idx)
    {
      colors := colors + pen;
      colors := colors + [alpha];
      uv := uv + [-1.0];
      uv := uv + [-1.0];
    }
    var vertices := b.vertices + quad;
    var indices := b.indices;
    for idx := 0 to |QuadIndices|
      invariant indices == b.indices + Shift(QuadIndices[..idx], startIdx)
    {
      assert Shift(QuadIndices[..idx + 1], startIdx) == Shift(QuadIndices[..idx], startIdx) + [QuadIndices[idx] + startIdx];
      indices := indices + [QuadIndices[idx] + startIdx];
    }
    assert QuadIndices[..|QuadIndices|] == QuadIndices;
    b' := DrawBuffer(vertices, colors, uv, indices);
  }

  /** `b` after one line per quad of `quads`, in order. */
  function Lines(b: DrawBuffer, quads: seq<seq<real>>, pen: seq<real>, alpha: real): DrawBuffer {
    if quads == [] then b
    else WithLine(Lines(b, quads[..|quads| - 1], pen, alpha), quads[|quads| - 1], pen, alpha)
  }

  /** Drawing the first `i + 1` quads is drawing the first `i`, then quad `i`. */
  lemma LinesSnoc(b: DrawBuffer, quads: seq<seq<real>>, i: nat, pen: seq<real>, alpha: real)
    requires i < |quads|
    ensures Lines(b, quads[..i + 1], pen, alpha) == WithLine(Lines(b, quads[..i], pen, alpha), quads[i], pen, alpha)
  {
    assert quads[..i + 1][..i] == quads[..i];
  }

  /** `n` lines add one quad each: 8n coordinates and 6n indices, every index naming an existing vertex. */
  lemma {:induction false} LinesGrowth(b: DrawBuffer, quads: seq<seq<real>>, pen: seq<real>, alpha: real)
    requires WellFormed(b) && forall i | 0 <= i < |quads| :: |quads[i]| == 8
    ensures var b' := Lines(b, quads, pen, alpha);
      && WellFormed(b')
      && |b'.vertices| == |b.vertices| + 8 * |quads| && b'.vertices[..|b.vertices|] == b.vertices
      && |b'.indices| == |b.indices| + 6 * |quads| && b'.indices[..|b.indices|] == b.indices
  {
    if quads != [] {
      var init := quads[..|quads| - 1];
      LinesGrowth(b, init, pen, alpha);
      var p := Lines(b, init, pen, alpha);
      LineGrowth(p, quads[|quads| - 1], pen, alpha);
      var b' := Lines(b, quads, pen, alpha);
      assert b'.vertices[..|b.vertices|] == p.vertices[..|p.vertices|][..|b.vertices|];
      assert b'.indices[..|b.indices|] == p.indices[..|p.indices|][..|b.indices|];
    }
  }

  /** Lower and upper bounds that may be infinite, as the running minimum and maximum start out. */
  datatype ExtReal = NegInf | Fin(r: real) | PosInf | NaN

  /** `x < m` for a finite `x`. */
  predicate Below(x: real, m: ExtReal) {
    match m
    case PosInf => true
    case Fin(r) => x < r
    case _ => false
  }

  /** `x > m` for a finite `x`. */
  predicate Above(x: real, m: ExtReal) {
    match m
    case NegInf => true
    case Fin(r) => x > r
    case _ => false
  }

  /** IEEE subtraction on extended reals. */
  function Sub(a: ExtReal, b: ExtReal): (r: ExtReal)
    ensures a.Fin? && b.Fin? ==> r == Fin(a.r - b.r)
    ensures a == NegInf && b == PosInf ==> r == NegInf
  {
    match (a, b)
    case (Fin(x), Fin(y)) => Fin(x - y)
    case (NaN, _) => NaN
    case (_, NaN) => NaN
    case (PosInf, PosInf) => NaN
    case (NegInf, NegInf) => NaN
    case (PosInf, _) => PosInf
    case (NegInf, _) => NegInf
    case (Fin(_), PosInf) => NegInf
    case (Fin(_), NegInf) => PosInf
  }

  /** One step of a running minimum: `x < m ? x : m`. */
  function Lower(m: ExtReal, x: real): ExtReal {
    if Below(x, m) then Fin(x) else m
  }

  /** One step of a running maximum: `x > m ? x : m`. */
  function Higher(m: ExtReal, x: real): ExtReal {
    if Above(x, m) then Fin(x) else m
  }

  /** The running minimum of `s`, taken left to right from +Infinity. */
  function Lowest(s: seq<real>): ExtReal {
    if s == [] then PosInf else Lower(Lowest(s[..|s| - 1]), s[|s| - 1])
  }

  /** The running maximum of `s`, taken left to right from -Infinity. */
  function Highest(s: seq<real>): ExtReal {
    if s == [] then NegInf else Higher(Highest(s[..|s| - 1]), s[|s| - 1])
  }

  /** Extending a sequence takes one more step of each running extreme. */
  lemma ExtremesSnoc(s: seq<real>, x: real)
    ensures Lowest(s + [x]) == Lower(Lowest(s), x)
    ensures Highest(s + [x]) == Higher(Highest(s), x)
  {
    assert (s + [x])[..|s|] == s;
  }

  /** The running minimum is +Infinity on nothing, and otherwise the least element. */
  lemma {:induction false} LowestSpec(s: seq<real>)
    ensures s == [] ==> Lowest(s) == PosInf
    ensures s != [] ==> (Lowest(s).Fin?
      && (forall i | 0 <= i < |s| :: Lowest(s).r <= s[i])
      && (exists i | 0 <= i < |s| :: s[i] == Lowest(s).r))
  {
    if s != [] {
      var p := s[..|s| - 1];
      LowestSpec(p);
      if p != [] {
        var j :| 0 <= j < |p| && p[j] == Lowest(p).r;
        assert s[j] == p[j];
      }
      if Below(s[|s| - 1], Lowest(p)) {
        assert s[|s| - 1] == Lowest(s).r;
      }
      forall i | 0 <= i < |s| ensures Lowest(s).r <= s[i] {
        if i < |p| {
          assert s[i] == p[i];
        }
      }
    }
  }

  /** The running maximum is -Infinity on nothing, and otherwise the greatest element. */
  lemma {:induction false} HighestSpec(s: seq<real>)
    ensures s == [] ==> Highest(s) == NegInf
    ensures s != [] ==> (Highest(s).Fin?
      && (forall i | 0 <= i < |s| :: s[i] <= Highest(s).r)
      && (exists i | 0 <= i < |s| :: s[i] == Highest(s).r))
  {
    if s != [] {
      var p := s[..|s| - 1];
      HighestSpec(p);
      if p != [] {
        var j :| 0 <= j < |p| && p[j] == Highest(p).r;
        assert s[j] == p[j];
      }
      if Above(s[|s| - 1], Highest(p)) {
        assert s[|s| - 1] == Highest(s).r;
      }
      forall i | 0 <= i < |s| ensures s[i] <= Highest(s).r {
        if i < |p| {
          assert s[i] == p[i];
        }
      }
    }
  }

  /** Every other element of `v` from position `off`, the first `n` of them. */
  function Column(v: seq<real>, off: nat, n: nat): (r: seq<real>)
    requires off < 2 && 2 * n <= |v| + 1 - off
    ensures |r| == n
    ensures forall k | 0 <= k < n :: r[k] == v[2 * k + off]
  {
    seq(n, k requires 0 <= k < n => v[2 * k + off])
  }

  /** The x coordinates of a flat vertex list: every even position, including a trailing lone x. */
  function Xs(v: seq<real>): (r: seq<real>)
    ensures |r| == (|v| + 1) / 2 && forall k | 0 <= k < |r| :: r[k] == v[2 * k]
  {
    Column(v, 0, (|v| + 1) / 2)
  }

  /** The y coordinates: every odd position. */
  function Ys(v: seq<real>): (r: seq<real>)
    ensures |r| == |v| / 2 && forall k | 0 <= k < |r| :: r[k] == v[2 * k + 1]
  {
    Column(v, 1, |v| / 2)
  }

  /** `[minX, minY, width, height]`. */
  datatype Bounds = Bounds(x: ExtReal, y: ExtReal, w: ExtReal, h: ExtReal)

  /** The box `computeBounds` returns: the running extremes of each axis, width and height as their differences. */
  function BoundsOf(v: seq<real>): Bounds {
    var lx, hx, ly, hy := Lowest(Xs(v)), Highest(Xs(v)), Lowest(Ys(v)), Highest(Ys(v));
    Bounds(lx, ly, Sub(hx, lx), Sub(hy, ly))
  }

  /** `c` lies in [lo, lo + d], and reaches both ends. */
  ghost predicate Box(c: seq<real>, lo: ExtReal, d: ExtReal) {
    && lo.Fin? && d.Fin? && d.r >= 0.0
    && (forall k | 0 <= k < |c| :: lo.r <= c[k] <= lo.r + d.r)
    && (exists k | 0 <= k < |c| :: c[k] == lo.r)
    && (exists k | 0 <= k < |c| :: c[k] == lo.r + d.r)
  }

  /** A non-empty sequence lies in the box its running extremes span. */
  lemma ExtremesBox(c: seq<real>)
    requires c != []
    ensures Box(c, Lowest(c), Sub(Highest(c), Lowest(c)))
  {
    LowestSpec(c);
    HighestSpec(c);
    assert Lowest(c).r <= c[0] <= Highest(c).r;
  }

  /**
   * With no vertices the box is (+Inf, +Inf, -Inf, -Inf).  Otherwise it is
   * the tightest box around the coordinates: every x coordinate lies in
   * [x, x + w] and some x is at each end, and the same for y once there is
   * one.
   */
  lemma BoundsSpec(v: seq<real>)
    ensures v == [] ==> BoundsOf(v) == Bounds(PosInf, PosInf, NegInf, NegInf)
    ensures v != [] ==> Box(Xs(v), BoundsOf(v).x, BoundsOf(v).w)
    ensures |v| >= 2 ==> Box(Ys(v), BoundsOf(v).y, BoundsOf(v).h)
  {
    if v != [] {
      ExtremesBox(Xs(v));
    }
    if |v| >= 2 {
      ExtremesBox(Ys(v));
    }
  }

  /** The vertex quad of a `width` x `height` image: bottom left, top left, top right, bottom right. */
  function ComputeQuad(width: real, height: real): (r: seq<real>)
    ensures |r| == 8
    ensures forall k | 0 <= k < 4 :: (r[2 * k] == 0.0 || r[2 * k] == width) && (r[2 * k + 1] == 0.0 || r[2 * k + 1] == height)
  {
    [0.0, height, 0.0, 0.0, width, 0.0, width, height]
  }

  /** A sequence of two values, both present, has the smaller as its running minimum and the larger as its running maximum. */
  lemma TwoValued(c: seq<real>, lo: real, hi: real, i: nat, j: nat)
    requires lo <= hi && i < |c| && j < |c| && c[i] == lo && c[j] == hi
    requires forall k | 0 <= k < |c| :: c[k] == lo || c[k] == hi
    ensures Lowest(c) == Fin(lo) && Highest(c) == Fin(hi)
  {
    LowestSpec(c);
    HighestSpec(c);
  }

  /** The image quad's bounding box is the image itself. */
  lemma QuadBounds(width: real, height: real)
    requires 0.0 <= width && 0.0 <= height
    ensures BoundsOf(ComputeQuad(width, height)) == Bounds(Fin(0.0), Fin(0.0), Fin(width), Fin(height))
  {
    var q := ComputeQuad(width, height);
    assert Xs(q) == Column(q, 0, 4) && Ys(q) == Column(q, 1, 4);
    QuadAxis(q, 0, 0, 2, 0.0, width);
    QuadAxis(q, 1, 1, 0, 0.0, height);
    var lx, hx, ly, hy := Lowest(Xs(q)), Highest(Xs(q)), Lowest(Ys(q)), Highest(Ys(q));
    assert lx == Fin(0.0) && hx == Fin(width) && ly == Fin(0.0) && hy == Fin(height);
    assert BoundsOf(q) == Bounds(lx, ly, Sub(hx, lx), Sub(hy, ly));
  }

  /** One axis of the image quad: its coordinates take two values, both present. */
  lemma QuadAxis(q: seq<real>, off: nat, i: nat, j: nat, lo: real, hi: real)
    requires |q| == 8 && off < 2 && i < 4 && j < 4 && lo <= hi
    requires q[2 * i + off] == lo && q[2 * j + off] == hi
    requires forall k | 0 <= k < 4 :: q[2 * k + off] == lo || q[2 * k + off] == hi
    ensures Lowest(Column(q, off, 4)) == Fin(lo) && Highest(Column(q, off, 4)) == Fin(hi)
  {
    var c := Column(q, off, 4);
    TwoValued(c, lo, hi, i, j);
  }

  /** The quad's two triangles between them use each of its four corners. */
  lemma QuadCorners()
    ensures forall k | 0 <= k < |QuadIndices| :: 0 <= QuadIndices[k] < 4
    ensures forall c | 0 <= c < 4 :: c in QuadIndices
  {
    assert QuadIndices[3] == 0 && QuadIndices[1] == 1 && QuadIndices[2] == 2 && QuadIndices[5] == 3;
  }

  /** The draw context of one canvas. */
  class DrawGL {
    /** The draw actions accumulated since `beginDraw`, or none. */
    var drawBuffer: Option<DrawBuffer>
    /** The view's size in pixels. */
    const clientWidth: real
    const clientHeight: real
    /** The pen colour used when a draw action gives none (`color.BLUE`). */
    const defaultPen: seq<real>
    /** `[cos(theta), sin(theta)]` for the angle `calcTheta(start, finish)` of a line. */
    const direction: (Point, Point) -> Point

    ghost predicate Valid()
      reads this
    {
      drawBuffer.Some? ==> WellFormed(drawBuffer.value)
    }

    constructor(clientWidth: real, clientHeight: real, defaultPen: seq<real>, direction: (Point, Point) -> Point)
      ensures Valid() && drawBuffer.None?
      ensures this.clientWidth == clientWidth && this.clientHeight == clientHeight
      ensures this.defaultPen == defaultPen && this.direction == direction
    {
      this.clientWidth := clientWidth;
      this.clientHeight := clientHeight;
      this.defaultPen := defaultPen;
      this.direction := direction;
      drawBuffer := None;
    }

    /**
     * The thickness offset of a line of the given width: half the width along
     * the unit vector at `theta + PI/2`, which is `[-sin(theta), cos(theta)]`.
     */
    function Margin(start: Point, finish: Point, width: real): (m: Point)
      ensures var d := direction(start, finish);
        d.x * d.x + d.y * d.y == 1.0 ==> m.x * m.x + m.y * m.y == width * width / 4.0
    {
      var d := direction(start, finish);
      Point(-d.y * (width / 2.0), d.x * (width / 2.0))
    }

    /** The clamped corners `drawLine(start, finish, ..., width)` appends. */
    function LineQuad(start: Point, finish: Point, width: real): (r: seq<real>)
      ensures |r| == 8
      ensures 0.0 <= clientWidth ==> forall k | 0 <= k < 4 :: 0.0 <= r[2 * k] <= clientWidth
      ensures 0.0 <= clientHeight ==> forall k | 0 <= k < 4 :: 0.0 <= r[2 * k + 1] <= clientHeight
    {
      LineVertices(start, finish, Margin(start, finish, width), clientWidth, clientHeight)
    }

    /** The pen colour a draw action uses. */
    function Pen(penColor: Option<seq<real>>): (r: seq<real>)
      ensures penColor.Some? ==> r == penColor.value
      ensures penColor.None? ==> r == defaultPen
    {
      if penColor.Some? then penColor.value else defaultPen
    }

    method BeginDraw()
      modifies this`drawBuffer
      ensures drawBuffer == Some(Empty) && Valid()
    {
      drawBuffer := Some(Empty);
    }

    method DumpDraw() returns (oldBuffer: Option<DrawBuffer>)
      modifies this`drawBuffer
      ensures oldBuffer == old(drawBuffer) && drawBuffer.None? && Valid()
    {
      oldBuffer := drawBuffer;
      drawBuffer := None;
    }

    /**
     * Appends a line from `start` to `finish`, beginning a buffer when there is
     * none; a missing pen colour, width or alpha takes its default.
     */
    method DrawLine(start: Point, finish: Point, penColor: Option<seq<real>>, width: Option<real>, alpha: Option<real>)
      requires Valid()
      modifies this`drawBuffer
      ensures Valid()
      ensures drawBuffer == Some(WithLine(Base(old(drawBuffer)), LineQuad(start, finish, width.GetOr(DefaultWidth)), Pen(penColor), alpha.GetOr(DefaultAlpha)))
    {
      if drawBuffer.None? {
        BeginDraw();
      }
      var pen := Pen(penColor);
      var w := width.GetOr(DefaultWidth);
      var a := alpha.GetOr(DefaultAlpha);
      var quad := LineQuad(start, finish, w);
      LineGrowth(drawBuffer.value, quad, pen, a);
      var b := AppendLine(drawBuffer.value, quad, pen, a);
      drawBuffer := Some(b);
    }

    /**
     * The line `drawPolygon` draws for point `i`: from it toward the next point
     * (wrapping round), overshooting that point by half the width.
     */
    function Side(points: seq<Point>, i: nat, width: real): (r: (Point, Point))
      requires i < |points|
      ensures r.0 == points[i]
    {
      var start, next := points[i], points[(i + 1) % |points|];
      var d := direction(start, next);
      (start, Point(next.x + d.x * (width / 2.0), next.y + d.y * (width / 2.0)))
    }

    /** The clamped corners of each line `drawPolygon` draws, one per point. */
    function PolygonQuads(points: seq<Point>, width: real): (r: seq<seq<real>>)
      ensures |r| == |points|
      ensures forall i | 0 <= i < |r| :: |r[i]| == 8
    {
      seq(|points|, i requires 0 <= i < |points| => var side := Side(points, i, width); LineQuad(side.0, side.1, width))
    }

    /** Draws a closed polygon, one line per point; with fewer than 3 points nothing is drawn. */
    method DrawPolygon(points: seq<Point>, penColor: Option<seq<real>>, width: Option<real>, alpha: Option<real>)
      requires Valid()
      modifies this`drawBuffer
      ensures Valid()
      ensures |points| < 3 ==> drawBuffer == old(drawBuffer)
      ensures |points| >= 3 ==> drawBuffer == Some(Lines(Base(old(drawBuffer)), PolygonQuads(points, width.GetOr(DefaultWidth)), Pen(penColor), alpha.GetOr(DefaultAlpha)))
    {
      if |points| < 3 {
        return;
      }
      var w := width.GetOr(DefaultWidth);
      ghost var quads := PolygonQuads(points, w);
      ghost var pen, a := Pen(penColor), alpha.GetOr(DefaultAlpha);
      var length := |points|;
      for idx := 0 to length
        invariant Valid()
        invariant idx == 0 ==> drawBuffer == old(drawBuffer)
        invariant idx > 0 ==> drawBuffer == Some(Lines(Base(old(drawBuffer)), quads[..idx], pen, a))
      {
        var side := Side(points, idx, w);
        assert quads[idx] == LineQuad(side.0, side.1, w);
        LinesSnoc(Base(old(drawBuffer)), quads, idx, pen, a);
        DrawLine(side.0, side.1, penColor, Some(w), alpha);
      }
      assert quads[..length] == quads;
    }

    /** The bounding box of a flat vertex list, by one pass keeping running extremes. */
    method ComputeBounds(vertices: seq<real>) returns (r: Bounds)
      ensures r == BoundsOf(vertices)
    {
      var total := |vertices|;
      var minX, minY, maxX, maxY := PosInf, PosInf, NegInf, NegInf;
      var idx := 0;
      // The x and y coordinates seen so far.
      ghost var xs: seq<real>, ys: seq<real> := [], [];
      while idx < total
        invariant idx == 2 * |xs| && idx <= total + 1
        invariant 2 * |ys| <= total && |ys| <= |xs| <= |ys| + 1 && (|ys| < |xs| ==> 2 * |ys| + 1 == total)
        invariant forall k | 0 <= k < |xs| :: xs[k] == vertices[2 * k]
        invariant forall k | 0 <= k < |ys| :: ys[k] == vertices[2 * k + 1]
        invariant minX == Lowest(xs) && maxX == Highest(xs)
        invariant minY == Lowest(ys) && maxY == Highest(ys)
      {
        assert |ys| == |xs|;
        if Below(vertices[idx], minX) {
          minX := Fin(vertices[idx]);
        }
        if Above(vertices[idx], maxX) {
          maxX := Fin(vertices[idx]);
        }
        // An odd count leaves the last x without a y: comparisons with `undefined` are false.
        if idx + 1 < total {
          if Below(vertices[idx + 1], minY) {
            minY := Fin(vertices[idx + 1]);
          }
          if Above(vertices[idx + 1], maxY) {
            maxY := Fin(vertices[idx + 1]);
          }
          ExtremesSnoc(ys, vertices[idx + 1]);
          ys := ys + [vertices[idx + 1]];
        }
        ExtremesSnoc(xs, vertices[idx]);
        xs := xs + [vertices[idx]];
        idx := idx + 2;
      }
      assert xs == Xs(vertices) && ys == Ys(vertices);
      r := Bounds(minX, minY, Sub(maxX, minX), Sub(maxY, minY));
    }
  }
}
