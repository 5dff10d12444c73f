/** The shape readers of the layer-data reader: one object record is a 2-byte (shape, type)
    header, a shape-specific payload, and two null-terminated strings. */
module Shapes {
  import opened Outcomes
  import opened LittleEndian
  import opened Floats
  import opened Structs

  // Shape codes, as stored in the record header and in the decoded object.
  const POLYGON := 0
  const ELLIPSE := 1
  const CIRCLE := 2
  const POLYLINE := 3
  const LINE := 4
  const RECTANGLE := 5
  const SQUARE := 6
  const TEXT := 7

  // The formats the readers pass to `convert`.
  const COUNT_FMT: seq<Field> := [I32]                              // `<i`
  const OBJECT_FMT: seq<Field> := [I8, I8]                          // `<2b`
  const LINE_FMT: seq<Field> := [F64, F64, F64, F64]                // `<4d`
  const CIRCLE_FMT: seq<Field> := [I32, F64, F64, F64]              // `<i3d`
  const SQUARE_FMT: seq<Field> := [I32, F64, F64, F64, F64]         // `<i4d`
  const RECTANGLE_FMT: seq<Field> := [I32, F64, F64, F64, F64, F64] // `<i5d`
  const ELLIPSE_FMT: seq<Field> := [I32, F64, F64, F64, F64, F64]   // `<i5d`
  const TEXT_FMT: seq<Field> := [I32, F64, F64]                     // `<i2d`

  lemma FormatSizes()
    ensures Size(COUNT_FMT) == 4 && Size(OBJECT_FMT) == 2 && Size(LINE_FMT) == 32
    ensures Size(CIRCLE_FMT) == 28 && Size(SQUARE_FMT) == 36 && Size(RECTANGLE_FMT) == 44
    ensures Size(ELLIPSE_FMT) == 44 && Size(TEXT_FMT) == 20
  {
    assert LINE_FMT == [F64] + Repeat(F64, 3);
    assert CIRCLE_FMT == [I32] + Repeat(F64, 3);
    assert SQUARE_FMT == [I32] + Repeat(F64, 4);
    assert RECTANGLE_FMT == [I32] + Repeat(F64, 5);
    assert TEXT_FMT == [I32] + Repeat(F64, 2);
    assert OBJECT_FMT[1..] == [I8];
  }

  /** The vertex arrays of a shape (`x_pts`, `y_pts`), or the anchor of a text object,
      which has none. */
  datatype Geometry = Vertices(xs: seq<Num>, ys: seq<Num>) | Anchor(x: Num, y: Num)

  /** What a shape reader returns: the `shape` tag and the geometry. */
  datatype Body = Body(shape: int, geometry: Geometry)

  /** A decoded object: `shape`, points, `text`, `additional` and `type`. */
  datatype Obj = Obj(shape: int, geometry: Geometry, text: string, additional: string, typ: int)

  predicate WellFormed(g: Geometry)
  {
    g.Vertices? ==> |g.xs| == |g.ys|
  }

  /** A closed ring: at least one vertex and the last equal to the first. */
  predicate Closed(g: Geometry)
  {
    g.Vertices? && |g.xs| == |g.ys| > 0 && g.xs[0] == g.xs[|g.xs| - 1] && g.ys[0] == g.ys[|g.ys| - 1]
  }

  /** The float held by a value of an `f` or `d` field (every such field holds one; any
      other value has none, and 0 stands in). */
  function NumOf(v: Value): (n: Num)
    ensures v.Float? ==> n == v.x
  {
    if v.Float? then v.x else Whole(0)
  }

  /** The floats of a tuple of `f` or `d` fields. */
  function FloatsOf(vs: seq<Value>): (ns: seq<Num>)
    ensures |ns| == |vs| && forall k :: 0 <= k < |vs| ==> ns[k] == NumOf(vs[k])
  {
    seq(|vs|, k requires 0 <= k < |vs| => NumOf(vs[k]))
  }

  /** `pts[::2]` and `pts[1::2]` of an even-length tuple. */
  function Deinterleave(pts: seq<Num>): (g: Geometry)
    requires |pts| % 2 == 0
    ensures g.Vertices? && |g.xs| == |g.ys| == |pts| / 2
    ensures forall k :: 0 <= k < |pts| / 2 ==> g.xs[k] == pts[2 * k] && g.ys[k] == pts[2 * k + 1]
  {
    Vertices(seq(|pts| / 2, k requires 0 <= k < |pts| / 2 => pts[2 * k]),
             seq(|pts| / 2, k requires 0 <= k < |pts| / 2 => pts[2 * k + 1]))
  }

  /** A list of n (x, y) pairs has even length. */
  lemma EvenLength(xy: seq<Num>, n: nat)
    requires |xy| == 2 * n
    ensures |xy| % 2 == 0 && |xy| / 2 == n
  {
  }

  /** `ReadCircle`: `radius * cos(a) + x_orig`, `radius * sin(a) + y_orig` over the 101 angles. */
  function CirclePoints(xOrig: Num, yOrig: Num, radius: Num): (g: Geometry)
    ensures Closed(g) && |g.xs| == 101
  {
    var a := Angles();
    Vertices(seq(101, k requires 0 <= k < 101 => Plus(Times(radius, Cos(a[k])), xOrig)),
             seq(101, k requires 0 <= k < 101 => Plus(Times(radius, Sin(a[k])), yOrig)))
  }

  /** The single-read ellipse: the axis-aligned ellipse of the two axes rotated by `angle` about
      its centre, over the same 101 angles. */
  function EllipsePoints(xOrig: Num, yOrig: Num, major: Num, minor: Num, angle: Num): (g: Geometry)
    ensures Closed(g) && |g.xs| == 101
  {
    var a := Angles();
    var ca, sa := Cos(angle), Sin(angle);
    Vertices(
      seq(101, k requires 0 <= k < 101 =>
        Plus(Minus(Times(Times(major, ca), Cos(a[k])), Times(Times(minor, sa), Sin(a[k]))), xOrig)),
      seq(101, k requires 0 <= k < 101 =>
        Plus(Plus(Times(Times(major, sa), Cos(a[k])), Times(Times(minor, ca), Sin(a[k]))), yOrig)))
  }

  /** `ReadRectangle`: the corners (0,0), (w,0), (w,h), (0,h), (0,0) with w, h twice the stored
      half-extents, rotated by `angle`, then shifted by the origin minus (w/2, h/2). */
  function RectanglePoints(xOrig: Num, yOrig: Num, width: Num, height: Num, angle: Num): (g: Geometry)
    ensures Closed(g) && |g.xs| == 5
  {
    var w, h := Times(Whole(2), width), Times(Whole(2), height);
    var ca, sa := Cos(angle), Sin(angle);
    var cx := [Whole(0), w, w, Whole(0), Whole(0)];
    var cy := [Whole(0), Whole(0), h, h, Whole(0)];
    Vertices(
      seq(5, j requires 0 <= j < 5 => Minus(Plus(Minus(Times(cx[j], ca), Times(cy[j], sa)), xOrig), Over(w, Whole(2)))),
      seq(5, j requires 0 <= j < 5 => Minus(Plus(Plus(Times(cx[j], sa), Times(cy[j], ca)), yOrig), Over(h, Whole(2)))))
  }

  /** `ReadSquare`: the corners (0,0), (w,0), (w,w), (0,w), (0,0), x scaled by cos(angle) and
      y by sin(angle), then shifted by the origin. */
  function SquarePoints(xOrig: Num, yOrig: Num, width: Num, angle: Num): (g: Geometry)
    ensures Closed(g) && |g.xs| == 5
  {
    var cx := [Whole(0), width, width, Whole(0), Whole(0)];
    var cy := [Whole(0), Whole(0), width, width, Whole(0)];
    Vertices(seq(5, j requires 0 <= j < 5 => Plus(Times(cx[j], Cos(angle)), xOrig)),
             seq(5, j requires 0 <= j < 5 => Plus(Times(cy[j], Sin(angle)), yOrig)))
  }

  // ---------------------------------------------------------------------------------------
  // What each reader does from a cursor position.

  /** `ReadPolygon`: a point count, then that many interleaved binary32 (x, y) pairs.
      No points (count <= 0) or too few bytes for them gives None; no count at all raises. */
  function PolygonAt(data: seq<byte>, pos: nat): (o: Outcome<Option<Body>>)
  {
    var (count, p1) := ConvertAt(data, pos, COUNT_FMT);
    if count.None? then Crash(Truncated)
    else if count.value[0].i <= 0 then Done(None, p1)
    else
      var n: nat := count.value[0].i;
      var (pts, p2) := ConvertAt(data, p1, Repeat(F32, 2 * n));
      if pts.None? then Done(None, p2)
      else Done(Some(Body(POLYGON, Deinterleave(FloatsOf(pts.value)))), p2)
  }

  /** `ReadPolyLine`: a polygon re-tagged POLYLINE; it raises when there is no polygon. */
  function PolyLineAt(data: seq<byte>, pos: nat): (o: Outcome<Body>)
  {
    match PolygonAt(data, pos)
    case Crash(e) => Crash(e)
    case Done(None, _) => Crash(NoPolyLinePoints)
    case Done(Some(b), p) => Done(b.(shape := POLYLINE), p)
  }

  /** `ReadLine`: two binary64 (x, y) end points. */
  function LineAt(data: seq<byte>, pos: nat): (o: Outcome<Body>)
  {
    var (v, p) := ConvertAt(data, pos, LINE_FMT);
    if v.None? then Crash(Truncated)
    else Done(Body(LINE, Vertices([NumOf(v.value[0]), NumOf(v.value[2])], [NumOf(v.value[1]), NumOf(v.value[3])])), p)
  }

  /** `ReadEllipse` as the source writes it: after the `<i5d` read it reads `<i3d` again and
      takes `maj_axis` from that second dictionary, which has no such key. */
  function EllipseAsWrittenAt(data: seq<byte>, pos: nat): (o: Outcome<Body>)
  {
    var (first, p1) := ConvertAt(data, pos, ELLIPSE_FMT);
    if first.None? then Crash(Truncated)
    else
      var (second, p2) := ConvertAt(data, p1, CIRCLE_FMT);
      if second.None? then Crash(Truncated) else Crash(EllipseFields)
  }

  lemma EllipseAsWrittenAlwaysRaises(data: seq<byte>, pos: nat)
    ensures EllipseAsWrittenAt(data, pos).Crash?
    ensures Avail(data, pos) >= 72 ==> EllipseAsWrittenAt(data, pos) == Crash(EllipseFields)
  {
    FormatSizes();
  }

  /** The ellipse reader with a single `<i5d` read: centre, major and minor axis, rotation. */
  function EllipseAt(data: seq<byte>, pos: nat): (o: Outcome<Body>)
  {
    var (v, p) := ConvertAt(data, pos, ELLIPSE_FMT);
    if v.None? then Crash(Truncated)
    else Done(Body(ELLIPSE, EllipsePoints(NumOf(v.value[1]), NumOf(v.value[2]), NumOf(v.value[3]), NumOf(v.value[4]), NumOf(v.value[5]))), p)
  }

  /** `ReadCircle`: `<i3d` holding a discarded word, the centre and the radius. */
  function CircleAt(data: seq<byte>, pos: nat): (o: Outcome<Body>)
  {
    var (v, p) := ConvertAt(data, pos, CIRCLE_FMT);
    if v.None? then Crash(Truncated)
    else Done(Body(CIRCLE, CirclePoints(NumOf(v.value[1]), NumOf(v.value[2]), NumOf(v.value[3]))), p)
  }

  /** `ReadRectangle`: `<i5d` holding a discarded word, origin, half-width, half-height, angle. */
  function RectangleAt(data: seq<byte>, pos: nat): (o: Outcome<Body>)
  {
    var (v, p) := ConvertAt(data, pos, RECTANGLE_FMT);
    if v.None? then Crash(Truncated)
    else Done(Body(RECTANGLE, RectanglePoints(NumOf(v.value[1]), NumOf(v.value[2]), NumOf(v.value[3]), NumOf(v.value[4]), NumOf(v.value[5]))), p)
  }

  /** `ReadSquare`: `<i4d` holding a discarded word, origin, side, angle. */
  function SquareAt(data: seq<byte>, pos: nat): (o: Outcome<Body>)
  {
    var (v, p) := ConvertAt(data, pos, SQUARE_FMT);
    if v.None? then Crash(Truncated)
    else Done(Body(SQUARE, SquarePoints(NumOf(v.value[1]), NumOf(v.value[2]), NumOf(v.value[3]), NumOf(v.value[4]))), p)
  }

  /** `ReadText`: `<i2d` holding a discarded word and the anchor; tagged RECTANGLE, no points. */
  function TextObjectAt(data: seq<byte>, pos: nat): (o: Outcome<Body>)
  {
    var (v, p) := ConvertAt(data, pos, TEXT_FMT);
    if v.None? then Crash(Truncated)
    else Done(Body(RECTANGLE, Anchor(NumOf(v.value[1]), NumOf(v.value[2]))), p)
  }

  function Lift(o: Outcome<Body>): Outcome<Option<Body>>
  {
    match o
    case Done(b, p) => Done(Some(b), p)
    case Crash(e) => Crash(e)
  }

  /** The dispatch of `ReadObject` on the shape code. */
  function BodyAt(data: seq<byte>, pos: nat, shape: int): (o: Outcome<Option<Body>>)
  {
    if shape == POLYGON then PolygonAt(data, pos)
    else if shape == ELLIPSE then Lift(EllipseAt(data, pos))
    else if shape == CIRCLE then Lift(CircleAt(data, pos))
    else if shape == POLYLINE then Lift(PolyLineAt(data, pos))
    else if shape == LINE then Lift(LineAt(data, pos))
    else if shape == RECTANGLE then Lift(RectangleAt(data, pos))
    else if shape == SQUARE then Lift(SquareAt(data, pos))
    else if shape == TEXT then Lift(TextObjectAt(data, pos))
    else if shape == 8 then PolygonAt(data, pos)
    else Done(None, pos)
  }

  /** `ReadObject`: the (shape, type) header, the payload, then the `text` and `additional`
      strings. An incomplete header, an unknown shape or a polygon without points gives None. */
  function ObjectAt(data: seq<byte>, pos: nat): (o: Outcome<Option<Obj>>)
  {
    var (hdr, p1) := ConvertAt(data, pos, OBJECT_FMT);
    if hdr.None? then Done(None, p1)
    else
      var shape, typ := hdr.value[0].i, hdr.value[1].i;
      match BodyAt(data, p1, shape)
      case Crash(e) => Crash(e)
      case Done(None, p2) => Done(None, p2)
      case Done(Some(b), p2) =>
        match TextAt(data, p2)
        case Crash(e) => Crash(e)
        case Done(text, p3) =>
          match TextAt(data, p3)
          case Crash(e) => Crash(e)
          case Done(additional, p4) => Done(Some(Obj(b.shape, b.geometry, text, additional, typ)), p4)
  }

  // ---------------------------------------------------------------------------------------
  // Properties of the readers.

  lemma CountValue(data: seq<byte>, pos: nat)
    requires Avail(data, pos) >= 4
    ensures ConvertAt(data, pos, COUNT_FMT) == (Some([Int(Signed(data[pos..pos + 4]))]), pos + 4)
  {
    FormatSizes();
    var bs := data[pos..pos + 4];
    assert COUNT_FMT[1..] == [] && bs[..4] == bs && bs[4..] == [];
    assert Unpack(COUNT_FMT, bs) == [Int(Signed(bs))];
  }

  /** A polygon record is a signed 32-bit count n; n <= 0 gives no polygon, and so does a file
      that ends before the 8n bytes of points; no count at all raises. */
  lemma PolygonLayout(data: seq<byte>, pos: nat)
    ensures Avail(data, pos) < 4 ==> PolygonAt(data, pos) == Crash(Truncated)
    ensures Avail(data, pos) >= 4 ==>
      var n := Signed(data[pos..pos + 4]);
      && (n <= 0 ==> PolygonAt(data, pos) == Done(None, pos + 4))
      && (n > 0 && Avail(data, pos + 4) < 8 * n ==> PolygonAt(data, pos) == Done(None, |data|))
  {
    FormatSizes();
    if Avail(data, pos) >= 4 {
      CountValue(data, pos);
    }
  }

  /** For n > 0 a polygon is the n vertex pairs of the 8n bytes after the count. */
  lemma PolygonVertices(data: seq<byte>, pos: nat)
    requires Avail(data, pos) >= 4
    requires Signed(data[pos..pos + 4]) > 0 && Avail(data, pos + 4) >= 8 * Signed(data[pos..pos + 4])
    ensures var n := Signed(data[pos..pos + 4]);
      PolygonAt(data, pos) == Done(Some(Body(POLYGON, PairsOf(n, data[pos + 4 .. pos + 4 + 8 * n]))), pos + 4 + 8 * n)
  {
    CountValue(data, pos);
    var n: nat := Signed(data[pos..pos + 4]);
    var fmt := Repeat(F32, 2 * n);
    assert FieldSize(F32) == 4;
    assert Size(fmt) == 8 * n;
    var block := data[pos + 4 .. pos + 4 + 8 * n];
    assert ConvertAt(data, pos + 4, fmt) == (Some(Unpack(fmt, block)), pos + 4 + 8 * n);
  }

  /** The geometry of n binary32 (x, y) pairs packed in `block`. */
  function PairsOf(n: nat, block: seq<byte>): (g: Geometry)
    requires |block| == 8 * n
  {
    assert Size(Repeat(F32, 2 * n)) == 8 * n;
    Deinterleave(FloatsOf(Unpack(Repeat(F32, 2 * n), block)))
  }

  /** Float j of a block of binary32 fields is the one in bytes [4j, 4j + 4). */
  lemma SinglesAt(m: nat, bs: seq<byte>, j: nat)
    requires |bs| == 4 * m && j < m
    ensures Size(Repeat(F32, m)) == |bs| && 4 * j + 4 <= |bs|
    ensures FloatsOf(Unpack(Repeat(F32, m), bs))[j] == Single(bs[4 * j .. 4 * j + 4])
  {
    UnpackSingles(m, bs, j);
  }

  /** Vertex k of a point block: the binary32 in bytes [8k, 8k + 4) for x, the next 4 for y. */
  lemma PairAt(n: nat, block: seq<byte>, k: nat)
    requires |block| == 8 * n && k < n
    ensures var g := PairsOf(n, block);
      && g.Vertices? && |g.xs| == n && |g.ys| == n
      && g.xs[k] == Single(block[8 * k .. 8 * k + 4]) && g.ys[k] == Single(block[8 * k + 4 .. 8 * k + 8])
  {
    assert Size(Repeat(F32, 2 * n)) == 8 * n;
    var pts := FloatsOf(Unpack(Repeat(F32, 2 * n), block));
    assert PairsOf(n, block) == Deinterleave(pts);
    SinglesAt(2 * n, block, 2 * k);
    SinglesAt(2 * n, block, 2 * k + 1);
    assert 4 * (2 * k) == 8 * k && 4 * (2 * k + 1) == 8 * k + 4;
  }

  /** Every vertex of a point block, as `PairAt` gives it. */
  lemma PairsLayout(n: nat, block: seq<byte>)
    requires |block| == 8 * n
    ensures var g := PairsOf(n, block);
      && g.Vertices? && |g.xs| == n && |g.ys| == n
      && forall k :: 0 <= k < n ==>
           g.xs[k] == Single(block[8 * k .. 8 * k + 4]) && g.ys[k] == Single(block[8 * k + 4 .. 8 * k + 8])
  {
    var g := PairsOf(n, block);
    assert g.Vertices? && |g.xs| == n && |g.ys| == n by {
      assert Size(Repeat(F32, 2 * n)) == 8 * n;
    }
    forall k | 0 <= k < n
      ensures g.xs[k] == Single(block[8 * k .. 8 * k + 4]) && g.ys[k] == Single(block[8 * k + 4 .. 8 * k + 8])
    {
      PairAt(n, block, k);
    }
  }

  /** Every shape reader that returns points returns as many x as y; the closed shapes
      return closed rings. */
  lemma BodyShapes(data: seq<byte>, pos: nat, shape: int)
    ensures BodyAt(data, pos, shape).Done? && BodyAt(data, pos, shape).value.Some? ==>
      var b := BodyAt(data, pos, shape).value.value;
      && WellFormed(b.geometry)
      && (shape in {ELLIPSE, CIRCLE} ==> Closed(b.geometry) && |b.geometry.xs| == 101)
      && (shape in {RECTANGLE, SQUARE} ==> Closed(b.geometry) && |b.geometry.xs| == 5)
      && (shape == LINE ==> b.geometry.Vertices? && |b.geometry.xs| == 2)
      && (shape == TEXT ==> b.shape == RECTANGLE && b.geometry.Anchor?)
      && (shape in {POLYGON, 8} ==> b.shape == POLYGON && b.geometry.Vertices?)
      && (shape == POLYLINE ==> b.shape == POLYLINE && b.geometry.Vertices?)
      && (shape !in {POLYGON, POLYLINE, TEXT, 8} ==> b.shape == shape)
  {
  }

  /** An object record: the header is two signed bytes; an incomplete header gives None and
      reads what is left; an unknown shape gives None right after the header; code 8 is read
      as a polygon. */
  lemma ObjectHeader(data: seq<byte>, pos: nat)
    ensures Avail(data, pos) < 2 ==> ObjectAt(data, pos) == Done(None, if pos <= |data| then |data| else pos)
    ensures Avail(data, pos) >= 2 ==>
      var shape := Signed(data[pos..pos + 1]);
      && (shape < 0 || shape > 8 ==> ObjectAt(data, pos) == Done(None, pos + 2))
      && (shape == 8 ==> BodyAt(data, pos + 2, shape) == BodyAt(data, pos + 2, POLYGON))
      && (BodyAt(data, pos + 2, shape).Crash? ==> ObjectAt(data, pos) == Crash(BodyAt(data, pos + 2, shape).error))
      && (BodyAt(data, pos + 2, shape).Done? && BodyAt(data, pos + 2, shape).value.None? ==>
            ObjectAt(data, pos) == Done(None, BodyAt(data, pos + 2, shape).pos))
  {
    FormatSizes();
    if Avail(data, pos) >= 2 {
      HeaderValues(data, pos);
    }
  }

  lemma HeaderValues(data: seq<byte>, pos: nat)
    requires Avail(data, pos) >= 2
    ensures ConvertAt(data, pos, OBJECT_FMT) == (Some([Int(Signed(data[pos..pos + 1])), Int(Signed(data[pos + 1..pos + 2]))]), pos + 2)
  {
    FormatSizes();
    var bs := data[pos..pos + 2];
    assert bs[..1] == data[pos..pos + 1] && bs[1..][..1] == data[pos + 1..pos + 2];
    assert Unpack(OBJECT_FMT, bs) == [Int(Signed(bs[..1])), Int(Signed(bs[1..][..1]))];
  }

  /** A decoded object is its payload followed by the `text` and `additional` strings, and its
      type is the second header byte. */
  lemma ObjectFields(data: seq<byte>, pos: nat, b: Body, p2: nat, text: string, p3: nat, additional: string, p4: nat)
    requires Avail(data, pos) >= 2
    requires BodyAt(data, pos + 2, Signed(data[pos..pos + 1])) == Done(Some(b), p2)
    requires TextAt(data, p2) == Done(text, p3) && TextAt(data, p3) == Done(additional, p4)
    ensures ObjectAt(data, pos) == Done(Some(Obj(b.shape, b.geometry, text, additional, Signed(data[pos + 1..pos + 2]))), p4)
  {
    HeaderValues(data, pos);
  }

  /** A decoded object has matching x and y arrays, and reading it moves the cursor forward. */
  lemma ObjectWellFormed(data: seq<byte>, pos: nat)
    ensures ObjectAt(data, pos).Done? ==> ObjectAt(data, pos).pos >= pos
    ensures ObjectAt(data, pos).Done? && ObjectAt(data, pos).value.Some? ==>
              WellFormed(ObjectAt(data, pos).value.value.geometry) && ObjectAt(data, pos).pos > pos
  {
    var (hdr, p1) := ConvertAt(data, pos, OBJECT_FMT);
    if hdr.Some? {
      var shape := hdr.value[0].i;
      BodyShapes(data, p1, shape);
      BodyAdvances(data, p1, shape);
      var bo := BodyAt(data, p1, shape);
      if bo.Done? && bo.value.Some? {
        var t := TextAt(data, bo.pos);
        if t.Done? {
          var t2 := TextAt(data, t.pos);
        }
      }
    }
  }

  lemma BodyAdvances(data: seq<byte>, pos: nat, shape: int)
    ensures BodyAt(data, pos, shape).Done? ==> BodyAt(data, pos, shape).pos >= pos
  {
    if shape == POLYGON || shape == 8 {
      assert BodyAt(data, pos, shape) == PolygonAt(data, pos);
    } else if shape == ELLIPSE {
      assert BodyAt(data, pos, shape) == Lift(EllipseAt(data, pos));
    } else if shape == CIRCLE {
      assert BodyAt(data, pos, shape) == Lift(CircleAt(data, pos));
    } else if shape == POLYLINE {
      assert BodyAt(data, pos, shape) == Lift(PolyLineAt(data, pos));
    } else if shape == LINE {
      assert BodyAt(data, pos, shape) == Lift(LineAt(data, pos));
    } else if shape == RECTANGLE {
      assert BodyAt(data, pos, shape) == Lift(RectangleAt(data, pos));
    } else if shape == SQUARE {
      assert BodyAt(data, pos, shape) == Lift(SquareAt(data, pos));
    } else if shape == TEXT {
      assert BodyAt(data, pos, shape) == Lift(TextObjectAt(data, pos));
    }
  }

  // ---------------------------------------------------------------------------------------
  // The readers, on a file cursor.

  method ReadPolygon(f: Stream) returns (r: Result<Option<Body>>)
    modifies f
    ensures Returned(PolygonAt(f.data, old(f.pos)), r, f.pos)
  {
    ghost var data, p0 := f.data, f.pos;
    var npts := Convert(f, COUNT_FMT);
    if npts.None? {
      return Err(Truncated);
    }
    if npts.value[0].i <= 0 {
      return Ok(None);
    }
    var n: nat := npts.value[0].i;
    ghost var p1 := f.pos;
    assert ConvertAt(data, p0, COUNT_FMT) == (npts, p1);
    var pts := Convert(f, Repeat(F32, 2 * n));
    assert ConvertAt(data, p1, Repeat(F32, 2 * n)) == (pts, f.pos);
    if pts.None? {
      return Ok(None);
    }
    ConvertedCount(data, p1, Repeat(F32, 2 * n));
    var xy := FloatsOf(pts.value);
    EvenLength(xy, n);
    return Ok(Some(Body(POLYGON, Deinterleave(xy))));
  }

  method ReadPolyLine(f: Stream) returns (r: Result<Body>)
    modifies f
    ensures Returned(PolyLineAt(f.data, old(f.pos)), r, f.pos)
  {
    var dic :- ReadPolygon(f);
    if dic.None? {
      return Err(NoPolyLinePoints);
    }
    return Ok(dic.value.(shape := POLYLINE));
  }

  method ReadLine(f: Stream) returns (r: Result<Body>)
    modifies f
    ensures Returned(LineAt(f.data, old(f.pos)), r, f.pos)
  {
    var pts := Convert(f, LINE_FMT);
    if pts.None? {
      return Err(Truncated);
    }
    var v := pts.value;
    return Ok(Body(LINE, Vertices([NumOf(v[0]), NumOf(v[2])], [NumOf(v[1]), NumOf(v[3])])));
  }

  method ReadEllipse(f: Stream) returns (r: Result<Body>)
    modifies f
    ensures Returned(EllipseAt(f.data, old(f.pos)), r, f.pos)
  {
    var dic := Convert(f, ELLIPSE_FMT);
    if dic.None? {
      return Err(Truncated);
    }
    var v := dic.value;
    return Ok(Body(ELLIPSE, EllipsePoints(NumOf(v[1]), NumOf(v[2]), NumOf(v[3]), NumOf(v[4]), NumOf(v[5]))));
  }

  method ReadCircle(f: Stream) returns (r: Result<Body>)
    modifies f
    ensures Returned(CircleAt(f.data, old(f.pos)), r, f.pos)
  {
    var dic := Convert(f, CIRCLE_FMT);
    if dic.None? {
      return Err(Truncated);
    }
    var v := dic.value;
    return Ok(Body(CIRCLE, CirclePoints(NumOf(v[1]), NumOf(v[2]), NumOf(v[3]))));
  }

  method ReadRectangle(f: Stream) returns (r: Result<Body>)
    modifies f
    ensures Returned(RectangleAt(f.data, old(f.pos)), r, f.pos)
  {
    FormatSizes();
    var dic := Convert(f, RECTANGLE_FMT);
    if dic.None? {
      return Err(Truncated);
    }
    var v := dic.value;
    return Ok(Body(RECTANGLE, RectanglePoints(NumOf(v[1]), NumOf(v[2]), NumOf(v[3]), NumOf(v[4]), NumOf(v[5]))));
  }

  method ReadSquare(f: Stream) returns (r: Result<Body>)
    modifies f
    ensures Returned(SquareAt(f.data, old(f.pos)), r, f.pos)
  {
    var dic := Convert(f, SQUARE_FMT);
    if dic.None? {
      return Err(Truncated);
    }
    var v := dic.value;
    return Ok(Body(SQUARE, SquarePoints(NumOf(v[1]), NumOf(v[2]), NumOf(v[3]), NumOf(v[4]))));
  }

  method ReadTextObject(f: Stream) returns (r: Result<Body>)
    modifies f
    ensures Returned(TextObjectAt(f.data, old(f.pos)), r, f.pos)
  {
    var dic := Convert(f, TEXT_FMT);
    if dic.None? {
      return Err(Truncated);
    }
    var v := dic.value;
    return Ok(Body(RECTANGLE, Anchor(NumOf(v[1]), NumOf(v[2]))));
  }

  method ReadObject(f: Stream) returns (r: Result<Option<Obj>>)
    modifies f
    ensures Returned(ObjectAt(f.data, old(f.pos)), r, f.pos)
  {
    var ret := Convert(f, OBJECT_FMT);
    if ret.None? {
      return Ok(None);
    }
    var shape, typ := ret.value[0].i, ret.value[1].i;
    var dic: Option<Body>;
    if shape == POLYGON {
      dic :- ReadPolygon(f);
    } else if shape == ELLIPSE {
      var b :- ReadEllipse(f);
      dic := Some(b);
    } else if shape == CIRCLE {
      var b :- ReadCircle(f);
      dic := Some(b);
    } else if shape == POLYLINE {
      var b :- ReadPolyLine(f);
      dic := Some(b);
    } else if shape == LINE {
      var b :- ReadLine(f);
      dic := Some(b);
    } else if shape == RECTANGLE {
      var b :- ReadRectangle(f);
      dic := Some(b);
    } else if shape == SQUARE {
      var b :- ReadSquare(f);
      dic := Some(b);
    } else if shape == TEXT {
      var b :- ReadTextObject(f);
      dic := Some(b);
    } else if shape == 8 {
      dic :- ReadPolygon(f);
    } else {
      dic := None;
    }
    if dic.None? {
      return Ok(None);
    }
    var text :- ReadText(f);
    var additional :- ReadText(f);
    return Ok(Some(Obj(dic.value.shape, dic.value.geometry, text, additional, typ)));
  }
}
