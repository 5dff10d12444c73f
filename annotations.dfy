/** The assembly of decoded ROI objects into annotation features (`vtoq.py`): the packed
    colour of a classification, the ring closure of `Feature.add_polygon`, and the
    per-object filter, simplify, classify and append loop of `do_convert`.

    The affine map to image pixels with its truncation to integers, the background sentinel
    test and the two simplification tests are float computations and are parameters of the
    conversion; which objects are exported, with which name and class, and which ring, is
    modelled exactly. */
module Assemble {
  import opened Outcomes
  import opened Floats
  import opened Shapes
  import opened Simplify
  import opened Layers
  import opened LittleEndian

  /** A vertex after the affine map and `astype(int)`. */
  type Coord = (int, int)

  /** A classification: its `name` and the stored `colorRGB` word. */
  datatype Classification = Classification(name: string, colorRGB: int)

  const COLOR_RANGE := 0x100_0000

  /** `Classification(name, color)`: the setter stores `color - 0x1000000`, which for a 24-bit
      colour is the signed 32-bit ARGB word with alpha 0xff. */
  function NewClassification(name: string, color: int): (c: Classification)
    ensures c.name == name
    ensures 0 <= color < COLOR_RANGE ==> -COLOR_RANGE <= c.colorRGB < 0
  {
    Classification(name, color - COLOR_RANGE)
  }

  /** The `color` getter, `colorRGB & 0xffffff`: on Python's unbounded two's-complement
      integers this is the (never negative) remainder modulo 2^24. */
  function Color(c: Classification): (color: int)
    ensures 0 <= color < COLOR_RANGE
  {
    c.colorRGB % COLOR_RANGE
  }

  /** Reading the colour back gives the colour set, for every 24-bit colour, and in general
      the colour set modulo 2^24. */
  lemma ColorRoundTrip(name: string, color: int)
    ensures Color(NewClassification(name, color)) == color % COLOR_RANGE
    ensures 0 <= color < COLOR_RANGE ==> Color(NewClassification(name, color)) == color
  {
  }

  /** Conversely, a stored word in [-2^24, 0) is the one its own colour stores: the setter
      and getter are inverse bijections between 24-bit colours and those words. */
  lemma ColorWordRoundTrip(c: Classification)
    requires -COLOR_RANGE <= c.colorRGB < 0
    ensures NewClassification(c.name, Color(c)) == c
  {
  }

  /** The class given to holes. */
  const IGNORE := NewClassification("Ignore", 0xb4_b4b4)

  lemma IgnoreClass()
    ensures IGNORE.name == "Ignore" && Color(IGNORE) == 0xb4_b4b4
  {
    ColorRoundTrip("Ignore", 0xb4_b4b4);
  }

  /** The ring `add_polygon` stores: the coordinates, with the first appended when the last
      differs from it. */
  function CloseRing(c: seq<Coord>): (r: seq<Coord>)
    requires |c| > 0
  {
    if c[0] != c[|c| - 1] then c + [c[0]] else c
  }

  /** The stored ring is closed, starts with the given coordinates and adds at most their
      first; closing a closed ring changes nothing. */
  lemma CloseRingCloses(c: seq<Coord>)
    requires |c| > 0
    ensures var r := CloseRing(c);
      && r[0] == r[|r| - 1] && r[..|c|] == c
      && (c[0] == c[|c| - 1] ==> r == c)
      && (c[0] != c[|c| - 1] ==> r == c + [c[0]])
      && CloseRing(r) == r
  {
    var r := CloseRing(c);
    assert r[..|c|] == c;
  }

  /** A feature of the output document (its `id` is left out). */
  datatype FeatureValue = FeatureValue(name: Option<string>, classification: Option<Classification>, rings: seq<seq<Coord>>)

  /** A `Feature` under construction. */
  class Feature {
    var name: Option<string>
    var classification: Option<Classification>
    var rings: seq<seq<Coord>>

    constructor (name: Option<string>, classification: Option<Classification>)
      ensures this.name == name && this.classification == classification && rings == []
    {
      this.name := name;
      this.classification := classification;
      rings := [];
    }

    /** `add_polygon(coordinates)`: appends the closed ring (indexing the coordinates, so
        they must not be empty). */
    method AddPolygon(coordinates: seq<Coord>)
      requires |coordinates| > 0
      modifies this
      ensures rings == old(rings) + [CloseRing(coordinates)]
      ensures Size() == old(Size()) + 1
      ensures name == old(name) && classification == old(classification)
    {
      var ring := coordinates;
      if ring[0] != ring[|ring| - 1] {
        ring := ring + [ring[0]];
      }
      rings := rings + [ring];
    }

    /** `size()`: the number of rings. */
    function Size(): nat
      reads this
    {
      |rings|
    }

    function Value(): FeatureValue
      reads this
    {
      FeatureValue(name, classification, rings)
    }
  }

  /** What `do_convert` is given besides the container. */
  datatype Settings = Settings(
    classes: Option<map<int, Classification>>,  // `classes`: object type -> classification, or None
    simplify: bool,                             // `distance_th > 0`
    tests: Tests,                               // the tests of `reduce_polygon` for `angle_th`, `distance_th`
    transform: Point -> Coord,                  // `(p * scale_factor + offset).astype(int)`
    background: Num -> bool)                    // `x < -1e38`

  /** The shapes `do_convert` exports. */
  const EXPORTED: set<int> := {POLYGON, ELLIPSE, CIRCLE, RECTANGLE, SQUARE}

  /** The `(N, 2)` array `np.array((x_pts, y_pts)).T`. */
  function Points(g: Geometry): (pts: seq<Point>)
    requires g.Vertices? && WellFormed(g)
    ensures |pts| == |g.xs| && forall k :: 0 <= k < |pts| ==> pts[k] == (g.xs[k], g.ys[k])
  {
    seq(|g.xs|, k requires 0 <= k < |g.xs| => (g.xs[k], g.ys[k]))
  }

  function Transform(f: Point -> Coord, pts: seq<Point>): (cs: seq<Coord>)
    ensures |cs| == |pts| && forall k :: 0 <= k < |pts| ==> cs[k] == f(pts[k])
  {
    seq(|pts|, k requires 0 <= k < |pts| => f(pts[k]))
  }

  /** The vertices an exported object keeps: all of them, or the simplified outline. */
  function Kept(s: Settings, g: Geometry): (pts: seq<Point>)
    requires g.Vertices? && WellFormed(g)
  {
    if s.simplify then Reduced(s.tests, Points(g)) else Points(g)
  }

  /** The simplified outline keeps a subset of the vertices in their order, and the last
      two; without simplification every vertex is kept. */
  lemma KeptVertices(s: Settings, g: Geometry)
    requires g.Vertices? && WellFormed(g)
    ensures |Kept(s, g)| <= |g.xs|
    ensures Subsequence(Kept(s, g), Points(g))
    ensures |g.xs| >= 2 ==> var k := Kept(s, g);
      |k| >= 2 && k[|k| - 1] == (g.xs[|g.xs| - 1], g.ys[|g.ys| - 1]) && k[|k| - 2] == (g.xs[|g.xs| - 2], g.ys[|g.ys| - 2])
    ensures !s.simplify ==> Kept(s, g) == Points(g)
  {
    if s.simplify {
      ReducedSubsequence(s.tests, Points(g));
      if |g.xs| >= 2 {
        ReducedKeepsTail(s.tests, Points(g));
      }
    } else {
      SubsequenceOfSelf(Points(g));
    }
  }

  /** Name and class of a feature: type 0 is a hole of the Ignore class; any other type is
      unnamed and takes its class from the map, or none, and without a map (the default
      `classes=None`) the lookup raises. */
  function Label(classes: Option<map<int, Classification>>, typ: int): Result<(Option<string>, Option<Classification>)>
  {
    if typ == 0 then Ok((Some("Hole"), Some(IGNORE)))
    else if classes.None? then Err(NoClasses)
    else Ok((None, if typ in classes.value then Some(classes.value[typ]) else None))
  }

  /** One iteration of the `for obj in mld['ROI']` loop: the feature it appends, if any. */
  function ExportAt(s: Settings, obj: Obj): (r: Result<Option<FeatureValue>>)
    requires WellFormed(obj.geometry)
  {
    if obj.shape !in EXPORTED then Ok(None)
    else if obj.geometry.Anchor? then Err(MissingPoints)
    else
      var coords := Transform(s.transform, Kept(s, obj.geometry));
      if |coords| < 3 then Ok(None)
      else if s.background(obj.geometry.xs[0]) then Ok(None)
      else
        match Label(s.classes, obj.typ)
        case Err(e) => Err(e)
        case Ok((name, cls)) => Ok(Some(FeatureValue(name, cls, [CloseRing(coords)])))
  }

  /** Only the five exported shapes are looked at. One of them raises when it has no points
      (a text object, tagged RECTANGLE), or when it passes the filters with a non-zero type
      and no class map was given. */
  lemma ExportRaises(s: Settings, obj: Obj)
    requires WellFormed(obj.geometry)
    ensures ExportAt(s, obj).Err? <==>
      && obj.shape in EXPORTED
      && (|| obj.geometry.Anchor?
          || (&& obj.geometry.Vertices? && |Kept(s, obj.geometry)| >= 3
              && !s.background(obj.geometry.xs[0]) && obj.typ != 0 && s.classes.None?))
    ensures ExportAt(s, obj).Err? && obj.geometry.Anchor? ==> ExportAt(s, obj).error == MissingPoints
    ensures ExportAt(s, obj).Err? && obj.geometry.Vertices? ==> ExportAt(s, obj).error == NoClasses
    ensures obj.shape !in EXPORTED ==> ExportAt(s, obj) == Ok(None)
  {
  }

  /** An object is exported exactly when it has one of the five shapes, points, at least
      three points after simplification and a first x that is not the background sentinel. */
  lemma ExportedWhen(s: Settings, obj: Obj)
    requires WellFormed(obj.geometry)
    ensures ExportAt(s, obj).Ok? && ExportAt(s, obj).value.Some? <==>
      && obj.shape in EXPORTED && obj.geometry.Vertices?
      && |Kept(s, obj.geometry)| >= 3 && !s.background(obj.geometry.xs[0])
      && (obj.typ == 0 || s.classes.Some?)
  {
    if obj.shape in EXPORTED && obj.geometry.Vertices? {
      KeptVertices(s, obj.geometry);
    }
  }

  /** An exported feature has one closed ring of at least three points, which starts with
      the transformed kept vertices, and the name and class of its type. */
  lemma ExportedFeature(s: Settings, obj: Obj)
    requires WellFormed(obj.geometry)
    requires ExportAt(s, obj).Ok? && ExportAt(s, obj).value.Some?
    ensures obj.geometry.Vertices?
    ensures var f := ExportAt(s, obj).value.value;
      var coords := Transform(s.transform, Kept(s, obj.geometry));
      && |f.rings| == 1 && |f.rings[0]| >= 3
      && f.rings[0][0] == f.rings[0][|f.rings[0]| - 1] && f.rings[0][..|coords|] == coords
      && (obj.typ == 0 ==> f.name == Some("Hole") && f.classification == Some(IGNORE))
      && (obj.typ != 0 ==> f.name == None && s.classes.Some?)
      && (obj.typ != 0 && s.classes.Some? && obj.typ in s.classes.value ==>
            f.classification == Some(s.classes.value[obj.typ]))
      && (obj.typ != 0 && s.classes.Some? && obj.typ !in s.classes.value ==> f.classification == None)
  {
    CloseRingCloses(Transform(s.transform, Kept(s, obj.geometry)));
  }

  /** A feature as `do_convert` builds it: one closed ring of at least three points. */
  predicate OneClosedRing(f: FeatureValue)
  {
    |f.rings| == 1 && |f.rings[0]| >= 3 && f.rings[0][0] == f.rings[0][|f.rings[0]| - 1]
  }

  predicate AllWellFormed(objs: seq<Obj>)
  {
    forall k :: 0 <= k < |objs| ==> WellFormed(objs[k].geometry)
  }

  /** The loop from object i on, appending to `features`. */
  function ExportFrom(s: Settings, objs: seq<Obj>, i: nat, features: seq<FeatureValue>): (r: Result<seq<FeatureValue>>)
    requires AllWellFormed(objs) && i <= |objs|
    decreases |objs| - i
  {
    if i == |objs| then Ok(features)
    else
      match ExportAt(s, objs[i])
      case Err(e) => Err(e)
      case Ok(None) => ExportFrom(s, objs, i + 1, features)
      case Ok(Some(f)) => ExportFrom(s, objs, i + 1, features + [f])
  }

  /** The loop keeps the features it started with in front and appends at most one feature
      per object, each with one closed ring. */
  lemma {:induction false} ExportFromAppends(s: Settings, objs: seq<Obj>, i: nat, features: seq<FeatureValue>)
    requires AllWellFormed(objs) && i <= |objs|
    ensures var r := ExportFrom(s, objs, i, features);
      r.Ok? ==> && |features| <= |r.value| <= |features| + |objs| - i
                && r.value[..|features|] == features
                && forall k :: |features| <= k < |r.value| ==> OneClosedRing(r.value[k])
    decreases |objs| - i
  {
    if i < |objs| {
      match ExportAt(s, objs[i])
      case Err(_) =>
      case Ok(None) =>
        ExportFromAppends(s, objs, i + 1, features);
      case Ok(Some(f)) =>
        ExportedFeature(s, objs[i]);
        var features' := features + [f];
        ExportFromAppends(s, objs, i + 1, features');
        var r := ExportFrom(s, objs, i + 1, features');
        if r.Ok? {
          assert r.value[..|features|] == r.value[..|features'|][..|features|];
          assert r.value[|features|] == features'[|features|];
        }
    }
  }

  /** The feature of each object from i on that gives one, in object order. */
  function ExportedFeatures(s: Settings, objs: seq<Obj>, i: nat): (fs: seq<FeatureValue>)
    requires AllWellFormed(objs) && i <= |objs|
    ensures |fs| <= |objs| - i
    decreases |objs| - i
  {
    if i == |objs| then []
    else
      var r := ExportAt(s, objs[i]);
      (if r.Ok? && r.value.Some? then [r.value.value] else []) + ExportedFeatures(s, objs, i + 1)
  }

  /** A loop that does not raise appends exactly the exported features, in object order. */
  lemma {:induction false} ExportFromValue(s: Settings, objs: seq<Obj>, i: nat, features: seq<FeatureValue>)
    requires AllWellFormed(objs) && i <= |objs|
    ensures var r := ExportFrom(s, objs, i, features);
      r.Ok? ==> r.value == features + ExportedFeatures(s, objs, i)
    decreases |objs| - i
  {
    if i < |objs| {
      match ExportAt(s, objs[i])
      case Err(_) =>
      case Ok(None) =>
        ExportFromValue(s, objs, i + 1, features);
      case Ok(Some(f)) =>
        ExportFromValue(s, objs, i + 1, features + [f]);
        assert features + [f] + ExportedFeatures(s, objs, i + 1) == features + ([f] + ExportedFeatures(s, objs, i + 1));
    }
  }

  /** Every object that gives a feature has that feature among the exported ones ... */
  lemma {:induction false} ExportedIncluded(s: Settings, objs: seq<Obj>, i: nat, k: nat)
    requires AllWellFormed(objs) && i <= k < |objs|
    requires ExportAt(s, objs[k]).Ok? && ExportAt(s, objs[k]).value.Some?
    ensures ExportAt(s, objs[k]).value.value in ExportedFeatures(s, objs, i)
    decreases k - i
  {
    if i < k {
      ExportedIncluded(s, objs, i + 1, k);
    }
  }

  /** ... and the j-th exported feature is the feature of some object at index i + j or
      later. */
  lemma {:induction false} ExportedSource(s: Settings, objs: seq<Obj>, i: nat, j: nat)
    requires AllWellFormed(objs) && i <= |objs| && j < |ExportedFeatures(s, objs, i)|
    ensures exists k :: i + j <= k < |objs| && ExportAt(s, objs[k]) == Ok(Some(ExportedFeatures(s, objs, i)[j]))
    decreases |objs| - i
  {
    var r := ExportAt(s, objs[i]);
    var fs := ExportedFeatures(s, objs, i);
    var rest := ExportedFeatures(s, objs, i + 1);
    if r.Ok? && r.value.Some? {
      assert fs == [r.value.value] + rest;
      if j == 0 {
        assert ExportAt(s, objs[i]) == Ok(Some(fs[0]));
      } else {
        ExportedSource(s, objs, i + 1, j - 1);
        var k :| i + 1 + (j - 1) <= k < |objs| && ExportAt(s, objs[k]) == Ok(Some(rest[j - 1]));
        assert fs[j] == rest[j - 1];
        assert i + j <= k < |objs| && ExportAt(s, objs[k]) == Ok(Some(fs[j]));
      }
    } else {
      assert fs == rest;
      ExportedSource(s, objs, i + 1, j);
      var k :| i + 1 + j <= k < |objs| && ExportAt(s, objs[k]) == Ok(Some(rest[j]));
      assert i + j <= k < |objs| && ExportAt(s, objs[k]) == Ok(Some(fs[j]));
    }
  }

  /** The loop raises exactly when some object from i on raises ... */
  lemma {:induction false} ExportFromRaises(s: Settings, objs: seq<Obj>, i: nat, features: seq<FeatureValue>)
    requires AllWellFormed(objs) && i <= |objs|
    ensures ExportFrom(s, objs, i, features).Err? <==> exists k :: i <= k < |objs| && ExportAt(s, objs[k]).Err?
    decreases |objs| - i
  {
    if i < |objs| {
      match ExportAt(s, objs[i])
      case Err(_) =>
      case Ok(None) =>
        ExportFromRaises(s, objs, i + 1, features);
      case Ok(Some(f)) =>
        ExportFromRaises(s, objs, i + 1, features + [f]);
    }
  }

  /** ... and then with the error of the first object that raises. */
  lemma {:induction false} ExportFromFirstError(s: Settings, objs: seq<Obj>, i: nat, features: seq<FeatureValue>)
    requires AllWellFormed(objs) && i <= |objs|
    ensures ExportFrom(s, objs, i, features).Err? ==>
      exists k :: && i <= k < |objs| && ExportAt(s, objs[k]) == Err(ExportFrom(s, objs, i, features).error)
                  && forall j :: i <= j < k ==> ExportAt(s, objs[j]).Ok?
    decreases |objs| - i
  {
    if i < |objs| {
      match ExportAt(s, objs[i])
      case Err(_) =>
      case Ok(None) =>
        ExportFromFirstError(s, objs, i + 1, features);
      case Ok(Some(f)) =>
        ExportFromFirstError(s, objs, i + 1, features + [f]);
    }
  }

  /** The features of the output document: those of the document loaded first (none when
      overwriting or when there is no file), then one per exported ROI object, in order. A
      container without an ROI layer raises. */
  function Assembled(s: Settings, loaded: seq<FeatureValue>, mld: Container): Result<seq<FeatureValue>>
    requires "ROI" in mld.layers ==> AllWellFormed(mld.layers["ROI"])
  {
    if "ROI" !in mld.layers then Err(NoRoiLayer)
    else ExportFrom(s, mld.layers["ROI"], 0, loaded)
  }

  /** A decoded file satisfies what the conversion needs of its ROI layer. */
  lemma DecodedConvertible(data: seq<byte>)
    ensures DecodeFile(data).Ok? && "ROI" in DecodeFile(data).value.layers ==>
      AllWellFormed(DecodeFile(data).value.layers["ROI"])
  {
    DecodedWellFormed(data);
  }

  /** One object of the loop, on the `Feature` class and the simplifier method. */
  method ExportObject(s: Settings, obj: Obj) returns (r: Result<Option<FeatureValue>>)
    requires WellFormed(obj.geometry)
    ensures r == ExportAt(s, obj)
  {
    if obj.shape !in EXPORTED {
      return Ok(None);
    }
    if obj.geometry.Anchor? {
      return Err(MissingPoints);
    }
    var arr := Points(obj.geometry);
    if s.simplify {
      arr := ReducePolygon(s.tests, arr);
    }
    assert arr == Kept(s, obj.geometry);
    var coords := Transform(s.transform, arr);
    if |coords| < 3 {
      return Ok(None);
    }
    if s.background(obj.geometry.xs[0]) {
      return Ok(None);
    }
    var name, cls;
    if obj.typ == 0 {
      name, cls := Some("Hole"), Some(IGNORE);
    } else {
      if s.classes.None? {
        return Err(NoClasses);
      }
      name := None;
      cls := if obj.typ in s.classes.value then Some(s.classes.value[obj.typ]) else None;
    }
    assert Label(s.classes, obj.typ) == Ok((name, cls));
    var f := new Feature(name, cls);
    f.AddPolygon(coords);
    assert f.Value() == FeatureValue(name, cls, [CloseRing(coords)]);
    return Ok(Some(f.Value()));
  }

  /** The `do_convert` loop over `mld['ROI']`, appending to the features of `loaded`. */
  method DoConvert(s: Settings, loaded: seq<FeatureValue>, mld: Container) returns (r: Result<seq<FeatureValue>>)
    requires "ROI" in mld.layers ==> AllWellFormed(mld.layers["ROI"])
    ensures r == Assembled(s, loaded, mld)
  {
    if "ROI" !in mld.layers {
      return Err(NoRoiLayer);
    }
    var objs := mld.layers["ROI"];
    var features := loaded;
    for i := 0 to |objs|
      invariant ExportFrom(s, objs, i, features) == ExportFrom(s, objs, 0, loaded)
    {
      var e := ExportObject(s, objs[i]);
      if e.Err? {
        return Err(e.error);
      }
      if e.value.Some? {
        features := features + [e.value.value];
      }
    }
    return Ok(features);
  }
}
