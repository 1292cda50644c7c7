/**
 * The zoom-dependent layer generalizer of the OSM QA tiles profile.
 *
 * At any zoom other than the maximum zoom (above it as well as below it),
 * every feature of a tile layer whose line is shorter than 2 pixels, or whose
 * polygon or geometry collection covers less than 2 square pixels, is
 * replaced by a point at its centroid; then at most three point-typed
 * features are kept at any one pixel, the first three in order.
 *
 * The specification functions (Collapsed, Capped, PostProcess) are stated
 * without loops or counters; the methods follow the source's two loops and are
 * proved equal to them; the lemmas state what the source promises about them.
 */
module OsmQaTiles {
  import opened VectorTile

  // ---------------------------------------------------------------------------
  // Results
  // ---------------------------------------------------------------------------

  /** GeometryException.Verbose: a stat name, a message and the offending geometry. */
  datatype GeometryError = GeometryError(stat: string, message: string, geometry: Shape)

  datatype Result<T> = Ok(value: T) | Err(error: GeometryError)

  /**
   * The outcome of one call: `Unchanged` is the source's null ("keep the list
   * as given"), `Failed` its thrown GeometryException, `Replaced` the new list.
   */
  datatype Outcome = Unchanged | Failed(error: GeometryError) | Replaced(items: seq<Feature>)

  /** The size below which a line or an area collapses to its centroid. */
  const MinSize: real := 2.0

  /** How many point-typed features may share one pixel. */
  const MaxPointsPerPixel: nat := 3

  function EmptyGeometryError(geom: Shape): GeometryError
  {
    GeometryError("empty_geometry", "Empty geometry", geom)
  }

  // ---------------------------------------------------------------------------
  // Collapse pass
  // ---------------------------------------------------------------------------

  predicate IsPuntal(k: Kind) { k.Point? || k.MultiPoint? }

  predicate IsLineal(k: Kind) { k.LineString? || k.MultiLineString? }

  /** Geometry collections are measured by area, like polygons. */
  predicate IsAreal(k: Kind) { k.Polygon? || k.MultiPolygon? || k.GeometryCollection? }

  /** A line shorter than MinSize, or an area smaller than MinSize. */
  predicate IsTooSmall(g: Shape)
  {
    (IsLineal(g.kind) && g.length < MinSize) || (IsAreal(g.kind) && g.area < MinSize)
  }

  /** The item with its geometry replaced by the centroid of its decoded geometry. */
  function CentroidCopy(item: Feature): (r: Feature)
    ensures r.geometry.geomType == PointType
    ensures r.geometry.firstCoordinate == item.geometry.decoded.centroid
    ensures r.(geometry := item.geometry) == item
  {
    item.(geometry := PointGeometry(item.geometry.decoded.centroid))
  }

  /** What the collapse pass emits for one non-empty item. */
  function Collapse(item: Feature): (r: seq<Feature>)
    requires !item.geometry.decoded.isEmpty
    ensures |r| <= 1
    ensures r == [] <==> item.geometry.decoded.kind.Other?
    ensures forall o <- r :: o == if IsTooSmall(item.geometry.decoded) then CentroidCopy(item) else item
  {
    var geom := item.geometry.decoded;
    match geom.kind
    case Point | MultiPoint => [item]
    case LineString | MultiLineString =>
      if geom.length < MinSize then [CentroidCopy(item)] else [item]
    case Polygon | MultiPolygon =>
      if geom.area < MinSize then [CentroidCopy(item)] else [item]
    case GeometryCollection =>
      if geom.area < MinSize then [CentroidCopy(item)] else [item]
    case Other(_) => []
  }

  /**
   * The collapse pass over a whole list: the items' collapses in order, or the
   * error for the first item whose decoded geometry is empty.
   */
  function Collapsed(items: seq<Feature>): (r: Result<seq<Feature>>)
    ensures r.Ok? ==> |r.value| <= |items|
    decreases |items|
  {
    if items == [] then Ok([])
    else
      var n := |items| - 1;
      match Collapsed(items[..n])
      case Err(e) => Err(e)
      case Ok(prefix) =>
        var geom := items[n].geometry.decoded;
        if geom.isEmpty then Err(EmptyGeometryError(geom)) else Ok(prefix + Collapse(items[n]))
  }

  /** The number of items whose decoded geometry has a type the switch does not name. */
  function CountOther(items: seq<Feature>): nat
    decreases |items|
  {
    if items == [] then 0
    else CountOther(items[..|items| - 1]) + (if items[|items| - 1].geometry.decoded.kind.Other? then 1 else 0)
  }

  /** Loop 1: builds newItems by appending, throwing on the first empty geometry. */
  method CollapseSmallGeometries(items: seq<Feature>) returns (r: Result<seq<Feature>>)
    ensures r == Collapsed(items)
  {
    var newItems: seq<Feature> := [];
    var i := 0;
    while i < |items|
      invariant 0 <= i <= |items|
      invariant Collapsed(items[..i]) == Ok(newItems)
    {
      var item := items[i];
      var geom := item.geometry.decoded;
      ghost var before := newItems;
      assert items[..i + 1][..i] == items[..i];
      if geom.isEmpty {
        r := Err(EmptyGeometryError(geom));
        CollapsedPrefixError(items, i + 1);
        return;
      }
      match geom.kind {
        case Point | MultiPoint =>
          newItems := newItems + [item];
        case LineString | MultiLineString =>
          if geom.length < 2.0 {
            newItems := newItems + [CentroidCopy(item)];
          } else {
            newItems := newItems + [item];
          }
        case Polygon | MultiPolygon =>
          if geom.area < 2.0 {
            newItems := newItems + [CentroidCopy(item)];
          } else {
            newItems := newItems + [item];
          }
        case GeometryCollection =>
          if geom.area < 2.0 {
            newItems := newItems + [CentroidCopy(item)];
          } else {
            newItems := newItems + [item];
          }
        case Other(_) =>
      }
      assert newItems == before + Collapse(item);
      assert Collapsed(items[..i + 1]) == Ok(newItems);
      i := i + 1;
    }
    assert items[..i] == items;
    r := Ok(newItems);
  }

  lemma CollapsedSnoc(s: seq<Feature>, x: Feature)
    requires Collapsed(s).Ok? && !x.geometry.decoded.isEmpty
    ensures Collapsed(s + [x]) == Ok(Collapsed(s).value + Collapse(x))
  {
    assert (s + [x])[..|s|] == s;
  }

  /** Once a prefix fails, the whole pass fails with the same error. */
  lemma {:induction false} CollapsedPrefixError(items: seq<Feature>, k: nat)
    requires k <= |items|
    requires Collapsed(items[..k]).Err?
    ensures Collapsed(items) == Collapsed(items[..k])
    decreases |items| - k
  {
    if k < |items| {
      var n := k;
      assert items[..k + 1][..n] == items[..k];
      CollapsedPrefixError(items, k + 1);
    } else {
      assert items[..k] == items;
    }
  }

  /** Without an empty geometry the pass succeeds. */
  lemma {:induction false} CollapsedOkIfNoEmpty(items: seq<Feature>)
    requires forall i :: 0 <= i < |items| ==> !items[i].geometry.decoded.isEmpty
    ensures Collapsed(items).Ok?
    decreases |items|
  {
    if items != [] {
      var n := |items| - 1;
      var prefix := items[..n];
      assert forall j :: 0 <= j < n ==> prefix[j] == items[j];
      CollapsedOkIfNoEmpty(prefix);
    }
  }

  /** The first item with an empty geometry decides the error of the whole pass. */
  lemma CollapsedErrAtFirstEmpty(items: seq<Feature>, i: nat)
    requires i < |items| && FirstEmpty(items, i)
    ensures Collapsed(items) == Err(EmptyGeometryError(items[i].geometry.decoded))
  {
    var prefix := items[..i];
    assert forall j :: 0 <= j < i ==> prefix[j] == items[j];
    CollapsedOkIfNoEmpty(prefix);
    assert items[..i + 1][..i] == prefix;
    CollapsedPrefixError(items, i + 1);
  }

  /** The pass fails exactly when some item's decoded geometry is empty. */
  lemma {:induction false} CollapsedFailsIffEmpty(items: seq<Feature>)
    ensures Collapsed(items).Err? <==> exists i :: 0 <= i < |items| && items[i].geometry.decoded.isEmpty
  {
    if i :| 0 <= i < |items| && items[i].geometry.decoded.isEmpty {
      assert items[..i + 1][..i] == items[..i];
      CollapsedPrefixError(items, i + 1);
    } else {
      CollapsedOkIfNoEmpty(items);
    }
  }

  /** Item i has an empty decoded geometry and no item before it has one. */
  predicate FirstEmpty(items: seq<Feature>, i: nat)
    requires i < |items|
  {
    items[i].geometry.decoded.isEmpty && forall j :: 0 <= j < i ==> !items[j].geometry.decoded.isEmpty
  }

  /** A successful pass drops exactly the items of an unnamed geometry type. */
  lemma {:induction false} CollapsedLength(items: seq<Feature>)
    requires Collapsed(items).Ok?
    ensures |Collapsed(items).value| == |items| - CountOther(items)
    decreases |items|
  {
    if items != [] {
      var n := |items| - 1;
      CollapsedLength(items[..n]);
    }
  }

  /**
   * When no geometry is empty and every type is one the switch names, the pass
   * emits one item per input, in order: the input itself, or its centroid copy
   * when it is a line or an area smaller than MinSize.
   */
  lemma {:induction false} CollapsedOneForOne(items: seq<Feature>)
    requires forall i :: 0 <= i < |items| ==> !items[i].geometry.decoded.isEmpty
    requires forall i :: 0 <= i < |items| ==> !items[i].geometry.decoded.kind.Other?
    ensures Collapsed(items).Ok?
    ensures |Collapsed(items).value| == |items|
    ensures forall i :: 0 <= i < |items| ==>
      Collapsed(items).value[i] == if IsTooSmall(items[i].geometry.decoded) then CentroidCopy(items[i]) else items[i]
    decreases |items|
  {
    if items != [] {
      var n := |items| - 1;
      var prefix := items[..n];
      CollapsedOneForOne(prefix);
      var out := Collapsed(items).value;
      assert out == Collapsed(prefix).value + Collapse(items[n]);
      forall i | 0 <= i < |items|
        ensures out[i] == if IsTooSmall(items[i].geometry.decoded) then CentroidCopy(items[i]) else items[i]
      {
        if i < n {
          assert out[i] == Collapsed(prefix).value[i];
          assert prefix[i] == items[i];
        } else {
          assert out[i] in Collapse(items[n]);
        }
      }
    }
  }

  /** Point and multipoint items come out of a successful collapse pass as the very same items. */
  lemma PointsPassThrough(items: seq<Feature>, i: nat)
    requires forall j :: 0 <= j < |items| ==> !items[j].geometry.decoded.isEmpty
    requires forall j :: 0 <= j < |items| ==> !items[j].geometry.decoded.kind.Other?
    requires i < |items| && IsPuntal(items[i].geometry.decoded.kind)
    ensures Collapsed(items).Ok? && |Collapsed(items).value| == |items|
    ensures Collapsed(items).value[i] == items[i]
  {
    CollapsedOneForOne(items);
  }

  // ---------------------------------------------------------------------------
  // Density cap
  // ---------------------------------------------------------------------------

  predicate IsPointAt(f: Feature, c: Coord)
  {
    f.geometry.geomType == PointType && f.geometry.firstCoordinate == c
  }

  /** The point-typed features of s whose first coordinate is c, in order. */
  function PointsAt(s: seq<Feature>, c: Coord): seq<Feature>
    decreases |s|
  {
    if s == [] then []
    else PointsAt(s[..|s| - 1], c) + (if IsPointAt(s[|s| - 1], c) then [s[|s| - 1]] else [])
  }

  /** The features of s that are not point-typed, in order. */
  function NonPoints(s: seq<Feature>): seq<Feature>
    decreases |s|
  {
    if s == [] then []
    else NonPoints(s[..|s| - 1]) + (if s[|s| - 1].geometry.geomType != PointType then [s[|s| - 1]] else [])
  }

  /**
   * Feature j survives the cap when it is not point-typed, or fewer than
   * MaxPointsPerPixel point-typed features before it share its first coordinate.
   */
  predicate Survives(s: seq<Feature>, j: nat)
    requires j < |s|
  {
    s[j].geometry.geomType != PointType || |PointsAt(s[..j], s[j].geometry.firstCoordinate)| < MaxPointsPerPixel
  }

  /** The reference cap: the surviving features of s, in order. */
  function Capped(s: seq<Feature>): (r: seq<Feature>)
    ensures |r| <= |s|
    decreases |s|
  {
    if s == [] then []
    else Capped(s[..|s| - 1]) + (if Survives(s, |s| - 1) then [s[|s| - 1]] else [])
  }

  /** a is obtained from b by deleting elements. */
  ghost predicate IsSubsequence<T>(a: seq<T>, b: seq<T>)
    decreases |b|
  {
    if b == [] then a == []
    else
      (a != [] && a[|a| - 1] == b[|b| - 1] && IsSubsequence(a[..|a| - 1], b[..|b| - 1]))
      || IsSubsequence(a, b[..|b| - 1])
  }

  function Min(a: int, b: int): int { if a <= b then a else b }

  /** HashMap.getOrDefault. */
  function GetOrDefault<K, V>(m: map<K, V>, k: K, d: V): (v: V)
    ensures k in m ==> v == m[k]
    ensures k !in m ==> v == d
  {
    if k in m then m[k] else d
  }

  lemma PointsAtSnoc(s: seq<Feature>, x: Feature, c: Coord)
    ensures PointsAt(s + [x], c) == PointsAt(s, c) + (if IsPointAt(x, c) then [x] else [])
  {
    assert (s + [x])[..|s|] == s;
  }

  lemma NonPointsSnoc(s: seq<Feature>, x: Feature)
    ensures NonPoints(s + [x]) == NonPoints(s) + (if x.geometry.geomType != PointType then [x] else [])
  {
    assert (s + [x])[..|s|] == s;
  }

  lemma CappedSnoc(s: seq<Feature>, x: Feature)
    ensures Capped(s + [x]) == Capped(s) +
      (if x.geometry.geomType != PointType || |PointsAt(s, x.geometry.firstCoordinate)| < MaxPointsPerPixel
       then [x] else [])
  {
    assert (s + [x])[..|s|] == s;
  }

  /** The counter holds, per pixel, how many point-typed features of done were seen there, capped at 3. */
  ghost predicate CountsSeen(seenPoints: map<Coord, int>, done: seq<Feature>)
  {
    forall c :: GetOrDefault(seenPoints, c, 0) == Min(MaxPointsPerPixel, |PointsAt(done, c)|)
  }

  /** One step of the filter keeps the counter in step with the features walked so far. */
  lemma CountsSeenStep(seenPoints: map<Coord, int>, done: seq<Feature>, x: Feature)
    requires CountsSeen(seenPoints, done)
    ensures var pt := x.geometry.firstCoordinate;
            var pointCount := GetOrDefault(seenPoints, pt, 0);
            && (x.geometry.geomType != PointType || pointCount > 2 ==> CountsSeen(seenPoints, done + [x]))
            && (x.geometry.geomType == PointType && pointCount <= 2 ==>
                  CountsSeen(seenPoints[pt := pointCount + 1], done + [x]))
  {
    forall c {
      PointsAtSnoc(done, x, c);
    }
  }

  /** Loop 2: the stream filter with its local counter of points per pixel. */
  method CapPointsPerPixel(items: seq<Feature>) returns (kept: seq<Feature>)
    ensures kept == Capped(items)
    ensures forall c :: |PointsAt(kept, c)| <= MaxPointsPerPixel
    ensures NonPoints(kept) == NonPoints(items)
    ensures IsSubsequence(kept, items)
  {
    var seenPoints: map<Coord, int> := map[];
    kept := [];
    var i := 0;
    while i < |items|
      invariant 0 <= i <= |items|
      invariant kept == Capped(items[..i])
      invariant CountsSeen(seenPoints, items[..i])
    {
      var item := items[i];
      ghost var done := items[..i];
      assert items[..i + 1] == done + [item];
      CappedSnoc(done, item);
      CountsSeenStep(seenPoints, done, item);
      if item.geometry.geomType != PointType {
        kept := kept + [item];
      } else {
        var pt := item.geometry.firstCoordinate;
        var pointCount := GetOrDefault(seenPoints, pt, 0);
        if pointCount > 2 {
          // a fourth point at this pixel: dropped, and not counted
        } else {
          seenPoints := seenPoints[pt := pointCount + 1];
          kept := kept + [item];
        }
      }
      i := i + 1;
    }
    assert items[..i] == items;
    CappedProperties(items);
  }

  /** Everything the filter promises, about the reference cap. */
  lemma CappedProperties(items: seq<Feature>)
    ensures forall c :: |PointsAt(Capped(items), c)| <= MaxPointsPerPixel
    ensures NonPoints(Capped(items)) == NonPoints(items)
    ensures IsSubsequence(Capped(items), items)
  {
    forall c ensures |PointsAt(Capped(items), c)| <= MaxPointsPerPixel {
      CappedFirstThree(items, c);
    }
    CappedKeepsNonPoints(items);
    CappedIsSubsequence(items);
  }

  /**
   * At each pixel the cap keeps exactly the first MaxPointsPerPixel
   * point-typed features, in order, and no other point there.
   */
  lemma {:induction false} CappedFirstThree(s: seq<Feature>, c: Coord)
    ensures var p := PointsAt(s, c); PointsAt(Capped(s), c) == p[..Min(MaxPointsPerPixel, |p|)]
    decreases |s|
  {
    if s != [] {
      var n := |s| - 1;
      var prefix, x := s[..n], s[n];
      assert s == prefix + [x];
      CappedFirstThree(prefix, c);
      CappedSnoc(prefix, x);
      PointsAtSnoc(prefix, x, c);
      var p, q := PointsAt(prefix, c), PointsAt(Capped(prefix), c);
      assert q == p[..Min(3, |p|)];
      if IsPointAt(x, c) {
        assert PointsAt(s, c) == p + [x];
        if |p| < 3 {
          assert Capped(s) == Capped(prefix) + [x];
          PointsAtSnoc(Capped(prefix), x, c);
          assert q == p;
          assert (p + [x])[..|p| + 1] == p + [x];
        } else {
          assert Capped(s) == Capped(prefix);
          assert (p + [x])[..3] == p[..3];
        }
      } else {
        assert PointsAt(s, c) == p;
        PointsAtSnoc(Capped(prefix), x, c);
        assert Capped(s) == Capped(prefix) + [x] || Capped(s) == Capped(prefix);
      }
    }
  }

  /** The cap never drops, adds or reorders a feature that is not point-typed. */
  lemma {:induction false} CappedKeepsNonPoints(s: seq<Feature>)
    ensures NonPoints(Capped(s)) == NonPoints(s)
    decreases |s|
  {
    if s != [] {
      var n := |s| - 1;
      var x := s[n];
      CappedKeepsNonPoints(s[..n]);
      assert s == s[..n] + [x];
      NonPointsSnoc(s[..n], x);
      if Survives(s, n) {
        assert Capped(s) == Capped(s[..n]) + [x];
        NonPointsSnoc(Capped(s[..n]), x);
      } else {
        assert Capped(s) == Capped(s[..n]);
      }
    }
  }

  /** The cap only deletes: its output is a subsequence of its input. */
  lemma {:induction false} CappedIsSubsequence(s: seq<Feature>)
    ensures IsSubsequence(Capped(s), s)
    decreases |s|
  {
    if s != [] {
      var n := |s| - 1;
      var x := s[n];
      CappedIsSubsequence(s[..n]);
      if Survives(s, n) {
        var a := Capped(s);
        assert a == Capped(s[..n]) + [x];
        assert a[..|a| - 1] == Capped(s[..n]);
      } else {
        assert Capped(s) == Capped(s[..n]);
      }
    }
  }

  // ---------------------------------------------------------------------------
  // The whole pass
  // ---------------------------------------------------------------------------

  /** postProcessLayerFeatures as a function of the profile's maxzoom, the zoom and the items. */
  function PostProcess(maxzoom: int, zoom: int, items: seq<Feature>): (r: Outcome)
    ensures r.Unchanged? <==> zoom == maxzoom
    ensures r.Replaced? ==> |r.items| <= |items|
  {
    if zoom == maxzoom then Unchanged
    else
      match Collapsed(items)
      case Err(e) => Failed(e)
      case Ok(newItems) => Replaced(Capped(newItems))
  }

  /** The profile object; only its maxzoom matters to the generalizer. */
  class OsmQaTiles {
    const maxzoom: int

    constructor(maxzoom: int)
      ensures this.maxzoom == maxzoom
    {
      this.maxzoom := maxzoom;
    }

    /** The layer name is accepted and not used, as in the source. */
    method PostProcessLayerFeatures(layer: string, zoom: int, items: seq<Feature>) returns (r: Outcome)
      ensures r == PostProcess(maxzoom, zoom, items)
      ensures r.Unchanged? <==> zoom == maxzoom
      ensures r.Failed? <==> zoom != maxzoom && exists i :: 0 <= i < |items| && items[i].geometry.decoded.isEmpty
      ensures zoom != maxzoom ==> forall i :: 0 <= i < |items| && FirstEmpty(items, i) ==>
                r == Failed(EmptyGeometryError(items[i].geometry.decoded))
      ensures r.Replaced? ==> forall c :: |PointsAt(r.items, c)| <= MaxPointsPerPixel
    {
      if zoom == maxzoom {
        return Unchanged;
      }
      CollapsedFailsIffEmpty(items);
      forall i | 0 <= i < |items| && FirstEmpty(items, i)
        ensures Collapsed(items) == Err(EmptyGeometryError(items[i].geometry.decoded))
      {
        CollapsedErrAtFirstEmpty(items, i);
      }
      var collapsed := CollapseSmallGeometries(items);
      match collapsed {
        case Err(e) =>
          r := Failed(e);
        case Ok(newItems) =>
          var kept := CapPointsPerPixel(newItems);
          r := Replaced(kept);
      }
    }
  }
}
