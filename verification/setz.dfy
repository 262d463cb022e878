/** Z injection for -zfield: the recursive SetZ over a geometry tree.

    SetZ dispatches on the flattened type code.  A point gets its single
    vertex rewritten, line strings and linear rings get every vertex
    rewritten, and polygons and collections recurse into their members.
    Every other type is left alone.

    SetPoint with a Z value makes the geometry it is applied to 3D, and
    the caller clones the result so that the containers follow ("This
    will correct the coordinate dimension to 3"): every node SetZ
    handles comes out with the 25D bit set.

    As written, the Point branch passes `(int)GetX(0)` and `(int)GetY(0)`
    back to SetPoint, which truncates the point's planar coordinates
    toward zero.  `SetZAsWritten` models that; `SetZ` is the corrected
    operation (X and Y kept, as in the line-string branch) used by the
    rest of the model. */
module ZInjection {
  import opened Wrappers
  import opened Geometries

  /** C#'s `(int)` cast of an in-range double: truncation toward zero. */
  function TruncateTowardZero(x: real): real {
    if x >= 0.0 then x.Floor as real else -((-x).Floor as real)
  }

  /** Types whose members SetZ recurses into. */
  predicate IsContainerType(t: bv32) {
    var f := Flatten(t);
    f == WkbPolygon || f == WkbMultiPoint || f == WkbMultiLineString
    || f == WkbMultiPolygon || f == WkbGeometryCollection
  }

  /** Types SetZ changes at all. */
  predicate IsZTarget(t: bv32) {
    var f := Flatten(t);
    f == WkbPoint || f == WkbLineString || f == WkbLinearRing || IsContainerType(t)
  }

  /** SetPoint(0, x, y, z) on a point.  An empty point reads back
      (0, 0) from GetX(0)/GetY(0) and becomes non-empty. */
  function PointWithZ(points: seq<Vertex>, z: real, truncate: bool): seq<Vertex> {
    if |points| == 0 then [Vertex(0.0, 0.0, z)]
    else if truncate then
      [Vertex(TruncateTowardZero(points[0].x), TruncateTowardZero(points[0].y), z)] + points[1..]
    else [points[0].(z := z)] + points[1..]
  }

  function AllWithZ(points: seq<Vertex>, z: real): seq<Vertex> {
    seq(|points|, i requires 0 <= i < |points| => points[i].(z := z))
  }

  /** The tree walk shared by the as-written and the corrected SetZ;
      `truncate` selects the Point branch's integer cast. */
  function SetZTree(g: Geometry, z: real, truncate: bool): Geometry
    decreases g
  {
    var t := Flatten(g.gtype);
    if t == WkbPoint then g.(gtype := Make3D(g.gtype), points := PointWithZ(g.points, z, truncate))
    else if t == WkbLineString || t == WkbLinearRing then g.(gtype := Make3D(g.gtype), points := AllWithZ(g.points, z))
    else if IsContainerType(g.gtype) then
      g.(gtype := Make3D(g.gtype),
         parts := seq(|g.parts|, i requires 0 <= i < |g.parts| => SetZTree(g.parts[i], z, truncate)))
    else g
  }

  /** SetZ as corrected, followed by the clone: nothing on null;
      otherwise the same flattened type and member count, made 3D when
      SetZ handles the type; a geometry SetZ does not handle comes back
      unchanged. */
  function SetZ(g: Option<Geometry>, z: real): (r: Option<Geometry>)
    ensures g.None? <==> r.None?
    ensures g.Some? ==> Flatten(r.value.gtype) == Flatten(g.value.gtype) && |r.value.parts| == |g.value.parts|
    ensures g.Some? && IsZTarget(g.value.gtype) ==> Has25D(r.value.gtype)
    ensures g.Some? && !IsZTarget(g.value.gtype) ==> r == g
  {
    match g
    case None => None
    case Some(h) => Some(SetZTree(h, z, false))
  }

  /** SetZ as written, with the Point branch's `(int)` casts. */
  function SetZAsWritten(g: Option<Geometry>, z: real): (r: Option<Geometry>)
    ensures g.None? <==> r.None?
    ensures g.Some? ==> Flatten(r.value.gtype) == Flatten(g.value.gtype) && |r.value.parts| == |g.value.parts|
    ensures g.Some? && IsZTarget(g.value.gtype) ==> Has25D(r.value.gtype)
    ensures g.Some? && !IsZTarget(g.value.gtype) ==> r == g
  {
    match g
    case None => None
    case Some(h) => Some(SetZTree(h, z, true))
  }

  // ----- Reference views of a geometry tree -----

  function Concat<T>(ss: seq<seq<T>>): seq<T> {
    if |ss| == 0 then [] else ss[0] + Concat(ss[1..])
  }

  /** No point in the tree is empty (SetZ fills an empty point in). */
  predicate NoEmptyPoint(g: Geometry)
    decreases g
  {
    && (Flatten(g.gtype) == WkbPoint ==> |g.points| > 0)
    && forall i :: 0 <= i < |g.parts| ==> NoEmptyPoint(g.parts[i])
  }

  /** Same flattened type codes, vertex counts and member counts, all
      the way down. */
  predicate SameShape(a: Geometry, b: Geometry)
    decreases a
  {
    && Flatten(a.gtype) == Flatten(b.gtype)
    && |a.points| == |b.points|
    && |a.parts| == |b.parts|
    && forall i :: 0 <= i < |a.parts| ==> SameShape(a.parts[i], b.parts[i])
  }

  /** Every vertex of the tree, projected to (x, y), in document order. */
  function Planar(g: Geometry): seq<(real, real)>
    decreases g
  {
    seq(|g.points|, i requires 0 <= i < |g.points| => (g.points[i].x, g.points[i].y))
    + Concat(seq(|g.parts|, i requires 0 <= i < |g.parts| => Planar(g.parts[i])))
  }

  /** The vertices SetZ is meant to reach: a point's vertex, every vertex
      of a line string or ring, and recursively those of the members of
      polygons and collections. */
  function Reached(g: Geometry): seq<Vertex>
    decreases g
  {
    var t := Flatten(g.gtype);
    if t == WkbPoint then (if |g.points| == 0 then [] else g.points[..1])
    else if t == WkbLineString || t == WkbLinearRing then g.points
    else if IsContainerType(g.gtype) then
      Concat(seq(|g.parts|, i requires 0 <= i < |g.parts| => Reached(g.parts[i])))
    else []
  }

  predicate AllZ(vs: seq<Vertex>, z: real) {
    forall i :: 0 <= i < |vs| ==> vs[i].z == z
  }

  lemma ConcatAllZ(ss: seq<seq<Vertex>>, z: real)
    requires forall i :: 0 <= i < |ss| ==> AllZ(ss[i], z)
    ensures AllZ(Concat(ss), z)
  {
    if |ss| > 0 {
      ConcatAllZ(ss[1..], z);
      var c := Concat(ss);
      forall k | 0 <= k < |c| ensures c[k].z == z {
        if k >= |ss[0]| {
          assert c[k] == Concat(ss[1..])[k - |ss[0]|];
        }
      }
    }
  }

  lemma ConcatSameLength<T, U>(ss: seq<seq<T>>, tt: seq<seq<U>>)
    requires |ss| == |tt| && forall i :: 0 <= i < |ss| ==> |ss[i]| == |tt[i]|
    ensures |Concat(ss)| == |Concat(tt)|
  {
    if |ss| > 0 {
      ConcatSameLength(ss[1..], tt[1..]);
    }
  }

  // ----- Properties of the corrected SetZ -----

  lemma SameShapeReflexive(g: Geometry)
    ensures SameShape(g, g)
    decreases g
  {
    forall i | 0 <= i < |g.parts| ensures SameShape(g.parts[i], g.parts[i]) {
      SameShapeReflexive(g.parts[i]);
    }
  }

  /** SetZ leaves the shape of the tree alone: flattened type codes,
      vertex counts and member counts are unchanged. */
  lemma {:induction false} SetZKeepsShape(g: Geometry, z: real)
    requires NoEmptyPoint(g)
    ensures SameShape(SetZTree(g, z, false), g)
    decreases g
  {
    var r := SetZTree(g, z, false);
    forall i | 0 <= i < |g.parts|
      ensures SameShape(r.parts[i], g.parts[i])
    {
      if IsContainerType(g.gtype) && Flatten(g.gtype) != WkbPoint
         && Flatten(g.gtype) != WkbLineString && Flatten(g.gtype) != WkbLinearRing {
        SetZKeepsShape(g.parts[i], z);
      } else {
        assert r.parts[i] == g.parts[i];
        SameShapeReflexive(g.parts[i]);
      }
    }
  }

  /** SetZ leaves every vertex's X and Y where it was. */
  lemma {:induction false} SetZKeepsPlanar(g: Geometry, z: real)
    requires NoEmptyPoint(g)
    ensures Planar(SetZTree(g, z, false)) == Planar(g)
    decreases g
  {
    var r := SetZTree(g, z, false);
    forall i | 0 <= i < |g.parts|
      ensures Planar(r.parts[i]) == Planar(g.parts[i])
    {
      SetZKeepsPlanar(g.parts[i], z);
      if !IsContainerType(g.gtype) {
        assert r.parts[i] == g.parts[i];
      }
    }
    assert seq(|r.parts|, i requires 0 <= i < |r.parts| => Planar(r.parts[i]))
        == seq(|g.parts|, i requires 0 <= i < |g.parts| => Planar(g.parts[i]));
    assert seq(|r.points|, i requires 0 <= i < |r.points| => (r.points[i].x, r.points[i].y))
        == seq(|g.points|, i requires 0 <= i < |g.points| => (g.points[i].x, g.points[i].y));
  }

  /** Every vertex SetZ is meant to reach ends up at height z, and no
      reachable vertex is lost or added. */
  lemma {:induction false} SetZReachesEveryVertex(g: Geometry, z: real)
    requires NoEmptyPoint(g)
    ensures AllZ(Reached(SetZTree(g, z, false)), z)
    ensures |Reached(SetZTree(g, z, false))| == |Reached(g)|
    decreases g
  {
    var r := SetZTree(g, z, false);
    if IsContainerType(g.gtype) && Flatten(g.gtype) != WkbPoint
       && Flatten(g.gtype) != WkbLineString && Flatten(g.gtype) != WkbLinearRing {
      var rs := seq(|r.parts|, i requires 0 <= i < |r.parts| => Reached(r.parts[i]));
      var gs := seq(|g.parts|, i requires 0 <= i < |g.parts| => Reached(g.parts[i]));
      forall i | 0 <= i < |g.parts|
        ensures AllZ(rs[i], z) && |rs[i]| == |gs[i]|
      {
        SetZReachesEveryVertex(g.parts[i], z);
      }
      ConcatAllZ(rs, z);
      ConcatSameLength(rs, gs);
    }
  }

  /** Every node SetZ handles is 3D, down through the members of the
      containers. */
  predicate Made3D(g: Geometry)
    decreases g
  {
    && (IsZTarget(g.gtype) ==> Has25D(g.gtype))
    && (IsContainerType(g.gtype) ==> forall i :: 0 <= i < |g.parts| ==> Made3D(g.parts[i]))
  }

  /** After SetZ and the clone the geometry is 3D at every node SetZ
      handles. */
  lemma {:induction false} SetZMakes3D(g: Geometry, z: real)
    ensures Made3D(SetZTree(g, z, false))
    decreases g
  {
    var r := SetZTree(g, z, false);
    if IsContainerType(g.gtype) && Flatten(g.gtype) != WkbPoint
       && Flatten(g.gtype) != WkbLineString && Flatten(g.gtype) != WkbLinearRing {
      forall i | 0 <= i < |r.parts| ensures Made3D(r.parts[i]) {
        SetZMakes3D(g.parts[i], z);
      }
    }
  }

  /** Assigning Z twice is the same as assigning the second value once;
      in particular SetZ is idempotent. */
  lemma {:induction false} SetZLastWins(g: Geometry, z1: real, z2: real)
    ensures SetZTree(SetZTree(g, z1, false), z2, false) == SetZTree(g, z2, false)
    decreases g
  {
    var once := SetZTree(g, z1, false);
    var twice := SetZTree(once, z2, false);
    var direct := SetZTree(g, z2, false);
    if IsContainerType(g.gtype) && Flatten(g.gtype) != WkbPoint
       && Flatten(g.gtype) != WkbLineString && Flatten(g.gtype) != WkbLinearRing {
      forall i | 0 <= i < |g.parts|
        ensures twice.parts[i] == direct.parts[i]
      {
        SetZLastWins(g.parts[i], z1, z2);
      }
      assert twice.parts == direct.parts;
    } else if Flatten(g.gtype) == WkbLineString || Flatten(g.gtype) == WkbLinearRing {
      assert twice.points == direct.points;
    }
  }

  // ----- The as-written Point branch -----

  /** As written, SetZ moves a point with a fractional coordinate:
      POINT (0.5 2.5) with Z 7 becomes POINT Z (0 2 7). */
  lemma SetZAsWrittenMovesPoint()
    ensures var p := Geometry(WkbPoint, [Vertex(0.5, 2.5, 0.0)], []);
            && SetZAsWritten(Some(p), 7.0).value.points == [Vertex(0.0, 2.0, 7.0)]
            && SetZ(Some(p), 7.0).value.points == [Vertex(0.5, 2.5, 7.0)]
  {
    var p := Geometry(WkbPoint, [Vertex(0.5, 2.5, 0.0)], []);
    assert (0.5).Floor == 0;
    assert (2.5).Floor == 2;
    assert SetZAsWritten(Some(p), 7.0).value.points == PointWithZ(p.points, 7.0, true);
    assert PointWithZ(p.points, 7.0, true) == [Vertex(0.0, 2.0, 7.0)] + p.points[1..];
  }
}
