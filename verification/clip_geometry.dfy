/** The clip geometry read by LoadGeometry for -clipsrc and -clipdst.

    The features of the clip layer are read in order; their polygons,
    and the members of their multipolygons, are gathered into one
    multipolygon.  A feature without geometry is passed over; any other
    geometry type ends the load with no geometry.  AddGeometry of a 3D
    member makes the multipolygon 3D.  Opening the data source and
    choosing the layer are left to the caller: the load starts from the
    sequence of the features' geometries. */
module ClipGeometry {
  import opened Wrappers
  import opened Geometries

  predicate Polygonal(g: Geometry) {
    Flatten(g.gtype) == WkbPolygon || Flatten(g.gtype) == WkbMultiPolygon
  }

  /** What one feature's geometry adds to the multipolygon: the polygon
      itself, or each member of a multipolygon. */
  function Contribution(g: Option<Geometry>): seq<Geometry> {
    if g.None? then []
    else if Flatten(g.value.gtype) == WkbPolygon then [g.value]
    else if Flatten(g.value.gtype) == WkbMultiPolygon then g.value.parts
    else []
  }

  /** The members gathered from the geometries, in reading order. */
  function Members(gs: seq<Option<Geometry>>): seq<Geometry>
    decreases |gs|
  {
    if |gs| == 0 then [] else Members(gs[..|gs| - 1]) + Contribution(gs[|gs| - 1])
  }

  /** Every geometry present is a polygon or a multipolygon. */
  predicate AllPolygonal(gs: seq<Option<Geometry>>) {
    forall i :: 0 <= i < |gs| && gs[i].Some? ==> Polygonal(gs[i].value)
  }

  predicate AnyGeometry(gs: seq<Option<Geometry>>) {
    exists i :: 0 <= i < |gs| && gs[i].Some?
  }

  function EmptyMultiPolygon(): Geometry {
    Geometry(WkbMultiPolygon, [], [])
  }

  /** Some member is 3D. */
  predicate Any3D(ms: seq<Geometry>) {
    exists i :: 0 <= i < |ms| && Has25D(ms[i].gtype)
  }

  lemma Any3DAppend(a: seq<Geometry>, b: seq<Geometry>)
    ensures Any3D(a + b) <==> Any3D(a) || Any3D(b)
  {
    if Any3D(a + b) {
      var i :| 0 <= i < |a + b| && Has25D((a + b)[i].gtype);
      if i >= |a| {
        assert b[i - |a|] == (a + b)[i];
      }
    }
    if Any3D(a) {
      var i :| 0 <= i < |a| && Has25D(a[i].gtype);
      assert (a + b)[i] == a[i];
    }
    if Any3D(b) {
      var i :| 0 <= i < |b| && Has25D(b[i].gtype);
      assert (a + b)[|a| + i] == b[i];
    }
  }

  /** AddGeometry of each member in turn: the members are appended, and
      the collection becomes 3D when one of them is. */
  function AddMembers(multi: Geometry, ms: seq<Geometry>): Geometry {
    multi.(gtype := if Any3D(ms) then Make3D(multi.gtype) else multi.gtype, parts := multi.parts + ms)
  }

  /** The multipolygon gathered from `ms`. */
  predicate GatheredFrom(g: Geometry, ms: seq<Geometry>) {
    && Flatten(g.gtype) == WkbMultiPolygon && g.points == [] && g.parts == ms
    && (Has25D(g.gtype) <==> Any3D(ms))
  }

  /** Reading one more geometry. */
  lemma PrefixStep(gs: seq<Option<Geometry>>, i: nat)
    requires i < |gs|
    ensures Members(gs[..i + 1]) == Members(gs[..i]) + Contribution(gs[i])
    ensures AnyGeometry(gs[..i + 1]) <==> AnyGeometry(gs[..i]) || gs[i].Some?
    ensures AllPolygonal(gs[..i + 1]) <==> AllPolygonal(gs[..i]) && (gs[i].Some? ==> Polygonal(gs[i].value))
  {
    assert gs[..i + 1][..i] == gs[..i];
    assert gs[..i + 1][i] == gs[i];
    if AnyGeometry(gs[..i + 1]) && gs[i].None? {
      var j :| 0 <= j < i + 1 && gs[..i + 1][j].Some?;
      assert gs[..i][j].Some?;
    }
  }

  /** The reading loop of LoadGeometry.  The result is null when a
      geometry is neither a polygon nor a multipolygon, and when no
      feature has a geometry; otherwise it is a multipolygon holding the
      gathered members, 3D exactly when one of them is. */
  method LoadGeometry(gs: seq<Option<Geometry>>) returns (r: Option<Geometry>)
    ensures r.None? <==> !AllPolygonal(gs) || !AnyGeometry(gs)
    ensures r.Some? ==> Flatten(r.value.gtype) == WkbMultiPolygon && r.value.points == [] && r.value.parts == Members(gs)
    ensures r.Some? ==> (Has25D(r.value.gtype) <==> exists i :: 0 <= i < |Members(gs)| && Has25D(Members(gs)[i].gtype))
  {
    var acc: Option<Geometry> := None;
    var i := 0;
    while i < |gs|
      invariant 0 <= i <= |gs|
      invariant AllPolygonal(gs[..i])
      invariant acc.None? <==> !AnyGeometry(gs[..i])
      invariant acc.None? ==> Members(gs[..i]) == []
      invariant acc.Some? ==> GatheredFrom(acc.value, Members(gs[..i]))
    {
      PrefixStep(gs, i);
      if gs[i].Some? {
        var g := gs[i].value;
        var multi := if acc.None? then EmptyMultiPolygon() else acc.value;
        var t := Flatten(g.gtype);
        if t == WkbPolygon || t == WkbMultiPolygon {
          Any3DAppend(multi.parts, Contribution(gs[i]));
          acc := Some(AddMembers(multi, if t == WkbPolygon then [g] else g.parts));
        } else {
          assert !AllPolygonal(gs);
          return None;
        }
      }
      i := i + 1;
    }
    assert gs[..i] == gs;
    return acc;
  }
}
