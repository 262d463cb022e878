/** OGR geometry type codes and the geometry tree the translator walks.

    Geometry type codes are the 32-bit `wkbGeometryType` values of the
    pre-ISO OGR API, in which a third dimension is signalled by the
    single high bit `wkb25DBit`.  They are kept as `bv32` so that
    `wkbFlatten` and the 25D-bit arithmetic of the translator are the
    same bit operations as in the source. */
module Geometries {

  const WkbUnknown: bv32 := 0
  const WkbPoint: bv32 := 1
  const WkbLineString: bv32 := 2
  const WkbPolygon: bv32 := 3
  const WkbMultiPoint: bv32 := 4
  const WkbMultiLineString: bv32 := 5
  const WkbMultiPolygon: bv32 := 6
  const WkbGeometryCollection: bv32 := 7
  const WkbNone: bv32 := 100
  const WkbLinearRing: bv32 := 101
  const Wkb25DBit: bv32 := 0x8000_0000

  /** wkbFlatten: the type code with the 25D bit cleared and every
      other bit kept. */
  function Flatten(t: bv32): (r: bv32)
    ensures r & Wkb25DBit == 0
    ensures r | (t & Wkb25DBit) == t
  {
    t & !Wkb25DBit
  }

  predicate Has25D(t: bv32) {
    t & Wkb25DBit != 0
  }

  /** The same geometry type, marked as 3D. */
  function Make3D(t: bv32): (r: bv32)
    ensures Flatten(r) == Flatten(t) && Has25D(r)
  {
    t | Wkb25DBit
  }

  /** The multi-part types whose members -explodecollections splits. */
  predicate IsCollectionType(t: bv32) {
    var f := Flatten(t);
    f == WkbMultiPoint || f == WkbMultiLineString || f == WkbMultiPolygon || f == WkbGeometryCollection
  }

  datatype Vertex = Vertex(x: real, y: real, z: real)

  /** A geometry as OGR exposes it: a type code, its own vertices
      (points, line strings, rings) and its member geometries
      (polygon rings, collection members). */
  datatype Geometry = Geometry(gtype: bv32, points: seq<Vertex>, parts: seq<Geometry>)

  predicate OnBoxCorner(v: Vertex, xmin: real, ymin: real, xmax: real, ymax: real) {
    (v.x == xmin || v.x == xmax) && (v.y == ymin || v.y == ymax) && v.z == 0.0
  }

  /** Two consecutive ring vertices joined by a horizontal or vertical edge. */
  predicate AxisAligned(a: Vertex, b: Vertex) {
    a.x == b.x || a.y == b.y
  }

  /** The polygon built for -spat, -clipsrc and -clipdst from
      "xmin ymin xmax ymax": one closed linear ring through the four
      corners, starting and ending at (xmin, ymin) and going to
      (xmin, ymax) first.  The ring's vertices are added with a Z of 0,
      which makes the ring 3D, and the polygon takes its ring's
      dimension. */
  function BoundingBoxPolygon(xmin: real, ymin: real, xmax: real, ymax: real): (g: Geometry)
    ensures Flatten(g.gtype) == WkbPolygon && Has25D(g.gtype) && g.points == [] && |g.parts| == 1
    ensures Flatten(g.parts[0].gtype) == WkbLinearRing && Has25D(g.parts[0].gtype) && g.parts[0].parts == []
    ensures |g.parts[0].points| == 5
    ensures g.parts[0].points[0] == g.parts[0].points[4]
    ensures g.parts[0].points[0] == Vertex(xmin, ymin, 0.0)
    ensures g.parts[0].points[1] == Vertex(xmin, ymax, 0.0)
    ensures forall i :: 0 <= i < 5 ==> OnBoxCorner(g.parts[0].points[i], xmin, ymin, xmax, ymax)
    ensures forall i :: 0 <= i < 4 ==> AxisAligned(g.parts[0].points[i], g.parts[0].points[i + 1])
    ensures xmin != xmax && ymin != ymax ==>
              forall i, j :: 0 <= i < j < 4 ==> g.parts[0].points[i] != g.parts[0].points[j]
  {
    var ring := [Vertex(xmin, ymin, 0.0), Vertex(xmin, ymax, 0.0), Vertex(xmax, ymax, 0.0),
                 Vertex(xmax, ymin, 0.0), Vertex(xmin, ymin, 0.0)];
    Geometry(Make3D(WkbPolygon), [], [Geometry(Make3D(WkbLinearRing), ring, [])])
  }
}
