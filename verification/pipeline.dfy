/** The per-part geometry pipeline of the feature loop: explode planning
    and the fixed sequence of geometry stages applied before a part is
    written.

    GDAL's geometry primitives (SimplifyPreserveTopology, Intersection,
    IsEmpty, Transform, AssignSpatialReference and the ForceTo*
    conversions) are the fields of `GeometryOps` and are not interpreted. */
module Pipeline {
  import opened Wrappers
  import opened Geometries
  import opened ZInjection
  import opened LayerResolution

  datatype GeomOp = NoOp | Segmentize | SimplifyPreserveTopology

  datatype GeometryOps = GeometryOps(
    simplify: (Geometry, real) -> Option<Geometry>,
    intersection: (Geometry, Geometry) -> Option<Geometry>,
    isEmpty: Geometry -> bool,
    transform: Geometry -> Option<Geometry>,   // None: Transform returned an error
    assignSrs: Geometry -> Geometry,
    forceTo: (ForceMode, Geometry) -> Geometry)

  /** The settings of TranslateLayer that shape the geometry stages. */
  datatype PartConfig = PartConfig(
    zFieldIndex: int,          // iSrcZField, -1 without -zfield
    geomOp: GeomOp,
    geomOpParam: real,
    clipSrc: Option<Geometry>,
    clipDst: Option<Geometry>,
    reproject: bool,           // a coordinate transformation was set up
    hasOutputSrs: bool,        // poOutputSRS != null
    force: ForceMode,
    skipFailures: bool)

  // ----- Explode -----

  /** How many times the part loop runs for one feature (nIters), and
      how many members it extracts (nParts; 0 means the whole geometry). */
  datatype ExplodePlan = ExplodePlan(nParts: nat, nIters: nat)

  predicate Explodes(explode: bool, g: Option<Geometry>) {
    explode && g.Some? && IsCollectionType(g.value.gtype)
  }

  function PlanExplode(explode: bool, g: Option<Geometry>): (p: ExplodePlan)
    ensures p.nIters >= 1
    ensures p.nIters == (if p.nParts > 0 then p.nParts else 1)
    ensures Explodes(explode, g) ==> p.nParts == |g.value.parts|
    ensures !Explodes(explode, g) ==> p == ExplodePlan(0, 1)
  {
    if Explodes(explode, g) then
      var n := |g.value.parts|;
      ExplodePlan(n, if n == 0 then 1 else n)
    else ExplodePlan(0, 1)
  }

  /** The member iteration iPart works on, if any. */
  function PartIndex(p: ExplodePlan, iPart: nat): Option<nat> {
    if p.nParts > 0 then Some(iPart) else None
  }

  /** The geometry iteration iPart starts from. */
  function PartInput(g: Geometry, part: Option<nat>): Geometry
    requires part.Some? ==> part.value < |g.parts|
  {
    if part.Some? then g.parts[part.value] else g
  }

  /** Across its iterations the part loop visits each member of an
      exploded collection once, in order, and otherwise the whole
      geometry exactly once. */
  lemma ExplodeVisitsMembers(explode: bool, g: Geometry)
    ensures var p := PlanExplode(explode, Some(g));
            && (forall i :: 0 <= i < p.nIters ==> PartIndex(p, i).Some? ==> PartIndex(p, i).value < |g.parts|)
            && var visited := seq(p.nIters, i requires 0 <= i < p.nIters =>
                                    PartInput(g, PartIndex(p, i)));
               visited == (if Explodes(explode, Some(g)) && |g.parts| > 0 then g.parts else [g])
  {
    var p := PlanExplode(explode, Some(g));
    var visited := seq(p.nIters, i requires 0 <= i < p.nIters => PartInput(g, PartIndex(p, i)));
    if Explodes(explode, Some(g)) && |g.parts| > 0 {
      assert |visited| == |g.parts|;
      forall i | 0 <= i < |g.parts| ensures visited[i] == g.parts[i] { }
    }
  }

  /** OGR's multi geometries hold members of their single-part type:
      points in a multipoint, line strings in a multilinestring,
      polygons in a multipolygon. */
  predicate MembersMatchMulti(g: Geometry) {
    var f := Flatten(g.gtype);
    forall i :: 0 <= i < |g.parts| ==>
      && (f == WkbMultiPoint ==> Flatten(g.parts[i].gtype) == WkbPoint)
      && (f == WkbMultiLineString ==> Flatten(g.parts[i].gtype) == WkbLineString)
      && (f == WkbMultiPolygon ==> Flatten(g.parts[i].gtype) == WkbPolygon)
  }

  /** An exploded member has the type of the layer created for it: when
      a feature's geometry has the source layer's multi type, every part
      the loop extracts has the flattened type of the layer created with
      -explodecollections; with -zfield, the part after Z injection has
      exactly the layer's type, 25D bit included. */
  lemma ExplodedPartsMatchLayerType(srcType: bv32, g: Geometry, zField: bool, z: real)
    requires Flatten(srcType) == WkbMultiPoint || Flatten(srcType) == WkbMultiLineString
             || Flatten(srcType) == WkbMultiPolygon
    requires Flatten(g.gtype) == Flatten(srcType) && MembersMatchMulti(g)
    ensures var p := PlanExplode(true, Some(g));
            forall i :: 0 <= i < p.nParts ==>
              Flatten(PartInput(g, PartIndex(p, i)).gtype) == Flatten(DeriveLayerType(DefaultType, srcType, true, zField))
    ensures var p := PlanExplode(true, Some(g));
            zField ==> forall i :: 0 <= i < p.nParts ==>
              SetZTree(PartInput(g, PartIndex(p, i)), z, false).gtype == DeriveLayerType(DefaultType, srcType, true, true)
  {
    var p := PlanExplode(true, Some(g));
    var layer := DeriveLayerType(DefaultType, srcType, true, zField);
    forall i | 0 <= i < p.nParts
      ensures Flatten(PartInput(g, PartIndex(p, i)).gtype) == Flatten(layer)
    {
      assert PartInput(g, PartIndex(p, i)) == g.parts[i];
    }
    if zField {
      forall i | 0 <= i < p.nParts
        ensures SetZTree(PartInput(g, PartIndex(p, i)), z, false).gtype == layer
      {
        var part := PartInput(g, PartIndex(p, i));
        var t := SetZTree(part, z, false).gtype;
        assert Flatten(t) == Flatten(layer) && Has25D(t) && Has25D(layer);
        FlattenAndBitDecide(t, layer);
      }
    }
  }

  /** A type code is its flattened code plus its 25D bit. */
  lemma FlattenAndBitDecide(a: bv32, b: bv32)
    requires Flatten(a) == Flatten(b) && Has25D(a) == Has25D(b)
    ensures a == b
  {
    assert a == Flatten(a) | (a & Wkb25DBit);
    assert b == Flatten(b) | (b & Wkb25DBit);
  }

  // ----- Stages -----

  /** The geometry stages, in the order the loop applies them. */
  datatype Stage = Extract | InjectZ | Simplify | ClipSource | Reproject | AssignSrs | ClipDestination | Force

  function Rank(s: Stage): nat {
    match s
    case Extract => 0
    case InjectZ => 1
    case Simplify => 2
    case ClipSource => 3
    case Reproject => 4
    case AssignSrs => 5
    case ClipDestination => 6
    case Force => 7
  }

  predicate InStageOrder(ss: seq<Stage>) {
    forall i, j :: 0 <= i < j < |ss| ==> Rank(ss[i]) < Rank(ss[j])
  }

  predicate SimplifyOn(cfg: PartConfig) {
    cfg.geomOp == SimplifyPreserveTopology && cfg.geomOpParam > 0.0
  }

  /** Whether the configuration asks for a stage: extraction only for an
      exploded member, simplification only with a positive tolerance
      (segmentize does nothing), assigning the output SRS only when no
      transformation is set up, forcing only for the three forced types. */
  predicate Enabled(cfg: PartConfig, extract: bool, s: Stage) {
    match s
    case Extract => extract
    case InjectZ => cfg.zFieldIndex != -1
    case Simplify => SimplifyOn(cfg)
    case ClipSource => cfg.clipSrc.Some?
    case Reproject => cfg.reproject
    case AssignSrs => !cfg.reproject && cfg.hasOutputSrs
    case ClipDestination => cfg.clipDst.Some?
    case Force => cfg.force != NoForce
  }

  /** The stage, when the configuration enables it. */
  function Opt(cfg: PartConfig, extract: bool, s: Stage): seq<Stage> {
    if Enabled(cfg, extract, s) then [s] else []
  }

  /** The stages planned before stage `s`, in stage order. */
  function PlannedBefore(cfg: PartConfig, extract: bool, s: Stage): seq<Stage> {
    var e := Opt(cfg, extract, Extract);
    var z := Opt(cfg, extract, InjectZ);
    var si := Opt(cfg, extract, Simplify);
    var cs := Opt(cfg, extract, ClipSource);
    var rp := Opt(cfg, extract, Reproject);
    var sr := Opt(cfg, extract, AssignSrs);
    var cd := Opt(cfg, extract, ClipDestination);
    match s
    case Extract => []
    case InjectZ => e
    case Simplify => e + z
    case ClipSource => e + z + si
    case Reproject => e + z + si + cs
    case AssignSrs => e + z + si + cs + rp
    case ClipDestination => e + z + si + cs + rp + sr
    case Force => e + z + si + cs + rp + sr + cd
  }

  /** The stages a part goes through when nothing drops or fails it. */
  function Planned(cfg: PartConfig, extract: bool): seq<Stage> {
    PlannedBefore(cfg, extract, Force) + Opt(cfg, extract, Force)
  }

  lemma InOpt(cfg: PartConfig, extract: bool, s: Stage, t: Stage)
    ensures s in Opt(cfg, extract, t) <==> s == t && Enabled(cfg, extract, t)
  {
  }

  /** A stage is planned exactly when the configuration enables it. */
  lemma PlannedMembers(cfg: PartConfig, extract: bool, s: Stage)
    ensures s in Planned(cfg, extract) <==> Enabled(cfg, extract, s)
  {
    InOpt(cfg, extract, s, Extract);
    InOpt(cfg, extract, s, InjectZ);
    InOpt(cfg, extract, s, Simplify);
    InOpt(cfg, extract, s, ClipSource);
    InOpt(cfg, extract, s, Reproject);
    InOpt(cfg, extract, s, AssignSrs);
    InOpt(cfg, extract, s, ClipDestination);
    InOpt(cfg, extract, s, Force);
    assert Planned(cfg, extract)
        == Opt(cfg, extract, Extract) + Opt(cfg, extract, InjectZ) + Opt(cfg, extract, Simplify)
           + Opt(cfg, extract, ClipSource) + Opt(cfg, extract, Reproject) + Opt(cfg, extract, AssignSrs)
           + Opt(cfg, extract, ClipDestination) + Opt(cfg, extract, Force);
  }

  /** Every stage in `ss` ranks below `k`. */
  predicate RanksBelow(ss: seq<Stage>, k: nat) {
    forall i :: 0 <= i < |ss| ==> Rank(ss[i]) < k
  }

  lemma AppendStage(ss: seq<Stage>, cfg: PartConfig, extract: bool, s: Stage)
    requires InStageOrder(ss) && RanksBelow(ss, Rank(s))
    ensures InStageOrder(ss + Opt(cfg, extract, s)) && RanksBelow(ss + Opt(cfg, extract, s), Rank(s) + 1)
  {
    if Enabled(cfg, extract, s) {
      var t := ss + [s];
      assert Opt(cfg, extract, s) == [s];
      forall i, j | 0 <= i < j < |t| ensures Rank(t[i]) < Rank(t[j]) {
        assert t[i] == ss[i];
        if j < |ss| {
          assert t[j] == ss[j];
        }
      }
    } else {
      assert ss + Opt(cfg, extract, s) == ss;
    }
  }

  /** The stage just before `s`. */
  function Prev(s: Stage): (p: Stage)
    requires s != Extract
    ensures Rank(p) + 1 == Rank(s)
  {
    match s
    case InjectZ => Extract
    case Simplify => InjectZ
    case ClipSource => Simplify
    case Reproject => ClipSource
    case AssignSrs => Reproject
    case ClipDestination => AssignSrs
    case Force => ClipDestination
  }

  lemma {:induction false} PlannedBeforeInOrder(cfg: PartConfig, extract: bool, s: Stage)
    ensures InStageOrder(PlannedBefore(cfg, extract, s)) && RanksBelow(PlannedBefore(cfg, extract, s), Rank(s))
    decreases Rank(s)
  {
    if s != Extract {
      var p := Prev(s);
      PlannedBeforeInOrder(cfg, extract, p);
      AppendStage(PlannedBefore(cfg, extract, p), cfg, extract, p);
      assert PlannedBefore(cfg, extract, s) == PlannedBefore(cfg, extract, p) + Opt(cfg, extract, p);
    }
  }

  /** The planned stages come in strictly increasing stage order: no
      stage runs twice and none runs before an earlier one. */
  lemma PlannedInOrder(cfg: PartConfig, extract: bool)
    ensures InStageOrder(Planned(cfg, extract))
  {
    PlannedBeforeInOrder(cfg, extract, Force);
    AppendStage(PlannedBefore(cfg, extract, Force), cfg, extract, Force);
  }

  lemma PrefixOfAppend<T>(a: seq<T>, b: seq<T>)
    ensures a <= a + b
  {
    assert (a + b)[..|a|] == a;
  }

  lemma PrefixTrans<T>(a: seq<T>, b: seq<T>, c: seq<T>)
    requires a <= b && b <= c
    ensures a <= c
  {
    assert c[..|a|] == c[..|b|][..|a|];
  }

  lemma PrefixAt<T>(a: seq<T>, b: seq<T>, k: nat)
    requires a <= b && k < |a|
    ensures b[k] == a[k] && b[..k] == a[..k]
  {
    assert b[..|a|] == a;
    assert b[..k] == b[..|a|][..k];
  }

  /** An enabled stage comes right after the stages planned before it. */
  lemma PlannedBeforeIsPrefix(cfg: PartConfig, extract: bool, s: Stage)
    requires Enabled(cfg, extract, s)
    ensures PlannedBefore(cfg, extract, s) + [s] <= Planned(cfg, extract)
  {
    assert Opt(cfg, extract, s) == [s];
    var p := PlannedBefore(cfg, extract, s) + [s];
    if s == Force {
    } else {
      var next := match s
                  case Extract => InjectZ
                  case InjectZ => Simplify
                  case Simplify => ClipSource
                  case ClipSource => Reproject
                  case Reproject => AssignSrs
                  case AssignSrs => ClipDestination
                  case _ => Force;
      assert PlannedBefore(cfg, extract, next) == p;
      PlannedBeforeGrows(cfg, extract, next);
    }
  }

  /** The stages planned before `s` are a prefix of all planned stages. */
  lemma {:induction false} PlannedBeforeGrows(cfg: PartConfig, extract: bool, s: Stage)
    ensures PlannedBefore(cfg, extract, s) <= Planned(cfg, extract)
    decreases 7 - Rank(s)
  {
    var here := PlannedBefore(cfg, extract, s);
    PrefixOfAppend(here, Opt(cfg, extract, s));
    if s == Force {
    } else {
      var next := match s
                  case Extract => InjectZ
                  case InjectZ => Simplify
                  case Simplify => ClipSource
                  case ClipSource => Reproject
                  case Reproject => AssignSrs
                  case AssignSrs => ClipDestination
                  case _ => Force;
      assert PlannedBefore(cfg, extract, next) == here + Opt(cfg, extract, s);
      PlannedBeforeGrows(cfg, extract, next);
      PrefixTrans(here, PlannedBefore(cfg, extract, next), Planned(cfg, extract));
    }
  }

  /** One stage as performed, with the geometry it produced. */
  datatype Step = Step(stage: Stage, after: Geometry)

  function StagesOf(steps: seq<Step>): (ss: seq<Stage>)
    ensures |ss| == |steps|
    ensures forall i :: 0 <= i < |steps| ==> ss[i] == steps[i].stage
  {
    seq(|steps|, i requires 0 <= i < |steps| => steps[i].stage)
  }

  function OrElse(g: Option<Geometry>, fallback: Geometry): Geometry {
    if g.Some? then g.value else fallback
  }

  /** Clipping drops a part when the intersection is null or empty. */
  predicate ClipDrops(ops: GeometryOps, g: Geometry, clip: Geometry) {
    var c := ops.intersection(g, clip);
    c.None? || ops.isEmpty(c.value)
  }

  /** Everything a part's stages depend on: the configuration, GDAL's
      operations, the Z value, the member to extract and the geometry the
      part starts from. */
  datatype Ctx = Ctx(cfg: PartConfig, ops: GeometryOps, z: real, part: Option<nat>, g0: Geometry)

  /** What each stage does to the geometry it receives. */
  predicate StepSound(c: Ctx, before: Geometry, s: Step) {
    match s.stage
    case Extract => c.part.Some? && c.part.value < |before.parts| && s.after == before.parts[c.part.value]
    case InjectZ => s.after == SetZTree(before, c.z, false)
    case Simplify => s.after == OrElse(c.ops.simplify(before, c.cfg.geomOpParam), before)
    case ClipSource =>
      c.cfg.clipSrc.Some? && !ClipDrops(c.ops, before, c.cfg.clipSrc.value)
      && s.after == c.ops.intersection(before, c.cfg.clipSrc.value).value
    case Reproject => s.after == OrElse(c.ops.transform(before), before)
    case AssignSrs => s.after == c.ops.assignSrs(before)
    case ClipDestination =>
      c.cfg.clipDst.Some? && !ClipDrops(c.ops, before, c.cfg.clipDst.value)
      && s.after == c.ops.intersection(before, c.cfg.clipDst.value).value
    case Force => s.after == c.ops.forceTo(c.cfg.force, before)
  }

  /** The geometry after a run of steps. */
  function Last(g0: Geometry, steps: seq<Step>): Geometry {
    if |steps| == 0 then g0 else steps[|steps| - 1].after
  }

  /** Every step applied its stage's operation to its predecessor's output. */
  predicate Chain(c: Ctx, steps: seq<Step>)
    decreases |steps|
  {
    |steps| > 0 ==>
      var init := steps[..|steps| - 1];
      Chain(c, init) && StepSound(c, Last(c.g0, init), steps[|steps| - 1])
  }

  /** Steps performed so far and the current geometry. */
  datatype Acc = Acc(steps: seq<Step>, cur: Geometry)

  /** The accumulated steps form a sound chain ending in the current geometry. */
  predicate Good(c: Ctx, a: Acc) {
    Chain(c, a.steps) && a.cur == Last(c.g0, a.steps)
  }

  lemma ChainPush(c: Ctx, steps: seq<Step>, s: Step)
    requires Chain(c, steps) && StepSound(c, Last(c.g0, steps), s)
    ensures Chain(c, steps + [s])
  {
    assert (steps + [s])[..|steps|] == steps;
  }

  /** Pass over a stage: performed when enabled, skipped otherwise. */
  function Pass(c: Ctx, a: Acc, s: Stage, after: Geometry): (b: Acc)
    requires Good(c, a)
    requires Enabled(c.cfg, c.part.Some?, s) ==> StepSound(c, a.cur, Step(s, after))
    ensures Good(c, b)
    ensures StagesOf(b.steps) == StagesOf(a.steps) + Opt(c.cfg, c.part.Some?, s)
    ensures a.steps <= b.steps
    ensures Enabled(c.cfg, c.part.Some?, s) ==> b.steps == a.steps + [Step(s, after)] && b.cur == after
    ensures !Enabled(c.cfg, c.part.Some?, s) ==> b == a
  {
    if Enabled(c.cfg, c.part.Some?, s) then
      var b := Acc(a.steps + [Step(s, after)], after);
      ChainPush(c, a.steps, Step(s, after));
      assert StagesOf(b.steps) == StagesOf(a.steps) + [s];
      PrefixOfAppend(a.steps, [Step(s, after)]);
      b
    else
      assert StagesOf(a.steps) + [] == StagesOf(a.steps);
      a
  }

  /** How a part's processing ends: written (with its final geometry),
      dropped by a clip, or stopped by a transform error. */
  datatype PartEnd = Write(geometry: Option<Geometry>) | Dropped(at: Stage) | Failed

  datatype PartResult = PartResult(steps: seq<Step>, end: PartEnd, transformFailed: bool)

  /** The clip geometry a clip stage intersects with. */
  function ClipOf(cfg: PartConfig, s: Stage): Option<Geometry> {
    if s == ClipSource then cfg.clipSrc else if s == ClipDestination then cfg.clipDst else None
  }

  /** What a part's outcome means, given the steps it took: the steps
      form a sound chain; a written part went through every planned
      stage and carries the last geometry; a dropped part went through
      the stages planned before the clip that dropped it; a failed part
      went through the stages planned before the transformation, which
      failed. */
  predicate Sound(c: Ctx, r: PartResult) {
    var e := c.part.Some?;
    && Chain(c, r.steps)
    && (r.end.Write? ==> StagesOf(r.steps) == Planned(c.cfg, e) && r.end.geometry == Some(Last(c.g0, r.steps)))
    && (r.end.Dropped? ==>
          && (r.end.at == ClipSource || r.end.at == ClipDestination)
          && StagesOf(r.steps) == PlannedBefore(c.cfg, e, r.end.at)
          && ClipOf(c.cfg, r.end.at).Some? && ClipDrops(c.ops, Last(c.g0, r.steps), ClipOf(c.cfg, r.end.at).value))
    && (r.end.Failed? ==>
          && StagesOf(r.steps) == PlannedBefore(c.cfg, e, Reproject)
          && c.cfg.reproject && c.ops.transform(Last(c.g0, r.steps)).None?)
    && (r.end.Failed? <==> r.transformFailed && !c.cfg.skipFailures)
  }

  /** The reprojection at step k failed and left the geometry as it was. */
  predicate FailedAt(c: Ctx, steps: seq<Step>, k: int) {
    0 <= k < |steps| && steps[k] == Step(Reproject, Last(c.g0, steps[..k]))
    && c.ops.transform(Last(c.g0, steps[..k])).None?
  }

  /** The geometry a part hands to the transformation: the output of
      the stages planned before it. */
  function BeforeReproject(c: Ctx, steps: seq<Step>): Geometry
    requires |PlannedBefore(c.cfg, c.part.Some?, Reproject)| <= |steps|
  {
    Last(c.g0, steps[..|PlannedBefore(c.cfg, c.part.Some?, Reproject)|])
  }

  /** Extraction, Z injection and simplification. */
  function FrontStages(c: Ctx): (a: Acc)
    requires c.part.Some? ==> c.part.value < |c.g0.parts|
    ensures Good(c, a) && StagesOf(a.steps) == PlannedBefore(c.cfg, c.part.Some?, ClipSource)
  {
    var a0 := Acc([], c.g0);
    assert StagesOf([]) + Opt(c.cfg, c.part.Some?, Extract) == Opt(c.cfg, c.part.Some?, Extract);
    var a1 := Pass(c, a0, Extract, if c.part.Some? then c.g0.parts[c.part.value] else c.g0);
    var a2 := ZPass(c, a1);
    Pass(c, a2, Simplify, OrElse(c.ops.simplify(a2.cur, c.cfg.geomOpParam), a2.cur))
  }

  /** The Z injection stage, when -zfield is set. */
  function ZPass(c: Ctx, a1: Acc): (a2: Acc)
    requires Good(c, a1)
    ensures Good(c, a2)
    ensures StagesOf(a2.steps) == StagesOf(a1.steps) + Opt(c.cfg, c.part.Some?, InjectZ)
  {
    Pass(c, a1, InjectZ, SetZTree(a1.cur, c.z, false))
  }

  /** A clip stage that does not drop the part: with a clip geometry
      the part goes on with the intersection, otherwise unchanged. */
  function ClipPass(c: Ctx, a: Acc, at: Stage): (b: Acc)
    requires Good(c, a) && (at == ClipSource || at == ClipDestination)
    requires ClipOf(c.cfg, at).Some? ==> !ClipDrops(c.ops, a.cur, ClipOf(c.cfg, at).value)
    ensures Good(c, b) && a.steps <= b.steps
    ensures StagesOf(b.steps) == StagesOf(a.steps) + Opt(c.cfg, c.part.Some?, at)
  {
    var clip := ClipOf(c.cfg, at);
    var after := if clip.Some? then c.ops.intersection(a.cur, clip.value).value else a.cur;
    assert Enabled(c.cfg, c.part.Some?, at) <==> clip.Some?;
    assert clip.Some? ==> StepSound(c, a.cur, Step(at, after));
    Pass(c, a, at, after)
  }

  /** A clip stage whose intersection is null or empty: the part ends
      there, with the steps taken so far. */
  function DropStage(c: Ctx, a: Acc, at: Stage, failed: bool): (r: PartResult)
    requires Good(c, a) && (at == ClipSource || at == ClipDestination)
    requires StagesOf(a.steps) == PlannedBefore(c.cfg, c.part.Some?, at)
    requires ClipOf(c.cfg, at).Some? && ClipDrops(c.ops, a.cur, ClipOf(c.cfg, at).value)
    requires failed ==> c.cfg.skipFailures
    ensures Sound(c, r) && r.end == Dropped(at) && r.transformFailed == failed && r.steps == a.steps
  {
    PartResult(a.steps, Dropped(at), failed)
  }

  function ForceStage(c: Ctx, a7: Acc, failed: bool): (r: PartResult)
    requires Good(c, a7) && StagesOf(a7.steps) == PlannedBefore(c.cfg, c.part.Some?, Force)
    requires failed ==> c.cfg.skipFailures
    ensures Sound(c, r) && r.end.Write? && r.transformFailed == failed && a7.steps <= r.steps
  {
    var a8 := Pass(c, a7, Force, c.ops.forceTo(c.cfg.force, a7.cur));
    PartResult(a8.steps, Write(Some(a8.cur)), failed)
  }

  /** The destination clip keeps the part, which goes on to the coercion. */
  function KeptDestination(c: Ctx, a6: Acc, failed: bool): (r: PartResult)
    requires Good(c, a6) && StagesOf(a6.steps) == PlannedBefore(c.cfg, c.part.Some?, ClipDestination)
    requires c.cfg.clipDst.Some? ==> !ClipDrops(c.ops, a6.cur, c.cfg.clipDst.value)
    requires failed ==> c.cfg.skipFailures
    ensures Sound(c, r) && r.end.Write? && r.transformFailed == failed && a6.steps <= r.steps
  {
    var a7 := ClipPass(c, a6, ClipDestination);
    var r := ForceStage(c, a7, failed);
    PrefixTrans(a6.steps, a7.steps, r.steps);
    r
  }

  function ClipDestinationStage(c: Ctx, a6: Acc, failed: bool): (r: PartResult)
    requires Good(c, a6) && StagesOf(a6.steps) == PlannedBefore(c.cfg, c.part.Some?, ClipDestination)
    requires failed ==> c.cfg.skipFailures
    ensures Sound(c, r) && !r.end.Failed? && r.transformFailed == failed && a6.steps <= r.steps
    ensures r.end.Dropped? ==> r.end.at == ClipDestination
  {
    var clip := c.cfg.clipDst;
    if clip.Some? && ClipDrops(c.ops, a6.cur, clip.value) then
      DropStage(c, a6, ClipDestination, failed)
    else
      KeptDestination(c, a6, failed)
  }

  function AssignSrsStage(c: Ctx, a5: Acc, failed: bool): (r: PartResult)
    requires Good(c, a5) && StagesOf(a5.steps) == PlannedBefore(c.cfg, c.part.Some?, AssignSrs)
    requires failed ==> c.cfg.skipFailures
    ensures Sound(c, r) && !r.end.Failed? && r.transformFailed == failed && a5.steps <= r.steps
    ensures r.end.Dropped? ==> r.end.at == ClipDestination
  {
    var a6 := Pass(c, a5, AssignSrs, c.ops.assignSrs(a5.cur));
    var r := ClipDestinationStage(c, a6, failed);
    PrefixTrans(a5.steps, a6.steps, r.steps);
    r
  }

  /** The coordinate transformation.  A failure stops the part unless
      failures are skipped; then the part goes on with its geometry
      as it was. */
  function ReprojectStage(c: Ctx, a4: Acc): (r: PartResult)
    requires Good(c, a4) && StagesOf(a4.steps) == PlannedBefore(c.cfg, c.part.Some?, Reproject)
    ensures Sound(c, r)
    ensures r.transformFailed <==> c.cfg.reproject && c.ops.transform(a4.cur).None?
    ensures r.transformFailed && !r.end.Failed? ==> FailedAt(c, r.steps, |a4.steps|)
    ensures |PlannedBefore(c.cfg, c.part.Some?, Reproject)| <= |r.steps| && BeforeReproject(c, r.steps) == a4.cur
    ensures r.end.Dropped? ==> r.end.at == ClipDestination
  {
    var failed := c.cfg.reproject && c.ops.transform(a4.cur).None?;
    var r := if failed && !c.cfg.skipFailures then PartResult(a4.steps, Failed, true)
             else ReprojectContinues(c, a4, failed);
    ReachesTransform(c, a4, r.steps);
    r
  }

  /** The part goes on past the transformation: transformed, or, when
      the failure is skipped, with its geometry as it was. */
  function ReprojectContinues(c: Ctx, a4: Acc, failed: bool): (r: PartResult)
    requires Good(c, a4) && StagesOf(a4.steps) == PlannedBefore(c.cfg, c.part.Some?, Reproject)
    requires failed == (c.cfg.reproject && c.ops.transform(a4.cur).None?)
    requires failed ==> c.cfg.skipFailures
    ensures Sound(c, r) && !r.end.Failed? && r.transformFailed == failed
    ensures failed ==> FailedAt(c, r.steps, |a4.steps|)
    ensures a4.steps <= r.steps
    ensures r.end.Dropped? ==> r.end.at == ClipDestination
  {
    var a5 := Pass(c, a4, Reproject, OrElse(c.ops.transform(a4.cur), a4.cur));
    var r := AssignSrsStage(c, a5, failed);
    PrefixTrans(a4.steps, a5.steps, r.steps);
    if failed then
      FailureKept(c, a4, a5, r.steps);
      r
    else
      r
  }

  /** A failed transformation recorded as a step that kept the geometry
      stays recorded in every continuation of the steps. */
  lemma FailureKept(c: Ctx, a4: Acc, a5: Acc, steps: seq<Step>)
    requires Good(c, a4) && c.ops.transform(a4.cur).None?
    requires a5.steps == a4.steps + [Step(Reproject, a4.cur)] && a5.steps <= steps
    ensures FailedAt(c, steps, |a4.steps|)
  {
    PrefixAt(a5.steps, steps, |a4.steps|);
    assert a5.steps[..|a4.steps|] == a4.steps;
  }

  function ClipSourceStage(c: Ctx, a3: Acc): (r: PartResult)
    requires Good(c, a3) && StagesOf(a3.steps) == PlannedBefore(c.cfg, c.part.Some?, ClipSource)
    ensures Sound(c, r)
    ensures r.transformFailed ==> c.cfg.reproject
    ensures r.transformFailed && !r.end.Failed? ==> exists k :: FailedAt(c, r.steps, k)
    ensures r.end == Dropped(ClipSource) ==> !r.transformFailed
    ensures r.end != Dropped(ClipSource) ==>
              && |PlannedBefore(c.cfg, c.part.Some?, Reproject)| <= |r.steps|
              && (r.transformFailed <==> c.cfg.reproject && c.ops.transform(BeforeReproject(c, r.steps)).None?)
  {
    var clip := c.cfg.clipSrc;
    if clip.Some? && ClipDrops(c.ops, a3.cur, clip.value) then
      DropStage(c, a3, ClipSource, false)
    else
      KeptSource(c, a3)
  }

  /** The source clip keeps the part, which goes on to the transformation. */
  function KeptSource(c: Ctx, a3: Acc): (r: PartResult)
    requires Good(c, a3) && StagesOf(a3.steps) == PlannedBefore(c.cfg, c.part.Some?, ClipSource)
    requires c.cfg.clipSrc.Some? ==> !ClipDrops(c.ops, a3.cur, c.cfg.clipSrc.value)
    ensures Sound(c, r) && r.end != Dropped(ClipSource)
    ensures r.transformFailed ==> c.cfg.reproject
    ensures r.transformFailed && !r.end.Failed? ==> exists k :: FailedAt(c, r.steps, k)
    ensures |PlannedBefore(c.cfg, c.part.Some?, Reproject)| <= |r.steps|
    ensures r.transformFailed <==> c.cfg.reproject && c.ops.transform(BeforeReproject(c, r.steps)).None?
  {
    ReprojectStage(c, ClipPass(c, a3, ClipSource))
  }

  /** Past the source clip, the stages before the transformation are
      the recorded prefix, so the geometry they produced is the one the
      transformation received. */
  lemma ReachesTransform(c: Ctx, a4: Acc, steps: seq<Step>)
    requires Good(c, a4) && StagesOf(a4.steps) == PlannedBefore(c.cfg, c.part.Some?, Reproject)
    requires a4.steps <= steps
    ensures |PlannedBefore(c.cfg, c.part.Some?, Reproject)| <= |steps|
    ensures BeforeReproject(c, steps) == a4.cur
  {
    assert |StagesOf(a4.steps)| == |a4.steps|;
    assert steps[..|a4.steps|] == a4.steps;
  }

  /** The geometry stages of one part.  Without a geometry nothing runs
      and the feature is written as it is. */
  function PreparePart(cfg: PartConfig, ops: GeometryOps, g: Option<Geometry>, part: Option<nat>, z: real): (r: PartResult)
    requires part.Some? ==> g.Some? && part.value < |g.value.parts|
    ensures g.None? ==> r == PartResult([], Write(None), false)
    ensures g.Some? ==> Sound(Ctx(cfg, ops, z, part, g.value), r)
    ensures r.end.Failed? <==> r.transformFailed && !cfg.skipFailures
    ensures r.transformFailed ==> cfg.reproject && g.Some?
    ensures r.transformFailed && !r.end.Failed? ==> exists k :: FailedAt(Ctx(cfg, ops, z, part, g.value), r.steps, k)
    ensures r.end == Dropped(ClipSource) ==> !r.transformFailed
    ensures g.Some? && r.end != Dropped(ClipSource) ==>
              var c := Ctx(cfg, ops, z, part, g.value);
              && |PlannedBefore(cfg, part.Some?, Reproject)| <= |r.steps|
              && (r.transformFailed <==> cfg.reproject && ops.transform(BeforeReproject(c, r.steps)).None?)
  {
    match g
    case None => PartResult([], Write(None), false)
    case Some(g0) =>
      var c := Ctx(cfg, ops, z, part, g0);
      ClipSourceStage(c, FrontStages(c))
  }
}
