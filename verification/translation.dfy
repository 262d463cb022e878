/** TranslateLayer as a whole: find or create the destination layer,
    reconcile the fields, then transfer the features.

    The destination driver's answers (the layer replies, CreateField,
    whether SetIgnoredFields may be used, the geometry operations and
    the feature writer) are parameters. */
module Translation {
  import opened Wrappers
  import opened Geometries
  import opened Fields
  import opened LayerResolution
  import opened Pipeline
  import opened FeatureLoop

  /** The settings TranslateLayer receives for one layer. */
  datatype LayerOptions = LayerOptions(
    newName: Option<string>,                  // -nln
    requestedType: bv32,                      // -nlt, DefaultType when not given
    append: bool,
    overwrite: bool,
    selection: Option<seq<string>>,           // -select
    fieldTypesToString: Option<seq<string>>,  // -fieldTypeToString
    explode: bool,                            // -explodecollections
    zField: Option<string>,                   // -zfield
    skipFailures: bool,
    group: int,                               // nGroupTransactions
    preserveFid: bool,
    geomOp: GeomOp,
    geomOpParam: real,
    clipSrc: Option<Geometry>,
    clipDst: Option<Geometry>,
    reproject: bool,                          // a coordinate transformation was set up
    hasOutputSrs: bool,
    progress: bool)                           // a progress callback is set

  /** The source layer: name, geometry type, fields, and its features
      in reading order. */
  datatype SrcLayer = SrcLayer(name: string, gtype: bv32, fields: seq<FieldDefn>, features: seq<Feature>)

  /** The destination driver's side of the exchange, with OGR's value
      conversion in SetField. */
  datatype Driver = Driver(replies: LayerReplies, createField: CreateField, ignore: IgnorePolicy,
                           ops: GeometryOps, writer: Writer, convert: Conversion)

  datatype LayerError = LayerFailed(reason: ResolveError) | FieldMissing(name: string)

  /** The resolved destination layer, the field map, and the transfer. */
  datatype Transfer = Transfer(resolution: Resolution, mapping: FieldMapping, run: LayerRun)

  function Request(o: LayerOptions, src: SrcLayer): LayerRequest {
    LayerRequest(TargetName(o.newName, src.name), o.requestedType, src.gtype,
                 o.append, o.overwrite, o.explode, o.zField.Some?)
  }

  /** The stage settings: iSrcZField looked up in the source fields, the
      force flags from the requested type. */
  function PartSettings(o: LayerOptions, src: SrcLayer): (p: PartConfig)
    ensures o.zField.None? ==> p.zFieldIndex == -1
    ensures o.zField.Some? ==> p.zFieldIndex == FieldIndex(src.fields, o.zField.value)
    ensures p.force == ForceModeOf(o.requestedType) && p.skipFailures == o.skipFailures
  {
    PartConfig(if o.zField.Some? then FieldIndex(src.fields, o.zField.value) else -1,
               o.geomOp, o.geomOpParam, o.clipSrc, o.clipDst, o.reproject, o.hasOutputSrs,
               ForceModeOf(o.requestedType), o.skipFailures)
  }

  function LoopSettings(o: LayerOptions, src: SrcLayer, m: FieldMapping, drv: Driver): LoopConfig {
    LoopConfig(PartSettings(o, src), o.group, o.preserveFid, o.explode, o.progress, m.panMap,
               TypesOf(m.dstFields), drv.convert)
  }

  function LayerEnv(o: LayerOptions, src: SrcLayer, drv: Driver): Env {
    Env(PipelineStages(PartSettings(o, src), drv.ops), drv.writer)
  }

  /** The fields of the destination layer once it is found or created. */
  function ResolvedFields(res: Resolution): seq<FieldDefn> {
    if res.index < |res.layers| then res.layers[res.index].fields else []
  }

  function MapFields(o: LayerOptions, src: SrcLayer, res: Resolution, drv: Driver): Result<FieldMapping, string> {
    ReconcileFields(src.fields, ResolvedFields(res), o.selection, res.appending, o.fieldTypesToString,
                    drv.createField, o.skipFailures, drv.ignore, o.zField)
  }

  /** A layer that cannot be resolved, or whose selected fields are
      missing, is left before any feature is read; otherwise the features
      are transferred through the field map, in the layer resolved. */
  function TranslateLayer(o: LayerOptions, src: SrcLayer, dst: seq<DstLayer>, drv: Driver): (r: Result<Transfer, LayerError>)
    ensures var res := Resolve(dst, Request(o, src), drv.replies);
            && (res.Failure? ==> r == Failure(LayerFailed(res.error)))
            && (res.Success? && MapFields(o, src, res.value, drv).Failure? ==>
                  r == Failure(FieldMissing(MapFields(o, src, res.value, drv).error)))
    ensures r.Success? ==>
              && Resolve(dst, Request(o, src), drv.replies) == Success(r.value.resolution)
              && MapFields(o, src, r.value.resolution, drv) == Success(r.value.mapping)
              && r.value.run == TranslateFeatures(LoopSettings(o, src, r.value.mapping, drv), LayerEnv(o, src, drv), src.features)
  {
    match Resolve(dst, Request(o, src), drv.replies)
    case Failure(e) => Failure(LayerFailed(e))
    case Success(res) =>
      match MapFields(o, src, res, drv)
      case Failure(name) => Failure(FieldMissing(name))
      case Success(m) =>
        Success(Transfer(res, m, TranslateFeatures(LoopSettings(o, src, m, drv), LayerEnv(o, src, drv), src.features)))
  }

  /** Every feature of the written list carries one value per destination
      field, and OGRNullFID unless -preserve_fid is given. */
  predicate WellFormed(cfg: LoopConfig, ds: seq<DstFeature>) {
    forall k :: 0 <= k < |ds| ==>
      |ds[k].values| == |cfg.dstTypes| && (!cfg.preserveFid ==> ds[k].fid == NullFid)
  }

  lemma {:induction false} WrittenFromWellFormed(cfg: LoopConfig, env: Env, f: Feature, i: nat)
    requires i <= PartsOf(cfg, f)
    ensures WellFormed(cfg, WrittenFrom(cfg, env, f, i))
    decreases PartsOf(cfg, f) - i
  {
    if i < PartsOf(cfg, f) {
      WrittenFromWellFormed(cfg, env, f, i + 1);
    }
  }

  lemma {:induction false} WrittenWellFormed(cfg: LoopConfig, env: Env, fs: seq<Feature>)
    ensures WellFormed(cfg, Written(cfg, env, fs))
    decreases |fs|
  {
    if |fs| > 0 {
      WrittenFromWellFormed(cfg, env, fs[0], 0);
      WrittenWellFormed(cfg, env, fs[1..]);
    }
  }

  /** A layer translated to the end writes its kept parts, each with
      exactly as many values as the destination layer has fields, and
      those fields start with the ones the destination layer already had. */
  lemma TranslateLayerWrites(o: LayerOptions, src: SrcLayer, dst: seq<DstLayer>, drv: Driver)
    ensures var r := TranslateLayer(o, src, dst, drv);
            r.Success? && r.value.run.ok ==>
              && ResolvedFields(r.value.resolution) <= r.value.mapping.dstFields
              && Created(r.value.run.events)
                 == Written(LoopSettings(o, src, r.value.mapping, drv), LayerEnv(o, src, drv), src.features)
              && forall k :: 0 <= k < |Created(r.value.run.events)| ==>
                   |Created(r.value.run.events)[k].values| == |r.value.mapping.dstFields|
  {
    var r := TranslateLayer(o, src, dst, drv);
    if r.Success? && r.value.run.ok {
      var cfg := LoopSettings(o, src, r.value.mapping, drv);
      WritesEveryKeptPart(cfg, LayerEnv(o, src, drv), src.features);
      WrittenWellFormed(cfg, LayerEnv(o, src, drv), src.features);
    }
  }
}
