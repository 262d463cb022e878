/** Finding or creating the destination layer, and the geometry type a
    created layer gets.

    The destination data source is a list of named layers.  The driver's
    side of the exchange (which layer GetLayerByName hands back, whether
    DeleteLayer and CreateLayer succeed, whether the data source can
    create layers at all) is given as `LayerReplies`. */
module LayerResolution {
  import opened Wrappers
  import opened Geometries
  import opened Fields

  /** The -nlt value meaning "not given" (-2 as a 32-bit pattern). */
  const DefaultType: bv32 := 0xFFFF_FFFE

  /** The geometry coercion chosen by the requested layer type. */
  datatype ForceMode = NoForce | ToPolygon | ToMultiPolygon | ToMultiLineString

  /** The three force flags: at most one is set, by the flattened
      requested type. */
  function ForceModeOf(eGType: bv32): (m: ForceMode)
    ensures m == ToPolygon <==> Flatten(eGType) == WkbPolygon
    ensures m == ToMultiPolygon <==> Flatten(eGType) == WkbMultiPolygon
    ensures m == ToMultiLineString <==> Flatten(eGType) == WkbMultiLineString
    ensures eGType == DefaultType ==> m == NoForce
  {
    var f := Flatten(eGType);
    if f == WkbPolygon then ToPolygon
    else if f == WkbMultiPolygon then ToMultiPolygon
    else if f == WkbMultiLineString then ToMultiLineString
    else NoForce
  }

  /** The layer type for exploded collections: a multi type becomes its
      single-part type, a geometry collection becomes Unknown; the 25D bit
      is kept and any other type is unchanged. */
  function ExplodedType(t: bv32): (r: bv32)
    ensures r & Wkb25DBit == t & Wkb25DBit
    ensures Flatten(t) == WkbMultiPoint ==> Flatten(r) == WkbPoint
    ensures Flatten(t) == WkbMultiLineString ==> Flatten(r) == WkbLineString
    ensures Flatten(t) == WkbMultiPolygon ==> Flatten(r) == WkbPolygon
    ensures Flatten(t) == WkbGeometryCollection ==> Flatten(r) == WkbUnknown
    ensures !IsCollectionType(t) ==> r == t
  {
    var bit := t & Wkb25DBit;
    var f := Flatten(t);
    if f == WkbMultiPoint then WkbPoint | bit
    else if f == WkbMultiLineString then WkbLineString | bit
    else if f == WkbMultiPolygon then WkbPolygon | bit
    else if f == WkbGeometryCollection then WkbUnknown | bit
    else t
  }

  /** The type a newly created layer gets: the -nlt type when given;
      otherwise the source layer's type, adjusted for -explodecollections,
      made 25D when -zfield is given. */
  function DeriveLayerType(requested: bv32, srcType: bv32, explode: bool, zField: bool): (r: bv32)
    ensures requested != DefaultType ==> r == requested
    ensures requested == DefaultType ==>
              Flatten(r) == Flatten(if explode then ExplodedType(srcType) else srcType)
    ensures requested == DefaultType ==> (Has25D(r) <==> Has25D(srcType) || zField)
    ensures requested == DefaultType && !explode && !zField ==> r == srcType
  {
    if requested != DefaultType then requested
    else
      var t := if explode then ExplodedType(srcType) else srcType;
      if zField then t | Wkb25DBit else t
  }

  datatype DstLayer = DstLayer(name: string, gtype: bv32, fields: seq<FieldDefn>)

  /** The destination data source's answers during resolution. */
  datatype LayerReplies = LayerReplies(
    byName: Option<string>,                 // name of the layer GetLayerByName hands back
    deleteSucceeds: bool,                   // DeleteLayer returns 0
    canCreateLayer: bool,                   // TestCapability(ODsCCreateLayer)
    createdFields: Option<seq<FieldDefn>>)  // CreateLayer: null, or the new layer's fields

  datatype LayerRequest = LayerRequest(name: string, requestedType: bv32, srcType: bv32,
                                       append: bool, overwrite: bool, explode: bool, zField: bool)

  datatype ResolveError = DeleteFailed | CreateUnsupported | CreateFailed | LayerExists

  /** The data source's layers afterwards, the index of the destination
      layer among them, and whether features are appended to an existing
      layer (true) or go to a layer created here (false). */
  datatype Resolution = Resolution(layers: seq<DstLayer>, index: nat, appending: bool)

  /** -nln, or the source layer's own name. */
  function TargetName(newName: Option<string>, srcName: string): (r: string)
    ensures newName.Some? ==> r == newName.value
    ensures newName.None? ==> r == srcName
  {
    match newName
    case Some(n) => n
    case None => srcName
  }

  /** The index of the first layer with exactly this name, or -1. */
  function FindLayer(layers: seq<DstLayer>, name: string): (r: int)
    ensures -1 <= r < |layers|
    ensures r >= 0 ==> layers[r].name == name && forall j :: 0 <= j < r ==> layers[j].name != name
    ensures r == -1 <==> forall j :: 0 <= j < |layers| ==> layers[j].name != name
    decreases |layers|
  {
    if |layers| == 0 then -1
    else if layers[0].name == name then 0
    else
      var k := FindLayer(layers[1..], name);
      if k == -1 then -1 else k + 1
  }

  /** The existing layer found: the one GetLayerByName returned, looked
      up again by index; a layer not in the list counts as absent. */
  function ExistingIndex(layers: seq<DstLayer>, replies: LayerReplies): (r: int)
    ensures -1 <= r < |layers|
    ensures r >= 0 ==> replies.byName.Some? && layers[r].name == replies.byName.value
  {
    match replies.byName
    case None => -1
    case Some(n) => FindLayer(layers, n)
  }

  function RemoveAt<T>(s: seq<T>, i: nat): (r: seq<T>)
    requires i < |s|
    ensures |r| == |s| - 1
    ensures forall j :: 0 <= j < i ==> r[j] == s[j]
    ensures forall j :: i <= j < |r| ==> r[j] == s[j + 1]
  {
    s[..i] + s[i + 1..]
  }

  /** The layer created by TranslateLayer: CreateLayer is refused when
      the data source cannot create layers, fails when the driver hands
      back no layer, and otherwise appends the new layer, with the
      derived geometry type, after the remaining layers. */
  function CreateIn(remaining: seq<DstLayer>, req: LayerRequest, replies: LayerReplies): (r: Result<Resolution, ResolveError>)
    ensures r == Failure(CreateUnsupported) <==> !replies.canCreateLayer
    ensures r == Failure(CreateFailed) <==> replies.canCreateLayer && replies.createdFields.None?
    ensures r.Failure? ==> r.error == CreateUnsupported || r.error == CreateFailed
    ensures r.Success? ==>
              && replies.createdFields.Some?
              && !r.value.appending
              && r.value.index == |remaining| == |r.value.layers| - 1
              && r.value.layers[r.value.index]
                 == DstLayer(req.name, DeriveLayerType(req.requestedType, req.srcType, req.explode, req.zField),
                             replies.createdFields.value)
              && r.value.layers[..r.value.index] == remaining
  {
    if !replies.canCreateLayer then Failure(CreateUnsupported)
    else match replies.createdFields
      case None => Failure(CreateFailed)
      case Some(fs) =>
        var created := DstLayer(req.name, DeriveLayerType(req.requestedType, req.srcType, req.explode, req.zField), fs);
        assert (remaining + [created])[..|remaining|] == remaining;
        Success(Resolution(remaining + [created], |remaining|, false))
  }

  /** The layer-resolution part of TranslateLayer. */
  function Resolve(layers: seq<DstLayer>, req: LayerRequest, replies: LayerReplies): (r: Result<Resolution, ResolveError>)
    ensures var i := ExistingIndex(layers, replies);
            r == Failure(DeleteFailed) <==> i >= 0 && req.overwrite && !replies.deleteSucceeds
    ensures var i := ExistingIndex(layers, replies);
            r == Failure(LayerExists) <==> i >= 0 && !req.overwrite && !req.append
    ensures var i := ExistingIndex(layers, replies);
            r == Failure(CreateUnsupported) <==>
              (i < 0 || (req.overwrite && replies.deleteSucceeds)) && !replies.canCreateLayer
    ensures var i := ExistingIndex(layers, replies);
            r == Failure(CreateFailed) <==>
              (i < 0 || (req.overwrite && replies.deleteSucceeds)) && replies.canCreateLayer
              && replies.createdFields.None?
    ensures r.Success? ==> r.value.index < |r.value.layers|
    ensures var i := ExistingIndex(layers, replies);
            r.Success? ==> (r.value.appending <==> i >= 0 && !req.overwrite)
    ensures var i := ExistingIndex(layers, replies);
            r.Success? && r.value.appending ==>
              req.append && r.value.layers == layers && r.value.index == i
    ensures var i := ExistingIndex(layers, replies);
            r.Success? && !r.value.appending ==>
              && replies.createdFields.Some?
              && r.value.index == |r.value.layers| - 1
              && r.value.layers[r.value.index]
                 == DstLayer(req.name, DeriveLayerType(req.requestedType, req.srcType, req.explode, req.zField),
                             replies.createdFields.value)
              && r.value.layers[..r.value.index] == Remaining(layers, i)
  {
    var i := ExistingIndex(layers, replies);
    if i >= 0 && !req.overwrite then KeepExisting(layers, i, req)
    else Replace(layers, i, req, replies)
  }

  /** An existing layer without -overwrite: features are appended to it
      under -append, and otherwise the layer is reported as existing. */
  function KeepExisting(layers: seq<DstLayer>, i: nat, req: LayerRequest): (r: Result<Resolution, ResolveError>)
    requires i < |layers|
    ensures r.Failure? <==> !req.append
    ensures r.Failure? ==> r.error == LayerExists
    ensures r.Success? ==> r.value == Resolution(layers, i, true)
  {
    if !req.append then Failure(LayerExists) else Success(Resolution(layers, i, true))
  }

  /** No layer to keep: an existing one (under -overwrite) is deleted
      first, then the new layer is created among the remaining ones. */
  function Replace(layers: seq<DstLayer>, i: int, req: LayerRequest, replies: LayerReplies): (r: Result<Resolution, ResolveError>)
    requires -1 <= i < |layers|
    ensures r == Failure(DeleteFailed) <==> i >= 0 && !replies.deleteSucceeds
    ensures r == Failure(CreateUnsupported) <==> (i < 0 || replies.deleteSucceeds) && !replies.canCreateLayer
    ensures r == Failure(CreateFailed) <==>
              (i < 0 || replies.deleteSucceeds) && replies.canCreateLayer && replies.createdFields.None?
    ensures r.Failure? ==> r.error != LayerExists
    ensures r.Success? ==>
              && replies.createdFields.Some?
              && !r.value.appending
              && r.value.index == |r.value.layers| - 1
              && r.value.layers[r.value.index]
                 == DstLayer(req.name, DeriveLayerType(req.requestedType, req.srcType, req.explode, req.zField),
                             replies.createdFields.value)
              && r.value.layers[..r.value.index] == Remaining(layers, i)
  {
    if i >= 0 && !replies.deleteSucceeds then Failure(DeleteFailed)
    else CreateIn(Remaining(layers, i), req, replies)
  }

  /** The layers left once an overwritten layer is deleted. */
  function Remaining(layers: seq<DstLayer>, i: int): seq<DstLayer>
    requires -1 <= i < |layers|
  {
    if i >= 0 then RemoveAt(layers, i) else layers
  }
}
