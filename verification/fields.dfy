/** Attribute schemas, features and the source-to-destination field map.

    `ReconcileFields` builds the map `panMap` that TranslateLayer keeps
    for the whole layer: one entry per source field holding the index of
    the destination field it is copied to, or -1.  It has three modes:
    selected fields (create mode with -select), all fields (create mode
    without -select) and append by name (the destination layer already
    existed and -append was given).

    Field-name lookups (GetFieldIndex) compare names ignoring ASCII
    case, as OGR does.  CSLFindString and the ignored-field tests use
    the host string comparison, which folds non-ASCII letters as well;
    here they fold ASCII case too. */
module Fields {
  import opened Wrappers
  import opened Geometries

  // ----- Case-insensitive names -----

  function Lower(c: char): char {
    if 'A' <= c <= 'Z' then (c as int + 32) as char else c
  }

  predicate EqualsIgnoreCase(a: string, b: string) {
    |a| == |b| && forall i :: 0 <= i < |a| ==> Lower(a[i]) == Lower(b[i])
  }

  /** CSLFindString: the index of the first entry equal to `s` ignoring
      case, or -1 when there is none. */
  function FindString(v: seq<string>, s: string): (r: int)
    ensures -1 <= r < |v|
    ensures r >= 0 ==> EqualsIgnoreCase(v[r], s)
    ensures r >= 0 ==> forall j :: 0 <= j < r ==> !EqualsIgnoreCase(v[j], s)
    ensures r == -1 <==> forall j :: 0 <= j < |v| ==> !EqualsIgnoreCase(v[j], s)
    decreases |v|
  {
    if |v| == 0 then -1
    else if EqualsIgnoreCase(v[0], s) then 0
    else
      var k := FindString(v[1..], s);
      if k == -1 then -1 else k + 1
  }

  // ----- Field definitions -----

  /** OGRFieldType. */
  datatype FieldType =
    | Integer | IntegerList | Real | RealList | String | StringList
    | WideString | WideStringList | Binary | Date | Time | DateTime
    | Integer64 | Integer64List

  /** Ogr.GetFieldTypeName. */
  function TypeName(t: FieldType): string {
    match t
    case Integer => "Integer"
    case IntegerList => "IntegerList"
    case Real => "Real"
    case RealList => "RealList"
    case String => "String"
    case StringList => "StringList"
    case Binary => "Binary"
    case Date => "Date"
    case Time => "Time"
    case DateTime => "DateTime"
    case Integer64 => "Integer64"
    case Integer64List => "Integer64List"
    case WideString => "(unknown)"
    case WideStringList => "(unknown)"
  }

  datatype FieldDefn = FieldDefn(name: string, ftype: FieldType, width: int, precision: int)

  function Names(fields: seq<FieldDefn>): (r: seq<string>)
    ensures |r| == |fields| && forall i :: 0 <= i < |fields| ==> r[i] == fields[i].name
  {
    seq(|fields|, i requires 0 <= i < |fields| => fields[i].name)
  }

  /** OGRFeatureDefn::GetFieldIndex: the first field whose name matches
      ignoring case, or -1. */
  function FieldIndex(fields: seq<FieldDefn>, name: string): (r: int)
    ensures -1 <= r < |fields|
    ensures r >= 0 ==> EqualsIgnoreCase(fields[r].name, name)
    ensures r >= 0 ==> forall j :: 0 <= j < r ==> !EqualsIgnoreCase(fields[j].name, name)
    ensures r == -1 <==> forall j :: 0 <= j < |fields| ==> !EqualsIgnoreCase(fields[j].name, name)
  {
    FindString(Names(fields), name)
  }

  /** An entry of the -fieldTypeToString list that covers type `t`. */
  predicate NamesTypeOrAll(entry: string, t: FieldType) {
    EqualsIgnoreCase(entry, "All") || EqualsIgnoreCase(entry, TypeName(t))
  }

  /** The -fieldTypeToString rule: a field becomes a string field when a
      list was given and it names "All" or the field's type name. */
  function ConvertsToString(conv: Option<seq<string>>, t: FieldType): (b: bool)
    ensures b <==> conv.Some? && exists j :: 0 <= j < |conv.value| && NamesTypeOrAll(conv.value[j], t)
  {
    conv.Some? && (FindString(conv.value, "All") != -1 || FindString(conv.value, TypeName(t)) != -1)
  }

  /** The definition handed to CreateField for a source field: same
      name, width and precision; type String when the conversion rule
      applies, the source type otherwise. */
  function DestinationDefn(src: FieldDefn, conv: Option<seq<string>>): FieldDefn {
    var d := FieldDefn(src.name, src.ftype, src.width, src.precision);
    if ConvertsToString(conv, src.ftype) then d.(ftype := String) else d
  }

  // ----- The field map -----

  /** What the destination driver answers to CreateField: an error, or
      success together with the fields it appended to the layer
      definition (normally exactly the requested one; a driver may
      launder the name, or be buggy and append none or several). */
  datatype FieldReply = Refused | Added(fields: seq<FieldDefn>)

  type CreateField = (seq<FieldDefn>, FieldDefn) -> FieldReply

  /** A driver whose CreateField appends exactly the requested field. */
  ghost predicate Faithful(createField: CreateField) {
    forall dst, d :: createField(dst, d) == Added([d])
  }

  /** The map under construction: `panMap`, the destination layer's
      current fields, and the counter `nDstFieldCount`. */
  datatype MapState = MapState(panMap: seq<int>, dst: seq<FieldDefn>, next: nat)

  /** Every entry is -1 or the index of a destination field. */
  predicate ValidMap(panMap: seq<int>, dstCount: int) {
    forall i :: 0 <= i < |panMap| ==> panMap[i] == -1 || 0 <= panMap[i] < dstCount
  }

  /** One source field in create mode: reuse a same-named destination
      field, else create it; after a successful CreateField the entry is
      set to the counter only when the layer grew by exactly one. */
  function AddField(st: MapState, iSrc: nat, def: FieldDefn, createField: CreateField): (r: MapState)
    requires iSrc < |st.panMap|
    ensures |r.panMap| == |st.panMap|
    ensures st.dst <= r.dst
    ensures ValidMap(st.panMap, |st.dst|) ==> ValidMap(r.panMap, |r.dst|)
    ensures forall i :: 0 <= i < |st.panMap| && i != iSrc ==> r.panMap[i] == st.panMap[i]
    ensures r.panMap[iSrc] == st.panMap[iSrc] || r.panMap[iSrc] >= 0
  {
    var iDst := FieldIndex(st.dst, def.name);
    if iDst >= 0 then st.(panMap := st.panMap[iSrc := iDst])
    else match createField(st.dst, def)
      case Refused => st
      case Added(extra) =>
        var dst' := st.dst + extra;
        if |dst'| != st.next + 1 then st.(dst := dst')
        else MapState(st.panMap[iSrc := st.next], dst', st.next + 1)
  }

  /** Under a faithful driver, with the counter equal to the field count,
      the field ends up mapped to a destination field of the same name:
      an existing one (layer unchanged) or the new last one. */
  lemma AddFieldFaithful(st: MapState, iSrc: nat, def: FieldDefn, createField: CreateField)
    requires iSrc < |st.panMap| && Faithful(createField) && st.next == |st.dst|
    ensures var r := AddField(st, iSrc, def, createField);
            && r.next == |r.dst|
            && 0 <= r.panMap[iSrc] < |r.dst|
            && EqualsIgnoreCase(r.dst[r.panMap[iSrc]].name, def.name)
            && (if FieldIndex(st.dst, def.name) >= 0
                then r.dst == st.dst && r.panMap[iSrc] == FieldIndex(st.dst, def.name)
                else r.dst == st.dst + [def] && r.panMap[iSrc] == |st.dst|)
  {
    var r := AddField(st, iSrc, def, createField);
    if FieldIndex(st.dst, def.name) < 0 {
      assert createField(st.dst, def) == Added([def]);
      assert r.dst[|st.dst|] == def;
    }
  }

  /** Selected-fields mode: the selection in order; a name absent from
      the source stops the layer unless failures are skipped. */
  function MapSelected(st: MapState, src: seq<FieldDefn>, sel: seq<string>, conv: Option<seq<string>>,
                       createField: CreateField, skip: bool): (r: Result<MapState, string>)
    requires |st.panMap| == |src|
    ensures r.Success? ==> |r.value.panMap| == |src| && st.dst <= r.value.dst
    ensures r.Success? && ValidMap(st.panMap, |st.dst|) ==> ValidMap(r.value.panMap, |r.value.dst|)
    ensures r.Failure? <==> !skip && exists k :: 0 <= k < |sel| && FieldIndex(src, sel[k]) == -1
    ensures r.Failure? ==> r.error in sel && FieldIndex(src, r.error) == -1
    ensures r.Success? ==> forall i :: 0 <= i < |src| && r.value.panMap[i] != st.panMap[i] ==>
              exists k :: 0 <= k < |sel| && FieldIndex(src, sel[k]) == i
    decreases |sel|
  {
    if |sel| == 0 then Success(st)
    else
      var iSrc := FieldIndex(src, sel[0]);
      if iSrc >= 0 then
        var r := MapSelected(AddField(st, iSrc, DestinationDefn(src[iSrc], conv), createField),
                             src, sel[1..], conv, createField, skip);
        assert r.Failure? ==> r.error in sel[1..];
        r
      else if !skip then Failure(sel[0])
      else
        MapSelected(st, src, sel[1..], conv, createField, skip)
  }

  /** All-fields mode: source fields from index `k` on, in source order. */
  function MapAll(st: MapState, src: seq<FieldDefn>, k: nat, conv: Option<seq<string>>,
                  createField: CreateField): (r: MapState)
    requires |st.panMap| == |src|
    ensures |r.panMap| == |src| && st.dst <= r.dst
    ensures ValidMap(st.panMap, |st.dst|) ==> ValidMap(r.panMap, |r.dst|)
    ensures forall i :: 0 <= i < k && i < |src| ==> r.panMap[i] == st.panMap[i]
    decreases |src| - k
  {
    if k >= |src| then st
    else MapAll(AddField(st, k, DestinationDefn(src[k], conv), createField), src, k + 1, conv, createField)
  }

  /** Source names pairwise distinct ignoring case. */
  predicate DistinctNames(src: seq<FieldDefn>) {
    forall i, j :: 0 <= i < j < |src| ==> !EqualsIgnoreCase(src[i].name, src[j].name)
  }

  lemma FieldIndexAppend(dst: seq<FieldDefn>, extra: FieldDefn, name: string)
    requires !EqualsIgnoreCase(extra.name, name)
    ensures FieldIndex(dst + [extra], name) == FieldIndex(dst, name)
  {
    var a := FieldIndex(dst + [extra], name);
    var b := FieldIndex(dst, name);
    if a == -1 {
      assert forall j :: 0 <= j < |dst| ==> (dst + [extra])[j] == dst[j];
    } else {
      assert a < |dst|;
      assert forall j :: 0 <= j < |dst| ==> (dst + [extra])[j] == dst[j];
    }
  }

  /** A field defined from one of the first `k` source fields. */
  predicate CreatedFrom(d: FieldDefn, src: seq<FieldDefn>, k: int, conv: Option<seq<string>>) {
    exists j :: 0 <= j < k && j < |src| && d == DestinationDefn(src[j], conv)
  }

  /** The destination fields past the initial ones were each created
      from one of the first `k` source fields. */
  predicate CreatedFromPrefix(dst: seq<FieldDefn>, init: seq<FieldDefn>, src: seq<FieldDefn>, k: int,
                              conv: Option<seq<string>>)
  {
    forall i :: |init| <= i < |dst| ==> CreatedFrom(dst[i], src, k, conv)
  }

  /** What holds after the first `k` source fields in all-fields mode
      under a faithful driver. */
  predicate FaithfulSoFar(st: MapState, src: seq<FieldDefn>, k: int, init: seq<FieldDefn>, conv: Option<seq<string>>) {
    && |st.panMap| == |src| && 0 <= k <= |src|
    && st.next == |st.dst| && init <= st.dst
    && CreatedFromPrefix(st.dst, init, src, k, conv)
    && forall i :: 0 <= i < k ==> MappedFaithfully(st.panMap, st.dst, src, init, conv, i)
  }

  /** Step case where the field's name is new: it is appended. */
  lemma StepCreates(st: MapState, src: seq<FieldDefn>, k: nat, init: seq<FieldDefn>, conv: Option<seq<string>>,
                    createField: CreateField)
    requires FaithfulSoFar(st, src, k, init, conv) && k < |src| && Faithful(createField)
    requires FieldIndex(st.dst, src[k].name) < 0
    ensures FaithfulSoFar(AddField(st, k, DestinationDefn(src[k], conv), createField), src, k + 1, init, conv)
  {
    var def := DestinationDefn(src[k], conv);
    var st' := AddField(st, k, def, createField);
    AddFieldFaithful(st, k, def, createField);
    assert st'.dst == st.dst + [def];
    forall i | 0 <= i < k ensures MappedFaithfully(st'.panMap, st'.dst, src, init, conv, i) {
      assert MappedFaithfully(st.panMap, st.dst, src, init, conv, i);
      assert st'.panMap[i] == st.panMap[i];
      assert st'.dst[st.panMap[i]] == st.dst[st.panMap[i]];
    }
    assert FieldIndex(init, def.name) < 0 by {
      assert forall j :: 0 <= j < |init| ==> init[j] == st.dst[j];
    }
    assert MappedFaithfully(st'.panMap, st'.dst, src, init, conv, k);
    forall i | |init| <= i < |st'.dst|
      ensures CreatedFrom(st'.dst[i], src, k + 1, conv)
    {
      if i < |st.dst| {
        assert CreatedFrom(st.dst[i], src, k, conv);
        var j :| 0 <= j < k && j < |src| && st.dst[i] == DestinationDefn(src[j], conv);
        assert st'.dst[i] == DestinationDefn(src[j], conv);
      } else {
        assert st'.dst[i] == DestinationDefn(src[k], conv);
      }
    }
  }

  /** Step case where the name is found: with distinct source names it
      can only be one of the initial destination fields. */
  lemma StepReuses(st: MapState, src: seq<FieldDefn>, k: nat, init: seq<FieldDefn>, conv: Option<seq<string>>,
                   createField: CreateField)
    requires FaithfulSoFar(st, src, k, init, conv) && k < |src| && Faithful(createField) && DistinctNames(src)
    requires FieldIndex(st.dst, src[k].name) >= 0
    ensures FaithfulSoFar(AddField(st, k, DestinationDefn(src[k], conv), createField), src, k + 1, init, conv)
  {
    var def := DestinationDefn(src[k], conv);
    var st' := AddField(st, k, def, createField);
    AddFieldFaithful(st, k, def, createField);
    ReusedIsInitial(st, src, k, init, conv);
    forall i | 0 <= i < k ensures MappedFaithfully(st'.panMap, st'.dst, src, init, conv, i) {
      assert MappedFaithfully(st.panMap, st.dst, src, init, conv, i);
    }
    assert st'.dst == st.dst;
    CreatedFromLonger(st.dst, init, src, k, conv);
  }

  /** With distinct source names, a name already in the destination is
      one of the initial fields, found at the same index there. */
  lemma ReusedIsInitial(st: MapState, src: seq<FieldDefn>, k: nat, init: seq<FieldDefn>, conv: Option<seq<string>>)
    requires FaithfulSoFar(st, src, k, init, conv) && k < |src| && DistinctNames(src)
    requires FieldIndex(st.dst, DestinationDefn(src[k], conv).name) >= 0
    ensures var f := FieldIndex(st.dst, DestinationDefn(src[k], conv).name);
            f < |init| && FieldIndex(init, DestinationDefn(src[k], conv).name) == f
  {
    var def := DestinationDefn(src[k], conv);
    var f := FieldIndex(st.dst, def.name);
    forall i | |init| <= i < |st.dst| ensures !EqualsIgnoreCase(st.dst[i].name, def.name) {
      assert CreatedFrom(st.dst[i], src, k, conv);
      var j :| 0 <= j < k && j < |src| && st.dst[i] == DestinationDefn(src[j], conv);
      assert !EqualsIgnoreCase(src[j].name, src[k].name);
    }
    assert f < |init|;
    assert FieldIndex(init, def.name) == f by {
      assert forall j :: 0 <= j < |init| ==> init[j] == st.dst[j];
    }
  }

  lemma CreatedFromLonger(dst: seq<FieldDefn>, init: seq<FieldDefn>, src: seq<FieldDefn>, k: int,
                          conv: Option<seq<string>>)
    requires CreatedFromPrefix(dst, init, src, k, conv)
    ensures CreatedFromPrefix(dst, init, src, k + 1, conv)
  {
    forall i | |init| <= i < |dst|
      ensures CreatedFrom(dst[i], src, k + 1, conv)
    {
      assert CreatedFrom(dst[i], src, k, conv);
      var j :| 0 <= j < k && j < |src| && dst[i] == DestinationDefn(src[j], conv);
    }
  }

  /** All-fields mode with a faithful driver and distinct source names:
      every entry ends up mapped as `MappedFaithfully` describes. */
  lemma {:induction false} MapAllFaithful(st: MapState, src: seq<FieldDefn>, k: nat, conv: Option<seq<string>>,
                                          createField: CreateField, init: seq<FieldDefn>)
    requires FaithfulSoFar(st, src, k, init, conv) && Faithful(createField) && DistinctNames(src)
    ensures FaithfulSoFar(MapAll(st, src, k, conv, createField), src, |src|, init, conv)
    decreases |src| - k
  {
    if k < |src| {
      var st' := AddField(st, k, DestinationDefn(src[k], conv), createField);
      if FieldIndex(st.dst, src[k].name) < 0 {
        StepCreates(st, src, k, init, conv, createField);
      } else {
        StepReuses(st, src, k, init, conv, createField);
      }
      MapAllFaithful(st', src, k + 1, conv, createField, init);
    }
  }

  /** Entry `i` of the map names a destination field with source field
      `i`'s name. */
  predicate PointsAtName(panMap: seq<int>, dst: seq<FieldDefn>, src: seq<FieldDefn>, i: int)
    requires 0 <= i < |src| && |panMap| == |src|
  {
    0 <= panMap[i] < |dst| && EqualsIgnoreCase(dst[panMap[i]].name, src[i].name)
  }

  /** A destination field created for one of the selected names that the
      source has. */
  predicate CreatedForSelection(d: FieldDefn, src: seq<FieldDefn>, sel: seq<string>, conv: Option<seq<string>>) {
    exists k :: 0 <= k < |sel| && 0 <= FieldIndex(src, sel[k]) && d == DestinationDefn(src[FieldIndex(src, sel[k])], conv)
  }

  /** One selected field under a faithful driver: its entry names a
      field of its name, the entries naming fields keep doing so, and the
      only field that can be added is its own definition. */
  lemma SelectStep(st: MapState, src: seq<FieldDefn>, iSrc: nat, conv: Option<seq<string>>, createField: CreateField)
    requires |st.panMap| == |src| && iSrc < |src| && Faithful(createField) && st.next == |st.dst|
    ensures var r := AddField(st, iSrc, DestinationDefn(src[iSrc], conv), createField);
            && r.next == |r.dst|
            && PointsAtName(r.panMap, r.dst, src, iSrc)
            && (forall i :: 0 <= i < |src| && PointsAtName(st.panMap, st.dst, src, i) ==> PointsAtName(r.panMap, r.dst, src, i))
            && (r.dst == st.dst || r.dst == st.dst + [DestinationDefn(src[iSrc], conv)])
  {
    var def := DestinationDefn(src[iSrc], conv);
    var r := AddField(st, iSrc, def, createField);
    AddFieldFaithful(st, iSrc, def, createField);
    forall i | 0 <= i < |src| && PointsAtName(st.panMap, st.dst, src, i)
      ensures PointsAtName(r.panMap, r.dst, src, i)
    {
      if i != iSrc {
        assert r.dst[st.panMap[i]] == st.dst[st.panMap[i]];
      }
    }
  }

  /** What selected-fields mode leaves behind under a faithful driver,
      going from `st` to `r` over the selection `sel`. */
  predicate SelectedOutcome(st: MapState, src: seq<FieldDefn>, sel: seq<string>, conv: Option<seq<string>>, r: MapState)
    requires |st.panMap| == |src| && |r.panMap| == |src|
  {
    && r.next == |r.dst| && st.dst <= r.dst
    && (forall i :: 0 <= i < |src| && PointsAtName(st.panMap, st.dst, src, i) ==> PointsAtName(r.panMap, r.dst, src, i))
    && (forall k :: 0 <= k < |sel| && 0 <= FieldIndex(src, sel[k]) ==>
          PointsAtName(r.panMap, r.dst, src, FieldIndex(src, sel[k])))
    && (forall j :: |st.dst| <= j < |r.dst| ==> CreatedForSelection(r.dst[j], src, sel, conv))
  }

  /** A selected name the source lacks, skipped, changes nothing. */
  lemma SelectedSkip(st: MapState, src: seq<FieldDefn>, sel: seq<string>, conv: Option<seq<string>>, r: MapState)
    requires |st.panMap| == |src| && |r.panMap| == |src| && |sel| > 0 && FieldIndex(src, sel[0]) < 0
    requires SelectedOutcome(st, src, sel[1..], conv, r)
    ensures SelectedOutcome(st, src, sel, conv, r)
  {
    var rest := sel[1..];
    forall k | 0 <= k < |sel| && 0 <= FieldIndex(src, sel[k])
      ensures PointsAtName(r.panMap, r.dst, src, FieldIndex(src, sel[k]))
    {
      assert sel[k] == rest[k - 1];
    }
    forall j | |st.dst| <= j < |r.dst|
      ensures CreatedForSelection(r.dst[j], src, sel, conv)
    {
      CreatedForLonger(r.dst[j], src, sel, conv);
    }
  }

  /** A selected name the source has: the step of SelectStep followed by
      the rest of the selection. */
  lemma SelectedAdd(st: MapState, src: seq<FieldDefn>, sel: seq<string>, conv: Option<seq<string>>,
                    createField: CreateField, r: MapState)
    requires |st.panMap| == |src| && Faithful(createField) && st.next == |st.dst|
    requires |sel| > 0 && 0 <= FieldIndex(src, sel[0]) && |r.panMap| == |src|
    requires SelectedOutcome(AddField(st, FieldIndex(src, sel[0]), DestinationDefn(src[FieldIndex(src, sel[0])], conv), createField),
                             src, sel[1..], conv, r)
    ensures SelectedOutcome(st, src, sel, conv, r)
  {
    SelectStep(st, src, FieldIndex(src, sel[0]), conv, createField);
    SelectedAddMaps(st, src, sel, conv, createField, r);
    SelectedAddCreates(st, src, sel, conv, createField, r);
  }

  /** The mapping half of SelectedAdd. */
  lemma SelectedAddMaps(st: MapState, src: seq<FieldDefn>, sel: seq<string>, conv: Option<seq<string>>,
                        createField: CreateField, r: MapState)
    requires |st.panMap| == |src| && Faithful(createField) && st.next == |st.dst|
    requires |sel| > 0 && 0 <= FieldIndex(src, sel[0]) && |r.panMap| == |src|
    requires SelectedOutcome(AddField(st, FieldIndex(src, sel[0]), DestinationDefn(src[FieldIndex(src, sel[0])], conv), createField),
                             src, sel[1..], conv, r)
    ensures forall k :: 0 <= k < |sel| && 0 <= FieldIndex(src, sel[k]) ==>
              PointsAtName(r.panMap, r.dst, src, FieldIndex(src, sel[k]))
  {
    var rest := sel[1..];
    SelectStep(st, src, FieldIndex(src, sel[0]), conv, createField);
    forall k | 0 <= k < |sel| && 0 <= FieldIndex(src, sel[k])
      ensures PointsAtName(r.panMap, r.dst, src, FieldIndex(src, sel[k]))
    {
      if k > 0 {
        assert sel[k] == rest[k - 1];
      }
    }
  }

  /** The creation half of SelectedAdd. */
  lemma SelectedAddCreates(st: MapState, src: seq<FieldDefn>, sel: seq<string>, conv: Option<seq<string>>,
                           createField: CreateField, r: MapState)
    requires |st.panMap| == |src| && Faithful(createField) && st.next == |st.dst|
    requires |sel| > 0 && 0 <= FieldIndex(src, sel[0]) && |r.panMap| == |src|
    requires SelectedOutcome(AddField(st, FieldIndex(src, sel[0]), DestinationDefn(src[FieldIndex(src, sel[0])], conv), createField),
                             src, sel[1..], conv, r)
    ensures forall j :: |st.dst| <= j < |r.dst| ==> CreatedForSelection(r.dst[j], src, sel, conv)
  {
    var iSrc := FieldIndex(src, sel[0]);
    var def := DestinationDefn(src[iSrc], conv);
    var st1 := AddField(st, iSrc, def, createField);
    SelectStep(st, src, iSrc, conv, createField);
    assert CreatedForSelection(def, src, sel, conv) by {
      assert 0 <= FieldIndex(src, sel[0]) && def == DestinationDefn(src[FieldIndex(src, sel[0])], conv);
    }
    forall j | |st.dst| <= j < |r.dst|
      ensures CreatedForSelection(r.dst[j], src, sel, conv)
    {
      if j < |st1.dst| {
        assert r.dst[j] == st1.dst[j] == def;
      } else {
        CreatedForLonger(r.dst[j], src, sel, conv);
      }
    }
  }

  /** A field created for a selection's tail was created for the selection. */
  lemma CreatedForLonger(d: FieldDefn, src: seq<FieldDefn>, sel: seq<string>, conv: Option<seq<string>>)
    requires |sel| > 0 && CreatedForSelection(d, src, sel[1..], conv)
    ensures CreatedForSelection(d, src, sel, conv)
  {
    var rest := sel[1..];
    var k :| 0 <= k < |rest| && 0 <= FieldIndex(src, rest[k]) && d == DestinationDefn(src[FieldIndex(src, rest[k])], conv);
    assert sel[k + 1] == rest[k];
  }

  /** Selected-fields mode with a faithful driver: when the layer is not
      stopped, every selected name the source has is mapped to a
      destination field of that name, entries already naming a field
      keep doing so, and each field added was created for a selected
      name. */
  lemma {:induction false} MapSelectedFaithful(st: MapState, src: seq<FieldDefn>, sel: seq<string>,
                                               conv: Option<seq<string>>, createField: CreateField, skip: bool)
    requires |st.panMap| == |src| && Faithful(createField) && st.next == |st.dst|
    ensures var r := MapSelected(st, src, sel, conv, createField, skip);
            r.Success? ==> SelectedOutcome(st, src, sel, conv, r.value)
    decreases |sel|
  {
    var r := MapSelected(st, src, sel, conv, createField, skip);
    if |sel| == 0 {
      assert r == Success(st);
    } else if r.Success? {
      var iSrc := FieldIndex(src, sel[0]);
      if iSrc >= 0 {
        var st1 := AddField(st, iSrc, DestinationDefn(src[iSrc], conv), createField);
        SelectStep(st, src, iSrc, conv, createField);
        assert r == MapSelected(st1, src, sel[1..], conv, createField, skip);
        MapSelectedFaithful(st1, src, sel[1..], conv, createField, skip);
        SelectedAdd(st, src, sel, conv, createField, r.value);
      } else {
        assert r == MapSelected(st, src, sel[1..], conv, createField, skip);
        MapSelectedFaithful(st, src, sel[1..], conv, createField, skip);
        SelectedSkip(st, src, sel, conv, r.value);
      }
    }
  }

  /** Create mode with -select and a faithful driver: a layer that is
      not stopped maps every selected field the source has to a
      destination field of its name; every other entry stays -1; the
      fields added were created for selected names. */
  lemma SelectFields(src: seq<FieldDefn>, dst: seq<FieldDefn>, sel: seq<string>, conv: Option<seq<string>>,
                     createField: CreateField, skip: bool, ignore: IgnorePolicy, zField: Option<string>)
    requires Faithful(createField)
    ensures var r := ReconcileFields(src, dst, Some(sel), false, conv, createField, skip, ignore, zField);
            r.Success? ==>
              && (forall k :: 0 <= k < |sel| && 0 <= FieldIndex(src, sel[k]) ==>
                    PointsAtName(r.value.panMap, r.value.dstFields, src, FieldIndex(src, sel[k])))
              && (forall i :: 0 <= i < |src| && (forall k :: 0 <= k < |sel| ==> FieldIndex(src, sel[k]) != i) ==>
                    r.value.panMap[i] == -1)
              && (forall j :: |dst| <= j < |r.value.dstFields| ==>
                    CreatedForSelection(r.value.dstFields[j], src, sel, conv))
  {
    var init := MapState(seq(|src|, _ => -1), dst, |dst|);
    MapSelectedFaithful(init, src, sel, conv, createField, skip);
  }

  /** Entry `i` of a create-mode map under a faithful driver. */
  predicate MappedFaithfully(panMap: seq<int>, dst: seq<FieldDefn>, src: seq<FieldDefn>, init: seq<FieldDefn>,
                             conv: Option<seq<string>>, i: int)
    requires 0 <= i < |src| && |panMap| == |src|
  {
    && 0 <= panMap[i] < |dst|
    && EqualsIgnoreCase(dst[panMap[i]].name, src[i].name)
    && (if FieldIndex(init, src[i].name) >= 0
        then panMap[i] == FieldIndex(init, src[i].name)
        else panMap[i] >= |init| && dst[panMap[i]] == DestinationDefn(src[i], conv))
  }

  /** Under -fieldTypeToString, a number copied into the string field
      created for it goes through SetField's conversion to a string; a
      string value is stored as it is. */
  lemma StringFieldConverts(src: FieldDefn, conv: Option<seq<string>>, v: Value, convert: Conversion)
    requires ConvertsToString(conv, src.ftype)
    ensures DestinationDefn(src, conv).ftype == String
    ensures v.IntValue? || v.RealValue? ==> Stored(v, DestinationDefn(src, conv).ftype, convert) == convert(v, String)
    ensures v.StringValue? || v.Unset? ==> Stored(v, DestinationDefn(src, conv).ftype, convert) == v
  {
  }

  /** Append mode: each source field goes to the destination field of
      the same name, when there is one. */
  function MapByName(src: seq<FieldDefn>, dst: seq<FieldDefn>): (panMap: seq<int>)
    ensures |panMap| == |src|
    ensures ValidMap(panMap, |dst|)
    ensures forall i :: 0 <= i < |src| && panMap[i] >= 0 ==> EqualsIgnoreCase(dst[panMap[i]].name, src[i].name)
    ensures forall i :: 0 <= i < |src| ==>
              (panMap[i] == -1 <==> forall j :: 0 <= j < |dst| ==> !EqualsIgnoreCase(dst[j].name, src[i].name))
  {
    seq(|src|, i requires 0 <= i < |src| => FieldIndex(dst, src[i].name))
  }

  // ----- Ignored source fields -----

  /** A source field is read by the translation when it is selected or
      is the -zfield (both compared ignoring case). */
  predicate Requested(name: string, sel: seq<string>, zField: Option<string>) {
    (exists j :: 0 <= j < |sel| && EqualsIgnoreCase(name, sel[j]))
    || (zField.Some? && EqualsIgnoreCase(name, zField.value))
  }

  /** The list passed to SetIgnoredFields: the source fields, in order,
      that are not requested. */
  function IgnoredFields(src: seq<FieldDefn>, sel: seq<string>, zField: Option<string>): (r: seq<string>)
    ensures |r| <= |src|
    ensures forall k :: 0 <= k < |src| ==> (src[k].name in r <==> !Requested(src[k].name, sel, zField))
    ensures forall n :: n in r ==> exists k :: 0 <= k < |src| && src[k].name == n
  {
    if |src| == 0 then []
    else
      var rest := IgnoredFields(src[1..], sel, zField);
      assert forall k :: 1 <= k < |src| ==> src[k] == src[1..][k - 1];
      if Requested(src[0].name, sel, zField) then rest else [src[0].name] + rest
  }

  /** How the source layer and filter allow SetIgnoredFields. */
  datatype IgnorePolicy = IgnorePolicy(canIgnore: bool, whereSet: bool)

  datatype FieldMapping = FieldMapping(panMap: seq<int>, dstFields: seq<FieldDefn>, ignored: Option<seq<string>>)

  /** The field part of TranslateLayer.  `appending` is true only when
      an existing layer is appended to; selection and conversion are then
      ignored and nothing is created. */
  function ReconcileFields(src: seq<FieldDefn>, dst: seq<FieldDefn>, selection: Option<seq<string>>,
                           appending: bool, conv: Option<seq<string>>, createField: CreateField,
                           skip: bool, ignore: IgnorePolicy, zField: Option<string>): (r: Result<FieldMapping, string>)
    ensures r.Success? ==> |r.value.panMap| == |src| && ValidMap(r.value.panMap, |r.value.dstFields|)
    ensures r.Success? ==> dst <= r.value.dstFields
    ensures appending ==> r == Success(FieldMapping(MapByName(src, dst), dst, None))
    ensures r.Failure? <==> selection.Some? && !appending && !skip &&
                            exists k :: 0 <= k < |selection.value| && FieldIndex(src, selection.value[k]) == -1
    ensures r.Success? ==> (r.value.ignored.Some? <==> selection.Some? && !appending && ignore.canIgnore && !ignore.whereSet)
    ensures r.Success? && selection.Some? && !appending ==>
              forall i :: 0 <= i < |src| && r.value.panMap[i] != -1 ==>
                exists k :: 0 <= k < |selection.value| && FieldIndex(src, selection.value[k]) == i
  {
    var init := MapState(seq(|src|, _ => -1), dst, |dst|);
    if selection.Some? && !appending then
      match MapSelected(init, src, selection.value, conv, createField, skip)
      case Failure(name) => Failure(name)
      case Success(st) =>
        var ignored := if ignore.canIgnore && !ignore.whereSet
                       then Some(IgnoredFields(src, selection.value, zField)) else None;
        Success(FieldMapping(st.panMap, st.dst, ignored))
    else if !appending then
      var st := MapAll(init, src, 0, conv, createField);
      Success(FieldMapping(st.panMap, st.dst, None))
    else
      Success(FieldMapping(MapByName(src, dst), dst, None))
  }

  /** Create mode without a selection, faithful driver, distinct source
      names: every source field is mapped to a destination field of the
      same name; fields already present are reused; the others are
      created from their own definitions, String-typed exactly when the
      conversion rule names their type or "All", at consecutive indices
      after the destination's initial fields. */
  lemma CreateAllFields(src: seq<FieldDefn>, dst: seq<FieldDefn>, conv: Option<seq<string>>,
                        createField: CreateField, skip: bool, ignore: IgnorePolicy, zField: Option<string>)
    requires Faithful(createField) && DistinctNames(src)
    ensures var r := ReconcileFields(src, dst, None, false, conv, createField, skip, ignore, zField);
            && r.Success?
            && forall i :: 0 <= i < |src| ==> MappedFaithfully(r.value.panMap, r.value.dstFields, src, dst, conv, i)
  {
    var init := MapState(seq(|src|, _ => -1), dst, |dst|);
    assert FaithfulSoFar(init, src, 0, dst, conv);
    MapAllFaithful(init, src, 0, conv, createField, dst);
  }

  // ----- Features -----

  datatype Value = Unset | IntValue(i: int) | RealValue(r: real) | StringValue(s: string)

  /** GetFieldAsDouble for the -zfield value. */
  function AsDouble(v: Value): real {
    match v
    case IntValue(i) => i as real
    case RealValue(r) => r
    case _ => 0.0
  }

  /** How OGR's SetField stores a value in a field of another kind:
      a number formatted for a string field, a string parsed for a
      numeric one, and so on.  The rules are OGR's and are not spelled
      out here. */
  type Conversion = (Value, FieldType) -> Value

  /** A value already of the field's kind, which SetField stores as it
      is; an unset source value leaves the field unset. */
  predicate Fits(v: Value, t: FieldType) {
    match v
    case Unset => true
    case IntValue(_) => t == Integer || t == Integer64
    case RealValue(_) => t == Real
    case StringValue(_) => t == String || t == WideString
  }

  /** The value SetFromWithMap stores in a destination field of type `t`. */
  function Stored(v: Value, t: FieldType, convert: Conversion): Value {
    if Fits(v, t) then v else convert(v, t)
  }

  /** The types of a schema's fields, in order. */
  function TypesOf(fs: seq<FieldDefn>): (r: seq<FieldType>)
    ensures |r| == |fs|
    ensures forall i :: 0 <= i < |fs| ==> r[i] == fs[i].ftype
  {
    seq(|fs|, i requires 0 <= i < |fs| => fs[i].ftype)
  }

  /** A source feature: its FID, one value per source field, its geometry. */
  datatype Feature = Feature(fid: int, values: seq<Value>, geometry: Option<Geometry>)

  /** A destination feature handed to CreateFeature. */
  datatype DstFeature = DstFeature(fid: int, values: seq<Value>, geometry: Option<Geometry>)

  /** The attribute part of SetFromWithMap: each source value is stored,
      converted to the field's type, in the destination field its map
      entry names, in source order. */
  function MapValues(values: seq<Value>, panMap: seq<int>, dstTypes: seq<FieldType>, convert: Conversion): (r: seq<Value>)
    ensures |r| == |dstTypes|
    decreases |panMap|
  {
    if |panMap| == 0 then seq(|dstTypes|, _ => Unset)
    else
      var k := |panMap| - 1;
      var prev := MapValues(values, panMap[..k], dstTypes, convert);
      if k < |values| && 0 <= panMap[k] < |dstTypes|
      then prev[panMap[k] := Stored(values[k], dstTypes[panMap[k]], convert)]
      else prev
  }

  /** Source field i writes destination field j and no later source
      field does. */
  predicate LastWriter(values: seq<Value>, panMap: seq<int>, j: int, i: int) {
    && 0 <= i < |panMap| && i < |values| && panMap[i] == j
    && forall i' :: i < i' < |panMap| && i' < |values| ==> panMap[i'] != j
  }

  predicate Unwritten(values: seq<Value>, panMap: seq<int>, j: int) {
    forall i :: 0 <= i < |panMap| && i < |values| ==> panMap[i] != j
  }

  /** Destination field j holds the value of the last source field
      mapped to it, as SetField stores it in a field of j's type, and
      stays unset when no source field is mapped to it. */
  lemma {:induction false} MapValuesLastWriter(values: seq<Value>, panMap: seq<int>, dstTypes: seq<FieldType>,
                                               convert: Conversion, j: nat)
    requires j < |dstTypes|
    ensures var r := MapValues(values, panMap, dstTypes, convert);
            || (r[j] == Unset && Unwritten(values, panMap, j))
            || exists i :: LastWriter(values, panMap, j, i) && r[j] == Stored(values[i], dstTypes[j], convert)
    decreases |panMap|
  {
    if |panMap| > 0 {
      var k := |panMap| - 1;
      var init := panMap[..k];
      var r := MapValues(values, panMap, dstTypes, convert);
      assert forall i :: 0 <= i < k ==> init[i] == panMap[i];
      if k < |values| && panMap[k] == j {
        assert LastWriter(values, panMap, j, k);
      } else {
        MapValuesLastWriter(values, init, dstTypes, convert, j);
        assert r[j] == MapValues(values, init, dstTypes, convert)[j];
        if Unwritten(values, init, j) {
          assert Unwritten(values, panMap, j);
        } else {
          var i :| LastWriter(values, init, j, i) && MapValues(values, init, dstTypes, convert)[j] == Stored(values[i], dstTypes[j], convert);
          assert LastWriter(values, panMap, j, i);
        }
      }
    }
  }
}
