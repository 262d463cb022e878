# ogr2ogr's layer translation, modelled in Dafny

This project models the layer translation at the heart of the C# port of
GDAL's `ogr2ogr` (`GdalNetCore/Ogr2Ogr.cs`). `TranslateLayer` copies one
source layer into a destination data source in three phases:

1. It finds or creates the destination layer, with `-nln`, `-nlt`,
   `-append`, `-overwrite`, `-explodecollections` and `-zfield`.
2. It reconciles the attribute fields into the source-to-destination
   field map `panMap`, with `-select` and `-fieldTypeToString`.
3. It transfers the features. Each feature is split into parts, and
   each part's geometry goes through a fixed chain of stages:
   - extraction of the exploded member
   - Z injection
   - simplification
   - source clip
   - reprojection or output SRS assignment
   - destination clip
   - type coercion

   Group transactions, progress reports and the `-skipfailures` policy
   run alongside.

Around `TranslateLayer` the model also covers these helpers:

- `CSLFindString`
- `wkbFlatten`
- the recursive `SetZ`
- the clip-geometry accumulation of `LoadGeometry`
- the polygon built from a bounding box
- `GDALScaledProgress`
- the two passes of the main program over the source layers

GDAL is called through values of function type, which Dafny treats as
uninterpreted. These cover:

- geometry operations: `Intersection`, `IsEmpty`, `Transform`,
  `SimplifyPreserveTopology`, `AssignSpatialReference`, `ForceTo*`
- `SetFromWithMap` and `CreateFeature` failures
- `CreateField`
- the data source's answers to `GetLayerByName`, `DeleteLayer`,
  `TestCapability` and `CreateLayer`

A source layer is its definition plus the sequence of its features in
reading order.

The feature loop is stated twice:

- as a recursive reference (`FeatureLoop.TranslateFeatures`), whose
  effect on the destination layer is a sequence of events: transaction
  calls, `CreateFeature` calls and progress reports;
- as the imperative loop (`FeatureLoop.TransferFeatures`), proved equal
  to the reference.

The lemmas then describe the events through independent reference
quantities:

- the parts written
- the parts a clip drops
- the failed transformations
- the number of parts
- a transaction state machine (`Transactions.Replay`) that counts the
  calls a layer would reject

Modules, one per file:

- `Wrappers`: `Option` and `Result`
- `Geometries`: type codes and `wkbFlatten`
- `ZInjection`: `SetZ`
- `Fields`: the field map
- `LayerResolution`: the destination layer
- `Pipeline`: the geometry stages of one part
- `Transactions`: the group-transaction counter and the state machine
- `FeatureLoop`: the transfer loop
- `Translation`: `TranslateLayer` as a whole
- `ClipGeometry`: `LoadGeometry`
- `LayerPasses`: scaled progress and the main program's two passes

## Model

| member | source | states |
|---|---|---|
| Fields.FindString | GdalNetCore/Ogr2Ogr.cs:923-935 | The index of the first entry equal to the string ignoring ASCII case; -1 exactly when no entry matches. |
| Fields.FieldIndex | GdalNetCore/Ogr2Ogr.cs:1299 | The first field whose name matches ignoring case, -1 exactly when none does. |
| Fields.ConvertsToString | GdalNetCore/Ogr2Ogr.cs:1309-1313 | A field becomes a string field exactly when a -fieldTypeToString list is given and one entry names "All" or the field's type name. |
| Fields.AddField | GdalNetCore/Ogr2Ogr.cs:1314-1338 | One field in create mode. The destination schema only grows. A valid map stays valid. Only the field's own map entry changes, and only to a destination index. |
| Fields.AddFieldFaithful | GdalNetCore/Ogr2Ogr.cs:1322-1337 | With a driver that appends what it is asked to create, an unknown name becomes a new last field and its entry points at it. A known name reuses the existing field. |
| Fields.MapSelected | GdalNetCore/Ogr2Ogr.cs:1297-1348 | Selected-fields mode fails exactly when some selected name is missing from the source and failures are not skipped; the error names that field. Only selected source fields get a new map entry. |
| Fields.SelectStep | GdalNetCore/Ogr2Ogr.cs:1314-1338 | With a faithful driver, one selected field ends up mapped to a destination field of its name, either reused or appended, and no other entry that named a field stops doing so. |
| Fields.MapSelectedFaithful | GdalNetCore/Ogr2Ogr.cs:1297-1348 | With a faithful driver, a selection that goes through maps every selected name the source has to a destination field of that name. Entries that already named a field keep doing so, and each field added was created for a selected name. |
| Fields.SelectFields | GdalNetCore/Ogr2Ogr.cs:1293-1348 | The same, for the field reconciliation of a created layer with -select, and every source field not selected keeps the entry -1. |
| Fields.MapAll | GdalNetCore/Ogr2Ogr.cs:1390-1430 | All-fields mode keeps the map valid, only grows the schema, and leaves the entries before the start index alone. |
| Fields.MapAllFaithful | GdalNetCore/Ogr2Ogr.cs:1390-1430 | With a faithful driver and distinct source names, each source field maps to a destination field with its name, created from that source field or already present. Every field added was created from a source field. |
| Fields.FieldIndexAppend | GdalNetCore/Ogr2Ogr.cs:1316-1317 | Appending a field with another name does not change where a name is found. |
| Fields.StepCreates | GdalNetCore/Ogr2Ogr.cs:1322-1337 | The inductive step of MapAllFaithful for a name that is not yet in the destination. |
| Fields.StepReuses | GdalNetCore/Ogr2Ogr.cs:1318-1321 | The inductive step of MapAllFaithful for a name that is already in the destination. |
| Fields.ReusedIsInitial | GdalNetCore/Ogr2Ogr.cs:1316-1321 | With distinct source names, a name already in the destination in all-fields mode is one of the fields the layer had before, at the same index. |
| Fields.MapByName | GdalNetCore/Ogr2Ogr.cs:1432-1450 | Append mode: each source field maps to the first destination field with the same name ignoring case, or -1 when there is none. |
| Fields.IgnoredFields | GdalNetCore/Ogr2Ogr.cs:1360-1386 | The list handed to SetIgnoredFields holds a source field's name exactly when the field is neither selected nor the -zfield field, and nothing else. |
| Fields.ReconcileFields | GdalNetCore/Ogr2Ogr.cs:1283-1451 | On success the map has one valid entry per source field and the existing fields are a prefix of the destination's. Append mode maps by name. The call fails exactly in the selected-field case. SetIgnoredFields is used exactly with a selection, not appending, a capable layer and no -where. |
| Fields.CreateAllFields | GdalNetCore/Ogr2Ogr.cs:1388-1431 | Create mode without a selection always succeeds, and with a faithful driver maps every source field faithfully. |
| Fields.MapValuesLastWriter | GdalNetCore/Ogr2Ogr.cs:1526 | Each destination value of SetFromWithMap comes from the last source field mapped onto it, stored as SetField stores it in a field of the destination's type: as it is when it already has that kind, converted otherwise. It is unset when no source field is mapped onto it. |
| Fields.StringFieldConverts | GdalNetCore/Ogr2Ogr.cs:1309-1313 | Under -fieldTypeToString the created field is a string field, so a number copied into it goes through the conversion to a string and a string is stored as it is. |
| Geometries.Flatten | GdalNetCore/Ogr2Ogr.cs:1022-1025 | The type code with the 25D bit cleared; putting the bit back gives the original code. |
| Geometries.BoundingBoxPolygon | GdalNetCore/Ogr2Ogr.cs:238-250 | One closed five-vertex ring that starts at (xmin, ymin) and goes to (xmin, ymax) first. Every vertex is a box corner with Z 0 and every edge is axis-aligned. The four corners are distinct when the box is not degenerate. The ring and the polygon are 3D, because the vertices are added with a Z value. |
| ZInjection.SetZ | GdalNetCore/Ogr2Ogr.cs:1030-1064 | Null stays null. The flattened type and the member count are kept, and a type SetZ handles comes out 3D, with the 25D bit set. A type SetZ does not handle is unchanged. |
| ZInjection.SetZMakes3D | GdalNetCore/Ogr2Ogr.cs:1556-1562 | After SetZ and the clone, every node SetZ handles is 3D, down through polygons and collections. |
| ZInjection.SetZKeepsShape | GdalNetCore/Ogr2Ogr.cs:1036-1060 | On a geometry without an empty point, SetZ keeps flattened type codes, vertex counts and member counts all the way down. An empty point is the exception: SetPoint(0, ...) gives it the vertex (0, 0, z). |
| ZInjection.SetZKeepsPlanar | GdalNetCore/Ogr2Ogr.cs:1036-1060 | On a geometry without an empty point, SetZ leaves every vertex's X and Y where they were. |
| ZInjection.SetZReachesEveryVertex | GdalNetCore/Ogr2Ogr.cs:1036-1060 | On a geometry without an empty point, every vertex SetZ is meant to reach ends at the given Z, and their number is kept. |
| ZInjection.SetZLastWins | GdalNetCore/Ogr2Ogr.cs:1030-1064 | Setting Z twice equals setting the second value once. |
| ZInjection.SetZAsWritten | GdalNetCore/Ogr2Ogr.cs:1030-1064 | The as-written SetZ keeps null, the flattened type and the member count, and makes a handled type 3D. |
| ZInjection.SetZAsWrittenMovesPoint | GdalNetCore/Ogr2Ogr.cs:1036-1037 | As written, POINT (0.5 2.5) with Z 7 becomes POINT Z (0 2 7); the corrected SetZ gives POINT Z (0.5 2.5 7). |
| LayerResolution.ForceModeOf | GdalNetCore/Ogr2Ogr.cs:1103-1108 | Exactly one coercion per flattened polygon, multipolygon or multilinestring type; none for the default -2. |
| LayerResolution.ExplodedType | GdalNetCore/Ogr2Ogr.cs:1216-1235 | Multi types become their single-part type and a collection becomes Unknown. The 25D bit is kept. Any other type is unchanged. |
| LayerResolution.DeriveLayerType | GdalNetCore/Ogr2Ogr.cs:1212-1239 | An explicit -nlt wins. Otherwise the source type, exploded if asked, is 25D exactly when the source was or -zfield is given. |
| LayerResolution.TargetName | GdalNetCore/Ogr2Ogr.cs:1100-1101 | -nln when given, else the source layer's name. |
| LayerResolution.FindLayer | GdalNetCore/Ogr2Ogr.cs:1171-1186 | The index of the first layer with exactly that name, -1 exactly when none has it. |
| LayerResolution.CreateIn | GdalNetCore/Ogr2Ogr.cs:1241-1256 | CreateLayer is refused exactly without the capability. It fails exactly when the capability is there and the driver hands back no layer. Otherwise the new layer, with the derived type, comes after the remaining layers. |
| LayerResolution.Resolve | GdalNetCore/Ogr2Ogr.cs:1162-1276 | DeleteFailed, LayerExists, CreateUnsupported and CreateFailed each happen exactly under their conditions. Appending happens exactly when the layer exists without -overwrite, and then needs -append and leaves the layers alone. A created layer replaces the deleted one at the end of the list. |
| LayerResolution.KeepExisting | GdalNetCore/Ogr2Ogr.cs:1262-1276 | An existing layer kept without -overwrite is appended to under -append and is otherwise an error. |
| LayerResolution.Replace | GdalNetCore/Ogr2Ogr.cs:1196-1257 | A failed DeleteLayer stops before any creation. After the deletion, or with no layer, the new layer is created among the remaining layers, with CreateIn's outcomes. |
| Pipeline.PlanExplode | GdalNetCore/Ogr2Ogr.cs:1491-1511 | A collection is split into its members only under -explodecollections. The loop always runs at least once, also for an empty collection. |
| Pipeline.ExplodeVisitsMembers | GdalNetCore/Ogr2Ogr.cs:1513-1554 | The part loop visits each member of an exploded collection once and in order, and otherwise the whole geometry once. |
| Pipeline.ExplodedPartsMatchLayerType | GdalNetCore/Ogr2Ogr.cs:1216-1235 | When a feature's geometry has the source layer's multi type and holds members of the matching single type, every part the loop extracts has the flattened type of the layer created with -explodecollections. With -zfield, the part after Z injection has exactly the layer's type, 25D bit included. |
| Pipeline.PlannedMembers | GdalNetCore/Ogr2Ogr.cs:1546-1650 | A stage is planned exactly when the options enable it. |
| Pipeline.PlannedInOrder | GdalNetCore/Ogr2Ogr.cs:1546-1650 | The planned stages come in strictly increasing stage order: none runs twice or out of order. |
| Pipeline.PlannedBeforeIsPrefix | GdalNetCore/Ogr2Ogr.cs:1546-1650 | An enabled stage comes right after the stages planned before it. |
| Pipeline.Pass | GdalNetCore/Ogr2Ogr.cs:1548-1618 | An enabled stage adds one sound step producing its operation's result; a disabled one changes nothing. |
| Pipeline.FrontStages | GdalNetCore/Ogr2Ogr.cs:1548-1577 | Extraction, Z injection and simplification form a sound chain of exactly the planned stages before the source clip. |
| Pipeline.ClipPass | GdalNetCore/Ogr2Ogr.cs:1579-1593 | A clip that keeps the part continues with the intersection. |
| Pipeline.DropStage | GdalNetCore/Ogr2Ogr.cs:1582-1591 | A null or empty intersection drops the part after the stages before the clip. |
| Pipeline.ReprojectStage | GdalNetCore/Ogr2Ogr.cs:1596-1618 | A transformation fails exactly when one is set up and Transform errs. Without -skipfailures the part stops; otherwise the failure is recorded and the geometry goes on unchanged. The recorded steps begin with the stages before the transformation, ending in the geometry it received. |
| Pipeline.KeptSource | GdalNetCore/Ogr2Ogr.cs:1579-1618 | A part the source clip keeps records a transformation failure exactly when a transformation is set up and Transform fails on the geometry that reached it. |
| Pipeline.ClipDestinationStage | GdalNetCore/Ogr2Ogr.cs:1620-1650 | The destination clip drops the part or passes it to the coercion; the outcome is never a failure. |
| Pipeline.PreparePart | GdalNetCore/Ogr2Ogr.cs:1546-1650 | A part without geometry is written as is. Otherwise the outcome is sound: a written part went through every planned stage and carries the last geometry, and a dropped part stopped at a clip. A part stops exactly on a transformation failure without -skipfailures. A part that reaches the transformation records a failure exactly when a transformation is set up and Transform fails on the geometry the earlier stages produced. A part the source clip drops records none. |
| Transactions.TicksClosedForm | GdalNetCore/Ogr2Ogr.cs:1516-1521 | With G > 0, k pre-increments from c fire (c + k) / G times and leave the counter at (c + k) % G. |
| Transactions.FirstGroupHoldsOneLess | GdalNetCore/Ogr2Ogr.cs:1516-1521 | The first commit comes at the G-th part, because the counter is pre-incremented. |
| Transactions.UngroupedNeverFires | GdalNetCore/Ogr2Ogr.cs:1516-1521 | With G <= 0 the counter only grows and never fires. |
| Transactions.Apply | GdalNetCore/Ogr2Ogr.cs:1470-1471 | A transaction call matching the layer's state opens or closes the transaction; a mismatched one is counted and changes nothing. |
| Transactions.MisusesOnlyGrow | GdalNetCore/Ogr2Ogr.cs:1470-1471 | Replaying more calls never forgets a misuse. |
| FeatureLoop.TranslateFeatures | GdalNetCore/Ogr2Ogr.cs:1468-1681 | With G > 0 a failed layer's last call commits or rolls back, and a successful layer ends with a commit. |
| FeatureLoop.Finish | GdalNetCore/Ogr2Ogr.cs:1596-1666 | After the stages, a part stops the layer exactly on a transformation failure without -skipfailures, or a CreateFeature failure without -skipfailures. Only a dropped part bumps nCount. A failed transformation under G > 0 adds a commit. |
| FeatureLoop.TickStep | GdalNetCore/Ogr2Ogr.cs:1516-1521 | The counter advances by one tick, with a commit and a start exactly when it fires. |
| FeatureLoop.RunCounts | GdalNetCore/Ogr2Ogr.cs:1586-1588 | A successful run raises nCount by one per feature plus one per clip-dropped part. |
| FeatureLoop.ReportsEveryCount | GdalNetCore/Ogr2Ogr.cs:1586-1588 | The progress reports of a layer are 1, 2, ..., nCount, and there are none without a callback. |
| FeatureLoop.ProgressOvershoots | GdalNetCore/Ogr2Ogr.cs:1586-1588 | When the fast count equals the features read, a layer with a dropped part reports a completed fraction above 1. |
| FeatureLoop.WritesEveryKeptPart | GdalNetCore/Ogr2Ogr.cs:1513-1666 | A successful layer hands CreateFeature exactly the translated parts that no clip dropped, in reading order. |
| FeatureLoop.GroupedCalls | GdalNetCore/Ogr2Ogr.cs:1470-1680 | With G > 0 a successful layer makes the opening start, then one block per part renewal or failed transformation, then the final commit. |
| FeatureLoop.GroupedTransactions | GdalNetCore/Ogr2Ogr.cs:1470-1680 | With G > 0 a successful layer commits 1 + parts / G + failures times. It leaves no transaction open, and each skipped failed transformation is one commit with no transaction open. |
| FeatureLoop.CleanTransactions | GdalNetCore/Ogr2Ogr.cs:1516-1521 | Without transformation failures every transaction call matches the layer's state. |
| FeatureLoop.UngroupedMakesNoTransactionCalls | GdalNetCore/Ogr2Ogr.cs:1470-1680 | With G <= 0 a layer makes no transaction call, whether it succeeds or fails. |
| FeatureLoop.PartsFromHalts | GdalNetCore/Ogr2Ogr.cs:1513-1666 | A feature's part loop stops exactly when one of its parts fails SetFromWithMap, fails its transformation without -skipfailures, or fails CreateFeature without -skipfailures. |
| FeatureLoop.FeatureStepHalts | GdalNetCore/Ogr2Ogr.cs:1513-1674 | Whether a feature stops the layer does not depend on the loop state. |
| FeatureLoop.FidRefetch | GdalNetCore/Ogr2Ogr.cs:1477-1484 | From a zero counter, the counter is zero again after a feature that goes through exactly when G > 0 divides its number of parts. |
| FeatureLoop.FidNeverEnds | GdalNetCore/Ogr2Ogr.cs:1477-1484 | As written, -fid on such a feature, none of whose parts stops the layer, never leaves the loop, however many iterations are allowed. |
| FeatureLoop.FidLoopAgrees | GdalNetCore/Ogr2Ogr.cs:1477-1489 | Where G does not divide the parts, the loop as written matches fetching the feature once. |
| FeatureLoop.FidLoopOnce | GdalNetCore/Ogr2Ogr.cs:1477-1489 | Fetched once, a feature that goes through is counted once with its dropped parts, and its kept parts are written once. |
| FeatureLoop.TransferParts | GdalNetCore/Ogr2Ogr.cs:1513-1666 | The imperative part loop computes the reference part loop. |
| FeatureLoop.TransferFeatures | GdalNetCore/Ogr2Ogr.cs:1468-1681 | The imperative feature loop computes the reference transfer: result, final nCount and every event. |
| Translation.PartSettings | GdalNetCore/Ogr2Ogr.cs:1462-1466 | iSrcZField is the -zfield lookup in the source fields, or -1. The force mode follows -nlt. |
| Translation.TranslateLayer | GdalNetCore/Ogr2Ogr.cs:1071-1682 | A resolution failure or a missing selected field leaves before any feature is read. Otherwise the features are transferred through the resolved layer and the field map. |
| Translation.WrittenWellFormed | GdalNetCore/Ogr2Ogr.cs:1526-1543 | Every feature written has one value per destination field, and OGRNullFID unless -preserve_fid is given. |
| Translation.TranslateLayerWrites | GdalNetCore/Ogr2Ogr.cs:1071-1682 | A translated layer writes exactly its kept parts. Each has one value per destination field, and the destination's earlier fields are kept. |
| ClipGeometry.LoadGeometry | GdalNetCore/Ogr2Ogr.cs:981-1018 | The result is null exactly when some geometry is neither a polygon nor a multipolygon, or no feature has a geometry. Otherwise it is a multipolygon of the polygons and multipolygon members, in reading order, and it is 3D exactly when one of those members is. |
| LayerPasses.Scaled | GdalNetCore/Ogr2Ogr.cs:38-41 | Completion 0 maps to pctMin and completion 1 to pctMax. |
| LayerPasses.ScaledWithin | GdalNetCore/Ogr2Ogr.cs:38-41 | A completion in [0, 1] lands inside the sub-range. |
| LayerPasses.ScaledMonotone | GdalNetCore/Ogr2Ogr.cs:38-41 | Scaling keeps the order of completions. |
| LayerPasses.ScaledOvershoots | GdalNetCore/Ogr2Ogr.cs:38-41 | A completion above 1 lands beyond a non-empty sub-range. |
| LayerPasses.CountPass | GdalNetCore/Ogr2Ogr.cs:776-813 | The first pass stops the program exactly at the first failed attribute filter without -skipfailures. Progress stays on exactly when every layer has a fast count. A layer's count is taken only while progress is on, and the total is their sum. |
| LayerPasses.RangesTile | GdalNetCore/Ogr2Ogr.cs:815-830 | With progress on and features counted, the layers' sub-ranges tile [0, 1]: the first starts at 0, each is ordered, each ends where the next begins, and the last ends at 1. |
| LayerPasses.SecondPass | GdalNetCore/Ogr2Ogr.cs:815-845 | Layers are translated in order, each with its sub-range and count. The program stops exactly at the first failed layer without -skipfailures. |

## Left out

- Command-line parsing, opening and creating data sources, the SQL result-set path of the main program, and the per-layer progress callback it builds: the model starts from the parsed options.
- The clip data source, SQL and layer choice of `LoadGeometry` (lines 956-979) are left out. The model starts from the sequence of the chosen layer's geometries.
- The geometry operations of GDAL are uninterpreted functions. Coordinates are unbounded reals, not doubles, and there is no NaN or rounding.
- Setting up the coordinate transformation is left out, together with the process exit when that fails (lines 1113-1148). The model takes whether a transformation exists.
- A layer definition that is null is not modelled: the destination schema always exists. `CreateField` either refuses or appends fields. When it appends anything other than exactly one field, the "claimed to have added the field" check (lines 1331-1341 and 1414-1424) leaves the entry at -1, as `Fields.AddField` models.
- Field widths and precisions are carried but not checked.
- Fields.FindString: compares ignoring ASCII case only. The port's `equalsIgnoreCase` (line 930) also folds non-ASCII letters, so names that differ only in non-ASCII case do not match in the model.
- Fields.IgnoredFields: the selected-name and -zfield tests (lines 1371 and 1378) also use `equalsIgnoreCase`; the model folds ASCII case only, as in Fields.FindString.
- ClipGeometry.LoadGeometry: a 3D member makes the multipolygon 3D, but the members gathered so far keep their own types. GDAL versions that also turn those members 3D, or turn a 2D member added to a 3D collection 3D, are not followed.
- ZInjection.SetZ: marks every node it handles as 3D. GDAL's coordinate-dimension bookkeeping for geometries without vertices, such as an empty line string or an empty collection, is not modelled.
- Fields.MapValuesLastWriter: how SetField converts a value of another kind (a number formatted for a string field, a string parsed for a number field) is OGR's and is a parameter of the model. The model fixes only that a value already of the field's kind is stored as it is.
- `GetFieldAsDouble` on a string field is modelled as 0.0. Field lookup folds ASCII case only, as GDAL's `EQUAL` does. Note that append mode uses this same case-insensitive lookup, because the code calls `GetFieldIndex`, although an exact match is what one might expect.
- The segmentize operation does nothing in this source, and the model keeps that behaviour.
- Pipeline.ReprojectStage: a skipped failed `Transform` continues with the geometry as it was; GDAL may have changed it partly.
- FeatureLoop.Writer: whether SetFromWithMap or CreateFeature fails depends on the feature alone, not on what the destination layer already holds; a duplicate FID under -preserve_fid that only fails the second time is not modelled. `FeatureLoop.FeatureStepHalts` and the -fid finding rely on this.
- FeatureLoop.TranslateFeatures: `GetFeatureCount` and the features are given as a sequence. A source layer that changes while it is read is not modelled.
- FeatureLoop.FidLoopAsWritten: follows at most `fuel` iterations. The non-termination finding is stated for every fuel.
- FeatureLoop.ProgressOvershoots: assumes the fast feature count equals the number of features read.
- LayerPasses.SecondPass: takes each layer's `TranslateLayer` result as input rather than computing it. `Translation.TranslateLayer` models one layer.
- LayerPasses.RangesTile: is stated for a positive total. With a zero total every bound is 0/0, which `ProgressFor` gives as `NotANumber`.
- The 32-bit `nCount`, `nFeaturesInTransaction` and `long` feature counts are unbounded in the model: wrap-around is out of reach for realistic inputs.

## Findings

| source | as written | input that shows it | evidently intended | confidence | as-written member | corrected member |
|---|---|---|---|---|---|---|
| GdalNetCore/Ogr2Ogr.cs:1036-1037 | The Point case of `SetZ` calls `SetPoint(0, (int)GetX(0), (int)GetY(0), dfZ)`, which truncates X and Y to integers. | `-zfield` on POINT (0.5 2.5) with Z 7 gives POINT Z (0 2 7). | Only Z changes: POINT Z (0.5 2.5 7), as in the line-string case. | not executed | ZInjection.SetZAsWrittenMovesPoint | ZInjection.SetZKeepsPlanar |
| GdalNetCore/Ogr2Ogr.cs:1477-1484 | Under `-fid`, the feature is fetched again whenever `nFeaturesInTransaction` is 0. It is also 0 again after G parts (lines 1516-1521). | `-fid 1 -skipfailures`, which sets G = 1 at line 147, with a feature that is written successfully: the same feature is written over and over. | The feature is fetched and written once. | not executed | FeatureLoop.FidNeverEnds | FeatureLoop.FidLoopOnce |
