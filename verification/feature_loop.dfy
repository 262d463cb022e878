/** The feature loop of TranslateLayer.

    Each source feature is split into parts (one, or one per member when
    collections are exploded).  Every part pre-increments the
    group-transaction counter, has its attributes copied through the
    field map, goes through the geometry stages and is handed to
    CreateFeature unless a clip dropped it.  A dropped part and every
    finished feature bump the progress counter nCount.

    The loop is modelled as a sequence of events on the destination
    layer: transaction calls, CreateFeature calls and progress reports.
    Whether SetFromWithMap or CreateFeature fails is decided by the
    uninterpreted functions of `Writer`. */
module FeatureLoop {
  import opened Wrappers
  import opened Geometries
  import opened Fields
  import opened LayerResolution
  import opened Pipeline
  import opened Transactions

  /** OGRNullFID. */
  const NullFid: int := -1

  datatype Event = Tx(call: TxCall) | Create(feature: DstFeature) | Progress(count: nat)

  /** Whether SetFromWithMap fails for a source feature, and whether the
      destination layer's CreateFeature fails for a destination feature. */
  datatype Writer = Writer(setFromFails: Feature -> bool, createFails: DstFeature -> bool)

  /** The geometry stages applied to one part of a feature: the whole
      geometry (None) or member k (Some(k)). */
  type Stages = (Feature, Option<nat>) -> PartResult

  /** What the loop calls out to: the geometry stages and the writer. */
  datatype Env = Env(stages: Stages, writer: Writer)

  /** The settings the loop reads: the geometry stages, the group size
      nGroupTransactions, -preserve_fid, -explodecollections, whether a
      progress callback is set, the field map with the destination
      field types, and SetField's value conversion. */
  datatype LoopConfig = LoopConfig(part: PartConfig, group: int, preserveFid: bool, explode: bool,
                                   progress: bool, panMap: seq<int>, dstTypes: seq<FieldType>,
                                   convert: Conversion)

  /** nFeaturesInTransaction, nCount and the events so far. */
  datatype LoopState = LoopState(counter: int, nCount: nat, events: seq<Event>)

  /** Go on with the next part or feature, or leave TranslateLayer with false. */
  datatype Flow = Go(st: LoopState) | Halt(st: LoopState)

  // ----- Views of the event sequence -----

  function TxCalls(evs: seq<Event>): seq<TxCall>
    decreases |evs|
  {
    if |evs| == 0 then [] else (if evs[0].Tx? then [evs[0].call] else []) + TxCalls(evs[1..])
  }

  function ProgressCounts(evs: seq<Event>): seq<nat>
    decreases |evs|
  {
    if |evs| == 0 then [] else (if evs[0].Progress? then [evs[0].count] else []) + ProgressCounts(evs[1..])
  }

  function Created(evs: seq<Event>): seq<DstFeature>
    decreases |evs|
  {
    if |evs| == 0 then [] else (if evs[0].Create? then [evs[0].feature] else []) + Created(evs[1..])
  }

  lemma {:induction false} TxCallsAppend(xs: seq<Event>, ys: seq<Event>)
    ensures TxCalls(xs + ys) == TxCalls(xs) + TxCalls(ys)
    decreases |xs|
  {
    if |xs| == 0 {
      assert xs + ys == ys;
    } else {
      var head := if xs[0].Tx? then [xs[0].call] else [];
      assert (xs + ys)[0] == xs[0] && (xs + ys)[1..] == xs[1..] + ys;
      assert TxCalls(xs + ys) == head + TxCalls(xs[1..] + ys);
      TxCallsAppend(xs[1..], ys);
      assert head + (TxCalls(xs[1..]) + TxCalls(ys)) == (head + TxCalls(xs[1..])) + TxCalls(ys);
    }
  }

  lemma {:induction false} ProgressCountsAppend(xs: seq<Event>, ys: seq<Event>)
    ensures ProgressCounts(xs + ys) == ProgressCounts(xs) + ProgressCounts(ys)
    decreases |xs|
  {
    if |xs| == 0 {
      assert xs + ys == ys;
    } else {
      var head := if xs[0].Progress? then [xs[0].count] else [];
      assert (xs + ys)[0] == xs[0] && (xs + ys)[1..] == xs[1..] + ys;
      assert ProgressCounts(xs + ys) == head + ProgressCounts(xs[1..] + ys);
      ProgressCountsAppend(xs[1..], ys);
      assert head + (ProgressCounts(xs[1..]) + ProgressCounts(ys)) == (head + ProgressCounts(xs[1..])) + ProgressCounts(ys);
    }
  }

  lemma {:induction false} CreatedAppend(xs: seq<Event>, ys: seq<Event>)
    ensures Created(xs + ys) == Created(xs) + Created(ys)
    decreases |xs|
  {
    if |xs| == 0 {
      assert xs + ys == ys;
    } else {
      var head := if xs[0].Create? then [xs[0].feature] else [];
      assert (xs + ys)[0] == xs[0] && (xs + ys)[1..] == xs[1..] + ys;
      assert Created(xs + ys) == head + Created(xs[1..] + ys);
      CreatedAppend(xs[1..], ys);
      assert head + (Created(xs[1..]) + Created(ys)) == (head + Created(xs[1..])) + Created(ys);
    }
  }

  /** Each view of a concatenation is the concatenation of the views. */
  lemma ViewsAppend(xs: seq<Event>, ys: seq<Event>)
    ensures TxCalls(xs + ys) == TxCalls(xs) + TxCalls(ys)
    ensures ProgressCounts(xs + ys) == ProgressCounts(xs) + ProgressCounts(ys)
    ensures Created(xs + ys) == Created(xs) + Created(ys)
  {
    TxCallsAppend(xs, ys);
    ProgressCountsAppend(xs, ys);
    CreatedAppend(xs, ys);
  }

  /** A failed layer's last call closes its transaction. */
  predicate EndsTransaction(evs: seq<Event>) {
    |evs| > 0 && (evs[|evs| - 1] == Tx(CommitCall) || evs[|evs| - 1] == Tx(RollbackCall))
  }

  // ----- One part -----

  function PartsOf(cfg: LoopConfig, f: Feature): nat {
    PlanExplode(cfg.explode, f.geometry).nIters
  }

  /** GetFieldAsDouble(iSrcZField) of the source feature.  iSrcZField
      indexes the source layer's fields, which every feature carries. */
  function ZValue(part: PartConfig, f: Feature): real {
    var k := part.zFieldIndex;
    if 0 <= k < |f.values| then AsDouble(f.values[k]) else 0.0
  }

  /** The stages TranslateLayer applies: the geometry pipeline with the
      feature's -zfield value.  A member index outside the geometry is
      never asked for. */
  function PipelineStages(part: PartConfig, ops: GeometryOps): Stages {
    (f: Feature, k: Option<nat>) =>
      if k.Some? && !(f.geometry.Some? && k.value < |f.geometry.value.parts|) then PartResult([], Write(f.geometry), false)
      else PreparePart(part, ops, f.geometry, k, ZValue(part, f))
  }

  /** The stage outcome of part i of feature f. */
  function PartOutcome(cfg: LoopConfig, env: Env, f: Feature, i: nat): PartResult {
    env.stages(f, PartIndex(PlanExplode(cfg.explode, f.geometry), i))
  }

  /** Under the pipeline, part i of f is the pipeline run on member i
      (or on the whole geometry), and it stops the layer exactly when
      its transformation failed without -skipfailures. */
  lemma PipelineOutcome(cfg: LoopConfig, ops: GeometryOps, writer: Writer, f: Feature, i: nat)
    requires i < PartsOf(cfg, f)
    ensures var plan := PlanExplode(cfg.explode, f.geometry);
            var out := PartOutcome(cfg, Env(PipelineStages(cfg.part, ops), writer), f, i);
            && (PartIndex(plan, i).Some? ==> f.geometry.Some? && PartIndex(plan, i).value < |f.geometry.value.parts|)
            && out == PreparePart(cfg.part, ops, f.geometry, PartIndex(plan, i), ZValue(cfg.part, f))
            && (out.end.Failed? <==> out.transformFailed && !cfg.part.skipFailures)
  {
  }

  /** The destination feature built by SetFromWithMap: attributes through
      the field map, the source FID under -preserve_fid and OGRNullFID
      otherwise, and the geometry the stages produced. */
  function Translated(cfg: LoopConfig, f: Feature, g: Option<Geometry>): DstFeature {
    DstFeature(if cfg.preserveFid then f.fid else NullFid, MapValues(f.values, cfg.panMap, cfg.dstTypes, cfg.convert), g)
  }

  /** Appending one event; each view of the events grows by that event's share. */
  function Emit(st: LoopState, e: Event): (r: LoopState)
    ensures r.counter == st.counter && r.nCount == st.nCount && r.events == st.events + [e]
    ensures TxCalls(r.events) == TxCalls(st.events) + (if e.Tx? then [e.call] else [])
    ensures ProgressCounts(r.events) == ProgressCounts(st.events) + (if e.Progress? then [e.count] else [])
    ensures Created(r.events) == Created(st.events) + (if e.Create? then [e.feature] else [])
  {
    ViewsAppend(st.events, [e]);
    st.(events := st.events + [e])
  }

  function EmitIf(st: LoopState, b: bool, e: Event): LoopState {
    if b then Emit(st, e) else st
  }

  /** nCount++ and its progress report. */
  function Report(cfg: LoopConfig, st: LoopState): LoopState {
    EmitIf(st.(nCount := st.nCount + 1), cfg.progress, Progress(st.nCount + 1))
  }

  /** CreateFeature on the translated part: its failure stops the layer
      after a rollback (G > 0) unless failures are skipped. */
  function WritePart(cfg: LoopConfig, env: Env, st: LoopState, d: DstFeature): (r: Flow)
    ensures r.st.counter == st.counter && r.st.nCount == st.nCount
    ensures r.Halt? <==> !cfg.part.skipFailures && env.writer.createFails(d)
    ensures r.Halt? && cfg.group > 0 ==> EndsTransaction(r.st.events)
    ensures r.Go? || cfg.group <= 0 ==> TxCalls(r.st.events) == TxCalls(st.events)
    ensures ProgressCounts(r.st.events) == ProgressCounts(st.events)
    ensures r.Go? ==> Created(r.st.events) == Created(st.events) + [d]
  {
    var s3 := Emit(st, Create(d));
    if env.writer.createFails(d) && !cfg.part.skipFailures then Halt(EmitIf(s3, cfg.group > 0, Tx(RollbackCall)))
    else Go(s3)
  }

  /** What follows the geometry stages of a part.  A failed
      transformation commits (G > 0); it stops the layer, or under
      -skipfailures the part goes on.  A dropped part is only counted;
      any other part is handed to CreateFeature, whose failure stops the
      layer after a rollback unless failures are skipped. */
  function Finish(cfg: LoopConfig, env: Env, s1: LoopState, f: Feature, out: PartResult): (r: Flow)
    ensures r.st.counter == s1.counter
    ensures r.Halt? <==>
              || out.end.Failed?
              || (out.end.Write? && !cfg.part.skipFailures
                  && env.writer.createFails(Translated(cfg, f, out.end.geometry)))
    ensures r.st.nCount == s1.nCount + (if out.end.Dropped? then 1 else 0)
    ensures r.Halt? && cfg.group > 0 ==> EndsTransaction(r.st.events)
    ensures r.Go? ==> TxCalls(r.st.events)
                      == TxCalls(s1.events) + (if cfg.group > 0 && out.transformFailed then [CommitCall] else [])
    ensures cfg.group <= 0 ==> TxCalls(r.st.events) == TxCalls(s1.events)
    ensures ProgressCounts(r.st.events)
            == ProgressCounts(s1.events) + (if cfg.progress && out.end.Dropped? then [s1.nCount + 1] else [])
    ensures r.Go? ==> Created(r.st.events)
                      == Created(s1.events) + (if out.end.Write? then [Translated(cfg, f, out.end.geometry)] else [])
  {
    var grouped := cfg.group > 0;
    var s2 := EmitIf(s1, grouped && (out.transformFailed || out.end.Failed?), Tx(CommitCall));
    match out.end
    case Failed => Halt(s2)
    case Dropped(_) => Go(Report(cfg, s2))
    case Write(g) => WritePart(cfg, env, s2, Translated(cfg, f, g))
  }

  /** The counter's pre-increment, with a commit and a new transaction
      when it reaches the group size. */
  function TickStep(cfg: LoopConfig, st: LoopState): (r: LoopState)
    ensures r.nCount == st.nCount && r.counter == Tick(cfg.group, st.counter).counter
    ensures TxCalls(r.events) == TxCalls(st.events)
              + (if Tick(cfg.group, st.counter).fires == 1 then [CommitCall, StartCall] else [])
    ensures ProgressCounts(r.events) == ProgressCounts(st.events) && Created(r.events) == Created(st.events)
  {
    var t := Tick(cfg.group, st.counter);
    var s0 := st.(counter := t.counter);
    if t.fires == 1 then Emit(Emit(s0, Tx(CommitCall)), Tx(StartCall)) else s0
  }

  /** One iteration of the part loop. */
  function PartStep(cfg: LoopConfig, env: Env, st: LoopState, f: Feature, i: nat): (r: Flow)
    requires i < PartsOf(cfg, f)
    ensures r.st.counter == Tick(cfg.group, st.counter).counter
    ensures var out := PartOutcome(cfg, env, f, i);
            r.Halt? <==>
              || env.writer.setFromFails(f)
              || out.end.Failed?
              || (out.end.Write? && !cfg.part.skipFailures
                  && env.writer.createFails(Translated(cfg, f, out.end.geometry)))
    ensures r.st.nCount == st.nCount + (if r.Go? && PartOutcome(cfg, env, f, i).end.Dropped? then 1 else 0)
    ensures r.Halt? && cfg.group > 0 ==> EndsTransaction(r.st.events)
  {
    var s1 := TickStep(cfg, st);
    if env.writer.setFromFails(f) then Halt(EmitIf(s1, cfg.group > 0, Tx(CommitCall)))
    else Finish(cfg, env, s1, f, PartOutcome(cfg, env, f, i))
  }

  /** The part loop from iteration i on. */
  function PartsFrom(cfg: LoopConfig, env: Env, st: LoopState, f: Feature, i: nat): (r: Flow)
    requires i <= PartsOf(cfg, f)
    ensures r.Halt? && cfg.group > 0 ==> EndsTransaction(r.st.events)
    decreases PartsOf(cfg, f) - i
  {
    if i == PartsOf(cfg, f) then Go(st)
    else match PartStep(cfg, env, st, f, i)
      case Halt(s) => Halt(s)
      case Go(s) => PartsFrom(cfg, env, s, f, i + 1)
  }

  /** One source feature: its parts, then nCount++ and a progress report. */
  function FeatureStep(cfg: LoopConfig, env: Env, st: LoopState, f: Feature): (r: Flow)
    ensures r.Halt? && cfg.group > 0 ==> EndsTransaction(r.st.events)
  {
    match PartsFrom(cfg, env, st, f, 0)
    case Halt(s) => Halt(s)
    case Go(s) => Go(Report(cfg, s))
  }

  /** The features of the layer, in reading order. */
  function Run(cfg: LoopConfig, env: Env, st: LoopState, fs: seq<Feature>): (r: Flow)
    ensures r.Halt? && cfg.group > 0 ==> EndsTransaction(r.st.events)
    decreases |fs|
  {
    if |fs| == 0 then Go(st)
    else match FeatureStep(cfg, env, st, fs[0])
      case Halt(s) => Halt(s)
      case Go(s) => Run(cfg, env, s, fs[1..])
  }

  /** TranslateLayer's result, final nCount and the events it caused. */
  datatype LayerRun = LayerRun(ok: bool, nCount: nat, events: seq<Event>)

  function InitialState(cfg: LoopConfig): LoopState {
    LoopState(0, 0, if cfg.group > 0 then [Tx(StartCall)] else [])
  }

  /** The transfer part of TranslateLayer: a transaction opened before
      the first feature and committed after the last when G > 0. */
  function TranslateFeatures(cfg: LoopConfig, env: Env, fs: seq<Feature>): (r: LayerRun)
    ensures !r.ok && cfg.group > 0 ==> EndsTransaction(r.events)
    ensures r.ok && cfg.group > 0 ==> |r.events| > 0 && r.events[|r.events| - 1] == Tx(CommitCall)
  {
    match Run(cfg, env, InitialState(cfg), fs)
    case Halt(s) => LayerRun(false, s.nCount, s.events)
    case Go(s) => LayerRun(true, s.nCount, EmitIf(s, cfg.group > 0, Tx(CommitCall)).events)
  }

  // ----- Reference quantities over the parts of the layer -----

  /** The parts of a feature from iteration i on that a clip drops. */
  function DropsFrom(cfg: LoopConfig, env: Env, f: Feature, i: nat): nat
    requires i <= PartsOf(cfg, f)
    decreases PartsOf(cfg, f) - i
  {
    if i == PartsOf(cfg, f) then 0
    else (if PartOutcome(cfg, env, f, i).end.Dropped? then 1 else 0) + DropsFrom(cfg, env, f, i + 1)
  }

  function Drops(cfg: LoopConfig, env: Env, fs: seq<Feature>): nat
    decreases |fs|
  {
    if |fs| == 0 then 0 else DropsFrom(cfg, env, fs[0], 0) + Drops(cfg, env, fs[1..])
  }

  /** The destination features of the parts that reach CreateFeature. */
  function WrittenFrom(cfg: LoopConfig, env: Env, f: Feature, i: nat): seq<DstFeature>
    requires i <= PartsOf(cfg, f)
    decreases PartsOf(cfg, f) - i
  {
    if i == PartsOf(cfg, f) then []
    else
      var out := PartOutcome(cfg, env, f, i);
      (if out.end.Write? then [Translated(cfg, f, out.end.geometry)] else []) + WrittenFrom(cfg, env, f, i + 1)
  }

  function Written(cfg: LoopConfig, env: Env, fs: seq<Feature>): seq<DstFeature>
    decreases |fs|
  {
    if |fs| == 0 then [] else WrittenFrom(cfg, env, fs[0], 0) + Written(cfg, env, fs[1..])
  }

  function TotalParts(cfg: LoopConfig, fs: seq<Feature>): nat
    decreases |fs|
  {
    if |fs| == 0 then 0 else PartsOf(cfg, fs[0]) + TotalParts(cfg, fs[1..])
  }

  /** The parts whose transformation failed. */
  function FailuresFrom(cfg: LoopConfig, env: Env, f: Feature, i: nat): nat
    requires i <= PartsOf(cfg, f)
    decreases PartsOf(cfg, f) - i
  {
    if i == PartsOf(cfg, f) then 0
    else (if PartOutcome(cfg, env, f, i).transformFailed then 1 else 0) + FailuresFrom(cfg, env, f, i + 1)
  }

  function Failures(cfg: LoopConfig, env: Env, fs: seq<Feature>): nat
    decreases |fs|
  {
    if |fs| == 0 then 0 else FailuresFrom(cfg, env, fs[0], 0) + Failures(cfg, env, fs[1..])
  }

  /** [1, 2, ..., n]: the counts reported while nCount goes from 0 to n. */
  function Counts(n: nat): seq<nat>
    decreases n
  {
    if n == 0 then [] else Counts(n - 1) + [n]
  }

  // ----- nCount and progress -----

  lemma {:induction false} PartsFromCounts(cfg: LoopConfig, env: Env, st: LoopState, f: Feature, i: nat)
    requires i <= PartsOf(cfg, f)
    ensures var r := PartsFrom(cfg, env, st, f, i);
            r.Go? ==> r.st.nCount == st.nCount + DropsFrom(cfg, env, f, i)
    decreases PartsOf(cfg, f) - i
  {
    if i < PartsOf(cfg, f) {
      var r := PartStep(cfg, env, st, f, i);
      if r.Go? {
        PartsFromCounts(cfg, env, r.st, f, i + 1);
      }
    }
  }

  /** nCount counts every feature once and every clip-dropped part once
      more. */
  lemma {:induction false} RunCounts(cfg: LoopConfig, env: Env, st: LoopState, fs: seq<Feature>)
    ensures var r := Run(cfg, env, st, fs);
            r.Go? ==> r.st.nCount == st.nCount + |fs| + Drops(cfg, env, fs)
    decreases |fs|
  {
    if |fs| > 0 {
      PartsFromCounts(cfg, env, st, fs[0], 0);
      var r := FeatureStep(cfg, env, st, fs[0]);
      if r.Go? {
        RunCounts(cfg, env, r.st, fs[1..]);
      }
    }
  }

  /** The progress reports so far are 1, 2, ..., nCount; none without
      a progress callback. */
  predicate Reported(cfg: LoopConfig, st: LoopState) {
    ProgressCounts(st.events) == (if cfg.progress then Counts(st.nCount) else [])
  }

  lemma PartStepReports(cfg: LoopConfig, env: Env, st: LoopState, f: Feature, i: nat)
    requires i < PartsOf(cfg, f) && Reported(cfg, st)
    ensures Reported(cfg, PartStep(cfg, env, st, f, i).st)
  {
    var s1 := TickStep(cfg, st);
    assert Reported(cfg, s1);
    if env.writer.setFromFails(f) {
      var h := EmitIf(s1, cfg.group > 0, Tx(CommitCall));
      assert PartStep(cfg, env, st, f, i).st == h;
      assert ProgressCounts(h.events) == ProgressCounts(s1.events) && h.nCount == s1.nCount;
    } else {
      var out := PartOutcome(cfg, env, f, i);
      var r := Finish(cfg, env, s1, f, out);
      assert PartStep(cfg, env, st, f, i) == r;
      ReportedAfter(cfg, s1, r.st, out.end.Dropped?);
    }
  }

  /** A state that counts one more feature and reports it (when progress
      is on), or neither, keeps the reports in step with the count. */
  lemma ReportedAfter(cfg: LoopConfig, s1: LoopState, s: LoopState, counted: bool)
    requires Reported(cfg, s1)
    requires s.nCount == s1.nCount + (if counted then 1 else 0)
    requires ProgressCounts(s.events) == ProgressCounts(s1.events) + (if cfg.progress && counted then [s1.nCount + 1] else [])
    ensures Reported(cfg, s)
  {
    if counted {
      assert Counts(s1.nCount + 1) == Counts(s1.nCount) + [s1.nCount + 1];
    }
  }

  lemma {:induction false} PartsFromReports(cfg: LoopConfig, env: Env, st: LoopState, f: Feature, i: nat)
    requires i <= PartsOf(cfg, f) && Reported(cfg, st)
    ensures Reported(cfg, PartsFrom(cfg, env, st, f, i).st)
    decreases PartsOf(cfg, f) - i
  {
    if i < PartsOf(cfg, f) {
      PartStepReports(cfg, env, st, f, i);
      var r := PartStep(cfg, env, st, f, i);
      if r.Go? {
        assert PartsFrom(cfg, env, st, f, i) == PartsFrom(cfg, env, r.st, f, i + 1);
        PartsFromReports(cfg, env, r.st, f, i + 1);
      }
    }
  }

  lemma {:induction false} RunReports(cfg: LoopConfig, env: Env, st: LoopState, fs: seq<Feature>)
    requires Reported(cfg, st)
    ensures Reported(cfg, Run(cfg, env, st, fs).st)
    decreases |fs|
  {
    if |fs| > 0 {
      PartsFromReports(cfg, env, st, fs[0], 0);
      var r := FeatureStep(cfg, env, st, fs[0]);
      if r.Go? {
        RunReports(cfg, env, r.st, fs[1..]);
      }
    }
  }

  /** The progress reports of a layer are nCount's successive values
      1, 2, ..., nCount, and none without a progress callback. */
  lemma ReportsEveryCount(cfg: LoopConfig, env: Env, fs: seq<Feature>)
    ensures var r := TranslateFeatures(cfg, env, fs);
            ProgressCounts(r.events) == (if cfg.progress then Counts(r.nCount) else [])
  {
    var s0 := InitialState(cfg);
    assert ProgressCounts(s0.events) == [];
    RunReports(cfg, env, s0, fs);
  }

  lemma FractionAboveOne(a: nat, b: nat)
    requires 0 < b < a
    ensures a as real / b as real > 1.0
  {
    assert a as real > b as real;
  }

  /** When the fast feature count equals the features read, a layer in
      which a clip drops any part reports a completed fraction above 1:
      the last report is nCount = features + dropped parts. */
  lemma ProgressOvershoots(cfg: LoopConfig, env: Env, fs: seq<Feature>)
    requires cfg.progress && Drops(cfg, env, fs) > 0
    ensures var r := TranslateFeatures(cfg, env, fs);
            var counts := ProgressCounts(r.events);
            r.ok ==> |fs| > 0 && |counts| > 0 && counts[|counts| - 1] as real / |fs| as real > 1.0
  {
    var r := TranslateFeatures(cfg, env, fs);
    if r.ok {
      RunCounts(cfg, env, InitialState(cfg), fs);
      ReportsEveryCount(cfg, env, fs);
      assert |fs| > 0;
      assert Counts(r.nCount) == Counts(r.nCount - 1) + [r.nCount];
      FractionAboveOne(r.nCount, |fs|);
    }
  }

  // ----- What reaches CreateFeature -----

  lemma PartStepCreated(cfg: LoopConfig, env: Env, st: LoopState, f: Feature, i: nat)
    requires i < PartsOf(cfg, f)
    ensures var r := PartStep(cfg, env, st, f, i);
            var out := PartOutcome(cfg, env, f, i);
            r.Go? ==> Created(r.st.events)
                      == Created(st.events) + (if out.end.Write? then [Translated(cfg, f, out.end.geometry)] else [])
  {
  }

  lemma {:induction false} PartsFromCreated(cfg: LoopConfig, env: Env, st: LoopState, f: Feature, i: nat)
    requires i <= PartsOf(cfg, f)
    ensures var r := PartsFrom(cfg, env, st, f, i);
            r.Go? ==> Created(r.st.events) == Created(st.events) + WrittenFrom(cfg, env, f, i)
    decreases PartsOf(cfg, f) - i
  {
    if i < PartsOf(cfg, f) {
      PartStepCreated(cfg, env, st, f, i);
      var r := PartStep(cfg, env, st, f, i);
      if r.Go? {
        assert PartsFrom(cfg, env, st, f, i) == PartsFrom(cfg, env, r.st, f, i + 1);
        PartsFromCreated(cfg, env, r.st, f, i + 1);
        var out := PartOutcome(cfg, env, f, i);
        assert WrittenFrom(cfg, env, f, i)
               == (if out.end.Write? then [Translated(cfg, f, out.end.geometry)] else []) + WrittenFrom(cfg, env, f, i + 1);
      }
    }
  }

  lemma FeatureStepCreated(cfg: LoopConfig, env: Env, st: LoopState, f: Feature)
    ensures var r := FeatureStep(cfg, env, st, f);
            r.Go? ==> Created(r.st.events) == Created(st.events) + WrittenFrom(cfg, env, f, 0)
  {
    PartsFromCreated(cfg, env, st, f, 0);
    var p := PartsFrom(cfg, env, st, f, 0);
    if p.Go? {
      ReportViews(cfg, p.st);
    }
  }

  lemma {:induction false} RunCreated(cfg: LoopConfig, env: Env, st: LoopState, fs: seq<Feature>)
    ensures var r := Run(cfg, env, st, fs);
            r.Go? ==> Created(r.st.events) == Created(st.events) + Written(cfg, env, fs)
    decreases |fs|
  {
    if |fs| > 0 {
      FeatureStepCreated(cfg, env, st, fs[0]);
      var r := FeatureStep(cfg, env, st, fs[0]);
      if r.Go? {
        assert Run(cfg, env, st, fs) == Run(cfg, env, r.st, fs[1..]);
        RunCreated(cfg, env, r.st, fs[1..]);
      }
    }
  }

  /** A successful layer hands CreateFeature exactly the translated parts
      that no clip dropped, in reading order. */
  lemma WritesEveryKeptPart(cfg: LoopConfig, env: Env, fs: seq<Feature>)
    ensures var r := TranslateFeatures(cfg, env, fs);
            r.ok ==> Created(r.events) == Written(cfg, env, fs)
  {
    var s0 := InitialState(cfg);
    assert Created(s0.events) == [];
    RunCreated(cfg, env, s0, fs);
  }

  // ----- Transactions -----

  /** The transaction calls made between the opening start and the final
      commit come in blocks: a commit and a new start when the counter
      reaches the group size, a lone commit when a transformation fails. */
  datatype Block = Renewal | LoneCommit

  function Flat(bs: seq<Block>): seq<TxCall>
    decreases |bs|
  {
    if |bs| == 0 then []
    else (if bs[0] == Renewal then [CommitCall, StartCall] else [CommitCall]) + Flat(bs[1..])
  }

  function Renewals(bs: seq<Block>): nat
    decreases |bs|
  {
    if |bs| == 0 then 0 else (if bs[0] == Renewal then 1 else 0) + Renewals(bs[1..])
  }

  function LoneCommits(bs: seq<Block>): nat
    decreases |bs|
  {
    if |bs| == 0 then 0 else (if bs[0] == LoneCommit then 1 else 0) + LoneCommits(bs[1..])
  }

  lemma {:induction false} BlocksAppend(xs: seq<Block>, ys: seq<Block>)
    ensures Flat(xs + ys) == Flat(xs) + Flat(ys)
    ensures Renewals(xs + ys) == Renewals(xs) + Renewals(ys)
    ensures LoneCommits(xs + ys) == LoneCommits(xs) + LoneCommits(ys)
    decreases |xs|
  {
    if |xs| == 0 {
      assert xs + ys == ys;
    } else {
      assert (xs + ys)[1..] == xs[1..] + ys;
      BlocksAppend(xs[1..], ys);
    }
  }

  /** Replayed after the opening start and followed by the final commit,
      the blocks leave no transaction open; every lone commit leaves the
      layer idle, so the next commit finds no transaction. */
  lemma {:induction false} BlocksReplay(s: TxState, m: nat, bs: seq<Block>)
    ensures Replay(Audit(s, m), Flat(bs) + [CommitCall])
            == Audit(Idle, m + (if s == Idle then 1 else 0) + LoneCommits(bs))
    decreases |bs|
  {
    var a := Audit(s, m);
    if |bs| == 0 {
      assert Flat(bs) + [CommitCall] == [CommitCall];
      assert Replay(a, [CommitCall]) == Replay(Apply(a, CommitCall), []);
    } else {
      var rest := Flat(bs[1..]) + [CommitCall];
      var m' := m + (if s == Idle then 1 else 0);
      var a1 := Apply(a, CommitCall);
      assert a1 == Audit(Idle, m');
      if bs[0] == Renewal {
        assert LoneCommits(bs) == LoneCommits(bs[1..]);
        assert Flat(bs) + [CommitCall] == [CommitCall, StartCall] + rest;
        ReplayAppend(a, [CommitCall, StartCall], rest);
        assert Replay(a, [CommitCall, StartCall]) == Replay(a1, [StartCall]);
        assert Replay(a1, [StartCall]) == Replay(Apply(a1, StartCall), []);
        BlocksReplay(Open, m', bs[1..]);
      } else {
        assert LoneCommits(bs) == 1 + LoneCommits(bs[1..]);
        assert Flat(bs) + [CommitCall] == [CommitCall] + rest;
        ReplayAppend(a, [CommitCall], rest);
        assert Replay(a, [CommitCall]) == Replay(a1, []);
        BlocksReplay(Idle, m', bs[1..]);
      }
    }
  }

  lemma {:induction false} CommitsInBlocks(bs: seq<Block>)
    ensures CountCommits(Flat(bs)) == Renewals(bs) + LoneCommits(bs)
    decreases |bs|
  {
    if |bs| > 0 {
      var head := if bs[0] == Renewal then [CommitCall, StartCall] else [CommitCall];
      CountCommitsAppend(head, Flat(bs[1..]));
      CommitsInBlocks(bs[1..]);
      assert CountCommits(head) == 1;
    }
  }

  /** The blocks of part i, entered with counter c. */
  function PartBlocks(cfg: LoopConfig, env: Env, c: int, f: Feature, i: nat): (bs: seq<Block>)
    requires i < PartsOf(cfg, f)
    ensures Renewals(bs) == Tick(cfg.group, c).fires
    ensures LoneCommits(bs) == (if cfg.group > 0 && PartOutcome(cfg, env, f, i).transformFailed then 1 else 0)
  {
    var tb := if Tick(cfg.group, c).fires == 1 then [Renewal] else [];
    var fb := if cfg.group > 0 && PartOutcome(cfg, env, f, i).transformFailed then [LoneCommit] else [];
    BlocksAppend(tb, fb);
    assert Renewals([Renewal]) == 1 && LoneCommits([Renewal]) == 0;
    assert Renewals([LoneCommit]) == 0 && LoneCommits([LoneCommit]) == 1;
    (if Tick(cfg.group, c).fires == 1 then [Renewal] else [])
    + (if cfg.group > 0 && PartOutcome(cfg, env, f, i).transformFailed then [LoneCommit] else [])
  }

  function BlocksFrom(cfg: LoopConfig, env: Env, c: int, f: Feature, i: nat): seq<Block>
    requires i <= PartsOf(cfg, f)
    decreases PartsOf(cfg, f) - i
  {
    if i == PartsOf(cfg, f) then []
    else PartBlocks(cfg, env, c, f, i) + BlocksFrom(cfg, env, Tick(cfg.group, c).counter, f, i + 1)
  }

  function LayerBlocks(cfg: LoopConfig, env: Env, c: int, fs: seq<Feature>): seq<Block>
    decreases |fs|
  {
    if |fs| == 0 then []
    else
      BlocksFrom(cfg, env, c, fs[0], 0)
      + LayerBlocks(cfg, env, Ticks(cfg.group, c, PartsOf(cfg, fs[0])).counter, fs[1..])
  }

  lemma PartStepTx(cfg: LoopConfig, env: Env, st: LoopState, f: Feature, i: nat)
    requires i < PartsOf(cfg, f)
    ensures var r := PartStep(cfg, env, st, f, i);
            r.Go? ==> TxCalls(r.st.events) == TxCalls(st.events) + Flat(PartBlocks(cfg, env, st.counter, f, i))
  {
    var t := Tick(cfg.group, st.counter);
    var out := PartOutcome(cfg, env, f, i);
    var tb := if t.fires == 1 then [Renewal] else [];
    var fb := if cfg.group > 0 && out.transformFailed then [LoneCommit] else [];
    BlocksAppend(tb, fb);
    assert Flat([Renewal]) == [CommitCall, StartCall];
    assert Flat([LoneCommit]) == [CommitCall];
  }

  lemma {:induction false} PartsFromCounter(cfg: LoopConfig, env: Env, st: LoopState, f: Feature, i: nat)
    requires i <= PartsOf(cfg, f)
    ensures var r := PartsFrom(cfg, env, st, f, i);
            r.Go? ==> r.st.counter == Ticks(cfg.group, st.counter, PartsOf(cfg, f) - i).counter
    decreases PartsOf(cfg, f) - i
  {
    if i < PartsOf(cfg, f) {
      var r := PartStep(cfg, env, st, f, i);
      if r.Go? {
        PartsFromCounter(cfg, env, r.st, f, i + 1);
      }
    }
  }

  lemma {:induction false} PartsFromTx(cfg: LoopConfig, env: Env, st: LoopState, f: Feature, i: nat)
    requires i <= PartsOf(cfg, f)
    ensures var r := PartsFrom(cfg, env, st, f, i);
            r.Go? ==> TxCalls(r.st.events) == TxCalls(st.events) + Flat(BlocksFrom(cfg, env, st.counter, f, i))
    decreases PartsOf(cfg, f) - i
  {
    if i < PartsOf(cfg, f) {
      PartStepTx(cfg, env, st, f, i);
      var r := PartStep(cfg, env, st, f, i);
      if r.Go? {
        assert PartsFrom(cfg, env, st, f, i) == PartsFrom(cfg, env, r.st, f, i + 1);
        PartsFromTx(cfg, env, r.st, f, i + 1);
        BlocksAppend(PartBlocks(cfg, env, st.counter, f, i), BlocksFrom(cfg, env, r.st.counter, f, i + 1));
      }
    }
  }

  /** The progress report leaves the transaction calls and the created
      features alone. */
  lemma ReportViews(cfg: LoopConfig, st: LoopState)
    ensures var r := Report(cfg, st);
            r.counter == st.counter && TxCalls(r.events) == TxCalls(st.events) && Created(r.events) == Created(st.events)
  {
  }

  lemma FeatureStepTx(cfg: LoopConfig, env: Env, st: LoopState, f: Feature)
    ensures var r := FeatureStep(cfg, env, st, f);
            r.Go? ==> && TxCalls(r.st.events) == TxCalls(st.events) + Flat(BlocksFrom(cfg, env, st.counter, f, 0))
                      && r.st.counter == Ticks(cfg.group, st.counter, PartsOf(cfg, f)).counter
  {
    PartsFromTx(cfg, env, st, f, 0);
    PartsFromCounter(cfg, env, st, f, 0);
    var p := PartsFrom(cfg, env, st, f, 0);
    if p.Go? {
      ReportViews(cfg, p.st);
    }
  }

  lemma {:induction false} RunTx(cfg: LoopConfig, env: Env, st: LoopState, fs: seq<Feature>)
    ensures var r := Run(cfg, env, st, fs);
            r.Go? ==> TxCalls(r.st.events) == TxCalls(st.events) + Flat(LayerBlocks(cfg, env, st.counter, fs))
    decreases |fs|
  {
    if |fs| > 0 {
      var f := fs[0];
      FeatureStepTx(cfg, env, st, f);
      var r := FeatureStep(cfg, env, st, f);
      if r.Go? {
        assert Run(cfg, env, st, fs) == Run(cfg, env, r.st, fs[1..]);
        RunTx(cfg, env, r.st, fs[1..]);
        BlocksAppend(BlocksFrom(cfg, env, st.counter, f, 0), LayerBlocks(cfg, env, r.st.counter, fs[1..]));
      }
    }
  }

  lemma {:induction false} BlocksFromRenewals(cfg: LoopConfig, env: Env, c: int, f: Feature, i: nat)
    requires i <= PartsOf(cfg, f)
    ensures Renewals(BlocksFrom(cfg, env, c, f, i)) == Ticks(cfg.group, c, PartsOf(cfg, f) - i).fires
    decreases PartsOf(cfg, f) - i
  {
    if i < PartsOf(cfg, f) {
      var t := Tick(cfg.group, c);
      BlocksFromRenewals(cfg, env, t.counter, f, i + 1);
      BlocksAppend(PartBlocks(cfg, env, c, f, i), BlocksFrom(cfg, env, t.counter, f, i + 1));
    }
  }

  lemma {:induction false} BlocksFromLoneCommits(cfg: LoopConfig, env: Env, c: int, f: Feature, i: nat)
    requires i <= PartsOf(cfg, f)
    ensures LoneCommits(BlocksFrom(cfg, env, c, f, i)) == (if cfg.group > 0 then FailuresFrom(cfg, env, f, i) else 0)
    decreases PartsOf(cfg, f) - i
  {
    if i < PartsOf(cfg, f) {
      var t := Tick(cfg.group, c);
      BlocksFromLoneCommits(cfg, env, t.counter, f, i + 1);
      BlocksAppend(PartBlocks(cfg, env, c, f, i), BlocksFrom(cfg, env, t.counter, f, i + 1));
    }
  }

  /** Over a whole layer, the renewal blocks are the firings of the
      counter across all parts. */
  lemma {:induction false} LayerRenewals(cfg: LoopConfig, env: Env, c: int, fs: seq<Feature>)
    ensures Renewals(LayerBlocks(cfg, env, c, fs)) == Ticks(cfg.group, c, TotalParts(cfg, fs)).fires
    decreases |fs|
  {
    if |fs| > 0 {
      var f := fs[0];
      var c' := Ticks(cfg.group, c, PartsOf(cfg, f)).counter;
      BlocksFromRenewals(cfg, env, c, f, 0);
      LayerRenewals(cfg, env, c', fs[1..]);
      BlocksAppend(BlocksFrom(cfg, env, c, f, 0), LayerBlocks(cfg, env, c', fs[1..]));
      TicksSplit(cfg.group, c, PartsOf(cfg, f), TotalParts(cfg, fs[1..]));
    }
  }

  /** Over a whole layer, under G > 0, the lone commits are the failed
      transformations. */
  lemma {:induction false} LayerLoneCommits(cfg: LoopConfig, env: Env, c: int, fs: seq<Feature>)
    ensures LoneCommits(LayerBlocks(cfg, env, c, fs)) == (if cfg.group > 0 then Failures(cfg, env, fs) else 0)
    decreases |fs|
  {
    if |fs| > 0 {
      var f := fs[0];
      var c' := Ticks(cfg.group, c, PartsOf(cfg, f)).counter;
      BlocksFromLoneCommits(cfg, env, c, f, 0);
      LayerLoneCommits(cfg, env, c', fs[1..]);
      BlocksAppend(BlocksFrom(cfg, env, c, f, 0), LayerBlocks(cfg, env, c', fs[1..]));
    }
  }

  /** Starting from the counter 0 set before the loop, a layer's blocks
      hold one renewal per G parts and one lone commit per failed
      transformation. */
  lemma LayerBlockTotals(cfg: LoopConfig, env: Env, fs: seq<Feature>)
    requires cfg.group > 0
    ensures Renewals(LayerBlocks(cfg, env, 0, fs)) == TotalParts(cfg, fs) / cfg.group
    ensures LoneCommits(LayerBlocks(cfg, env, 0, fs)) == Failures(cfg, env, fs)
  {
    LayerRenewals(cfg, env, 0, fs);
    LayerLoneCommits(cfg, env, 0, fs);
    TicksClosedForm(cfg.group, 0, TotalParts(cfg, fs));
  }

  /** The opening start, the blocks and the final commit, replayed from
      an idle layer: no transaction stays open, each lone commit is one
      misuse, and every block and the end commit once. */
  lemma OpenBlocksClose(bs: seq<Block>)
    ensures var calls := [StartCall] + Flat(bs) + [CommitCall];
            && Replay(Audit(Idle, 0), calls) == Audit(Idle, LoneCommits(bs))
            && CountCommits(calls) == 1 + Renewals(bs) + LoneCommits(bs)
  {
    var calls := [StartCall] + Flat(bs) + [CommitCall];
    assert calls == [StartCall] + (Flat(bs) + [CommitCall]);
    ReplayAppend(Audit(Idle, 0), [StartCall], Flat(bs) + [CommitCall]);
    assert Replay(Audit(Idle, 0), [StartCall]) == Replay(Audit(Open, 0), []);
    BlocksReplay(Open, 0, bs);
    CountCommitsAppend([StartCall], Flat(bs) + [CommitCall]);
    CountCommitsAppend(Flat(bs), [CommitCall]);
    CommitsInBlocks(bs);
  }

  /** With G > 0 a layer that succeeds makes the opening start, the
      blocks of its parts and the final commit, in that order. */
  lemma GroupedCalls(cfg: LoopConfig, env: Env, fs: seq<Feature>)
    requires cfg.group > 0
    ensures var r := TranslateFeatures(cfg, env, fs);
            r.ok ==> TxCalls(r.events) == [StartCall] + Flat(LayerBlocks(cfg, env, 0, fs)) + [CommitCall]
  {
    var s0 := InitialState(cfg);
    assert TxCalls(s0.events) == [StartCall];
    RunTx(cfg, env, s0, fs);
  }

  /** With G > 0, a layer that succeeds commits once per G parts counted
      from the opening transaction, once per failed transformation and
      once at the end.  Replayed on the layer, it leaves no transaction
      open, and each failed transformation (skipped under -skipfailures)
      produces exactly one commit with no transaction open. */
  lemma GroupedTransactions(cfg: LoopConfig, env: Env, fs: seq<Feature>)
    requires cfg.group > 0
    ensures var r := TranslateFeatures(cfg, env, fs);
            r.ok ==>
              && Replay(Audit(Idle, 0), TxCalls(r.events)) == Audit(Idle, Failures(cfg, env, fs))
              && CountCommits(TxCalls(r.events))
                 == 1 + TotalParts(cfg, fs) / cfg.group + Failures(cfg, env, fs)
  {
    var bs := LayerBlocks(cfg, env, 0, fs);
    GroupedCalls(cfg, env, fs);
    OpenBlocksClose(bs);
    LayerBlockTotals(cfg, env, fs);
  }

  /** A layer without a transformation failure under G > 0 uses its
      transactions cleanly: one commit per G parts and one at the end. */
  lemma CleanTransactions(cfg: LoopConfig, env: Env, fs: seq<Feature>)
    requires cfg.group > 0 && Failures(cfg, env, fs) == 0
    ensures var r := TranslateFeatures(cfg, env, fs);
            r.ok ==>
              && Replay(Audit(Idle, 0), TxCalls(r.events)) == Audit(Idle, 0)
              && CountCommits(TxCalls(r.events)) == 1 + TotalParts(cfg, fs) / cfg.group
  {
    GroupedTransactions(cfg, env, fs);
  }

  lemma PartStepUngrouped(cfg: LoopConfig, env: Env, st: LoopState, f: Feature, i: nat)
    requires i < PartsOf(cfg, f) && cfg.group <= 0 && st.counter >= 0
    ensures var r := PartStep(cfg, env, st, f, i);
            TxCalls(r.st.events) == TxCalls(st.events) && r.st.counter >= 0
  {
  }

  lemma {:induction false} PartsFromUngrouped(cfg: LoopConfig, env: Env, st: LoopState, f: Feature, i: nat)
    requires i <= PartsOf(cfg, f) && cfg.group <= 0 && st.counter >= 0
    ensures var r := PartsFrom(cfg, env, st, f, i);
            TxCalls(r.st.events) == TxCalls(st.events) && r.st.counter >= 0
    decreases PartsOf(cfg, f) - i
  {
    if i < PartsOf(cfg, f) {
      PartStepUngrouped(cfg, env, st, f, i);
      var r := PartStep(cfg, env, st, f, i);
      if r.Go? {
        PartsFromUngrouped(cfg, env, r.st, f, i + 1);
      }
    }
  }

  lemma {:induction false} RunUngrouped(cfg: LoopConfig, env: Env, st: LoopState, fs: seq<Feature>)
    requires cfg.group <= 0 && st.counter >= 0
    ensures var r := Run(cfg, env, st, fs);
            TxCalls(r.st.events) == TxCalls(st.events)
    decreases |fs|
  {
    if |fs| > 0 {
      PartsFromUngrouped(cfg, env, st, fs[0], 0);
      var r := FeatureStep(cfg, env, st, fs[0]);
      if r.Go? {
        RunUngrouped(cfg, env, r.st, fs[1..]);
      }
    }
  }

  /** With G <= 0 a layer makes no transaction call at all, whether it
      succeeds or fails. */
  lemma UngroupedMakesNoTransactionCalls(cfg: LoopConfig, env: Env, fs: seq<Feature>)
    requires cfg.group <= 0
    ensures TxCalls(TranslateFeatures(cfg, env, fs).events) == []
  {
    RunUngrouped(cfg, env, InitialState(cfg), fs);
  }

  // ----- -fid: fetching one feature by FID -----

  /** Whether part i of f stops the layer: SetFromWithMap fails, the
      transformation fails without -skipfailures, or CreateFeature fails
      without -skipfailures.  None of this depends on the loop state. */
  predicate PartHalts(cfg: LoopConfig, env: Env, f: Feature, i: nat)
    requires i < PartsOf(cfg, f)
  {
    var out := PartOutcome(cfg, env, f, i);
    || env.writer.setFromFails(f)
    || out.end.Failed?
    || (out.end.Write? && !cfg.part.skipFailures && env.writer.createFails(Translated(cfg, f, out.end.geometry)))
  }

  lemma {:induction false} PartsFromHalts(cfg: LoopConfig, env: Env, st: LoopState, f: Feature, i: nat)
    requires i <= PartsOf(cfg, f)
    ensures PartsFrom(cfg, env, st, f, i).Halt? <==>
              exists j :: i <= j < PartsOf(cfg, f) && PartHalts(cfg, env, f, j)
    decreases PartsOf(cfg, f) - i
  {
    if i < PartsOf(cfg, f) {
      var r := PartStep(cfg, env, st, f, i);
      assert r.Halt? <==> PartHalts(cfg, env, f, i);
      if r.Go? {
        assert PartsFrom(cfg, env, st, f, i) == PartsFrom(cfg, env, r.st, f, i + 1);
        PartsFromHalts(cfg, env, r.st, f, i + 1);
        HaltsLater(cfg, env, f, i);
      } else {
        assert PartsFrom(cfg, env, st, f, i) == r;
      }
    }
  }

  /** Past a part that goes through, the parts that stop the layer are
      the later ones. */
  lemma HaltsLater(cfg: LoopConfig, env: Env, f: Feature, i: nat)
    requires i < PartsOf(cfg, f) && !PartHalts(cfg, env, f, i)
    ensures (exists j :: i <= j < PartsOf(cfg, f) && PartHalts(cfg, env, f, j)) <==>
            (exists j :: i + 1 <= j < PartsOf(cfg, f) && PartHalts(cfg, env, f, j))
  {
    if exists j :: i <= j < PartsOf(cfg, f) && PartHalts(cfg, env, f, j) {
      var j :| i <= j < PartsOf(cfg, f) && PartHalts(cfg, env, f, j);
      assert i + 1 <= j;
    }
  }

  /** A feature stops the layer exactly when one of its parts does,
      whatever the state the loop is in when it reaches the feature. */
  lemma FeatureStepHalts(cfg: LoopConfig, env: Env, st: LoopState, f: Feature)
    ensures FeatureStep(cfg, env, st, f).Halt? <==>
              exists j :: 0 <= j < PartsOf(cfg, f) && PartHalts(cfg, env, f, j)
  {
    PartsFromHalts(cfg, env, st, f, 0);
  }

  /** From a zero counter, the counter is zero again after a feature that
      goes through exactly when G > 0 divides its number of parts. */
  lemma FidRefetch(cfg: LoopConfig, env: Env, st: LoopState, f: Feature)
    requires st.counter == 0
    ensures var r := FeatureStep(cfg, env, st, f);
            r.Go? ==> (r.st.counter == 0 <==> cfg.group > 0 && PartsOf(cfg, f) % cfg.group == 0)
  {
    PartsFromCounter(cfg, env, st, f, 0);
    if cfg.group > 0 {
      TicksClosedForm(cfg.group, 0, PartsOf(cfg, f));
    } else {
      UngroupedNeverFires(cfg.group, 0, PartsOf(cfg, f));
    }
  }

  /** The loop under -fid as TranslateLayer has it: at the top of the
      loop GetFeature(nFIDToFetch) is called whenever
      nFeaturesInTransaction is 0, and the loop ends on a null feature,
      which is what it gets whenever the counter is not 0.  `found` is
      GetFeature's answer for the FID, the same on every call.  At most
      `fuel` iterations are followed; None means the loop has not ended
      by then. */
  function FidLoopAsWritten(cfg: LoopConfig, env: Env, st: LoopState, found: Option<Feature>, fuel: nat): Option<Flow>
    decreases fuel
  {
    if fuel == 0 then None
    else if st.counter != 0 || found.None? then Some(Go(st))
    else match FeatureStep(cfg, env, st, found.value)
      case Halt(s) => Some(Halt(s))
      case Go(s) => FidLoopAsWritten(cfg, env, s, found, fuel - 1)
  }

  /** As written, a feature that goes through and whose number of parts
      the group size divides is fetched and written again and again: the
      loop does not end within any number of iterations.  -skipfailures
      sets G = 1, which divides every count. */
  lemma {:induction false} FidNeverEnds(cfg: LoopConfig, env: Env, st: LoopState, f: Feature, fuel: nat)
    requires st.counter == 0 && cfg.group > 0 && PartsOf(cfg, f) % cfg.group == 0
    requires forall j :: 0 <= j < PartsOf(cfg, f) ==> !PartHalts(cfg, env, f, j)
    ensures FidLoopAsWritten(cfg, env, st, Some(f), fuel) == None
    decreases fuel
  {
    if fuel > 0 {
      FeatureStepHalts(cfg, env, st, f);
      FidRefetch(cfg, env, st, f);
      FidNeverEnds(cfg, env, FeatureStep(cfg, env, st, f).st, f, fuel - 1);
    }
  }

  /** The source features the loop sees under -fid: the one feature with
      that FID, once, or none. */
  function FidFeatures(found: Option<Feature>): (fs: seq<Feature>)
    ensures found.Some? ==> fs == [found.value]
    ensures found.None? ==> fs == []
  {
    if found.Some? then [found.value] else []
  }

  /** The -fid loop as intended: the feature fetched once. */
  function FidLoop(cfg: LoopConfig, env: Env, st: LoopState, found: Option<Feature>): Flow {
    Run(cfg, env, st, FidFeatures(found))
  }

  /** Where the group size does not divide the feature's parts, the loop
      as written stops after the first feature and agrees with fetching
      it once. */
  lemma FidLoopAgrees(cfg: LoopConfig, env: Env, st: LoopState, found: Option<Feature>, fuel: nat)
    requires st.counter == 0 && fuel >= 2
    requires found.Some? ==> !(cfg.group > 0 && PartsOf(cfg, found.value) % cfg.group == 0)
    ensures FidLoopAsWritten(cfg, env, st, found, fuel) == Some(FidLoop(cfg, env, st, found))
  {
    if found.Some? {
      var f := found.value;
      FidRefetch(cfg, env, st, f);
      assert [f][1..] == [];
      match FeatureStep(cfg, env, st, f)
      case Halt(s) =>
        assert Run(cfg, env, st, [f]) == Halt(s);
      case Go(s) =>
        assert s.counter != 0;
        assert FidLoopAsWritten(cfg, env, s, found, fuel - 1) == Some(Go(s));
        assert Run(cfg, env, st, [f]) == Run(cfg, env, s, []);
    }
  }

  /** Fetched once, a feature that goes through is counted once, with its
      dropped parts, and its kept parts are written once each. */
  lemma FidLoopOnce(cfg: LoopConfig, env: Env, st: LoopState, f: Feature)
    ensures var r := FidLoop(cfg, env, st, Some(f));
            r.Go? ==> && r.st.nCount == st.nCount + 1 + DropsFrom(cfg, env, f, 0)
                      && Created(r.st.events) == Created(st.events) + WrittenFrom(cfg, env, f, 0)
  {
    var fs := FidFeatures(Some(f));
    RunCounts(cfg, env, st, fs);
    RunCreated(cfg, env, st, fs);
    assert fs[1..] == [];
    assert Written(cfg, env, fs) == WrittenFrom(cfg, env, f, 0) + [];
  }

  // ----- The loop as TranslateLayer writes it -----

  /** The part loop of one feature, iPart from 0 to nIters - 1; it
      stops at the first part that halts. */
  method TransferParts(cfg: LoopConfig, env: Env, st: LoopState, f: Feature) returns (r: Flow)
    ensures r == PartsFrom(cfg, env, st, f, 0)
  {
    var nIters := PlanExplode(cfg.explode, f.geometry).nIters;
    var cur := st;
    var k := 0;
    while k < nIters
      invariant 0 <= k <= nIters && nIters == PartsOf(cfg, f)
      invariant PartsFrom(cfg, env, cur, f, k) == PartsFrom(cfg, env, st, f, 0)
    {
      var step := PartStep(cfg, env, cur, f, k);
      if step.Halt? {
        return step;
      }
      cur := step.st;
      k := k + 1;
    }
    return Go(cur);
  }

  /** The transfer loop over the source features; it leaves the layer
      as soon as a part halts. */
  method TransferFeatures(cfg: LoopConfig, env: Env, fs: seq<Feature>) returns (ok: bool, nCount: nat, events: seq<Event>)
    ensures LayerRun(ok, nCount, events) == TranslateFeatures(cfg, env, fs)
  {
    var st := InitialState(cfg);
    var i := 0;
    while i < |fs|
      invariant 0 <= i <= |fs|
      invariant Run(cfg, env, st, fs[i..]) == Run(cfg, env, InitialState(cfg), fs)
    {
      assert fs[i..][1..] == fs[i + 1..];
      var r := TransferParts(cfg, env, st, fs[i]);
      if r.Halt? {
        return false, r.st.nCount, r.st.events;
      }
      st := Report(cfg, r.st);
      i := i + 1;
    }
    if cfg.group > 0 {
      st := Emit(st, Tx(CommitCall));
    }
    return true, st.nCount, st.events;
  }
}
