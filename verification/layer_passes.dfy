/** The two passes of the main program over the source layers, and the
    progress scaling that ties each layer's progress to its share of
    the whole run.

    The first pass sets the attribute filter on every layer and, when
    progress is displayed, adds up the layers' fast feature counts;
    one layer without a fast count turns progress off for the rest of
    the run.  The second pass translates the layers in order, each with
    its progress scaled into the sub-range its count occupies, and
    terminates the program at the first failed layer unless
    -skipfailures is given. */
module LayerPasses {
  import opened Wrappers

  // ----- GDALScaledProgress -----

  /** The sub-range [pctMin, pctMax] of the main progress bar. */
  datatype Scale = Scale(pctMin: real, pctMax: real)

  /** GDALScaledProgress.run: the completed fraction of the layer placed
      into the layer's sub-range. */
  function Scaled(s: Scale, complete: real): (r: real)
    ensures complete == 0.0 ==> r == s.pctMin
    ensures complete == 1.0 ==> r == s.pctMax
  {
    s.pctMin + complete * (s.pctMax - s.pctMin)
  }

  lemma MulMonotone(a: real, b: real, w: real)
    requires a <= b && w >= 0.0
    ensures a * w <= b * w
  {
    var d := b - a;
    assert d * w >= 0.0;
    assert b * w == a * w + d * w;
  }

  lemma MulStrict(a: real, b: real, w: real)
    requires a < b && w > 0.0
    ensures a * w < b * w
  {
    var d := b - a;
    assert b * w - a * w == d * w;
    assert d * w > 0.0;
  }

  /** Scaling keeps the order of fractions and keeps fractions in [0, 1]
      inside the sub-range. */
  lemma ScaledMonotone(s: Scale, a: real, b: real)
    requires s.pctMin <= s.pctMax && a <= b
    ensures Scaled(s, a) <= Scaled(s, b)
  {
    ScaledDifference(s, a, b);
    MulNonnegative(b - a, s.pctMax - s.pctMin);
  }

  lemma MulNonnegative(x: real, y: real)
    requires x >= 0.0 && y >= 0.0
    ensures x * y >= 0.0
  {
  }

  /** How far apart two fractions land. */
  lemma ScaledDifference(s: Scale, a: real, b: real)
    ensures Scaled(s, b) - Scaled(s, a) == (b - a) * (s.pctMax - s.pctMin)
  {
  }

  lemma ScaledWithin(s: Scale, complete: real)
    requires s.pctMin <= s.pctMax && 0.0 <= complete <= 1.0
    ensures s.pctMin <= Scaled(s, complete) <= s.pctMax
  {
    ScaledMonotone(s, 0.0, complete);
    ScaledMonotone(s, complete, 1.0);
  }

  /** A fraction above 1, which a layer reports once a clip has dropped
      a part, lands beyond the layer's sub-range when the sub-range is
      not empty. */
  lemma ScaledOvershoots(s: Scale, complete: real)
    requires s.pctMin < s.pctMax && complete > 1.0
    ensures Scaled(s, complete) > s.pctMax
  {
    MulStrict(1.0, complete, s.pctMax - s.pctMin);
  }

  // ----- First pass -----

  /** What a source layer answers in the first pass: whether
      SetAttributeFilter fails, TestCapability(OLCFastFeatureCount), and
      GetFeatureCount. */
  datatype LayerInfo = LayerInfo(filterFails: bool, fastCount: bool, count: nat)

  /** The first pass either terminates the program (a failed attribute
      filter without -skipfailures), or leaves whether progress is still
      displayed, panLayerCountFeatures and nCountLayersFeatures. */
  datatype FirstPass = Terminated(at: nat) | Counted(display: bool, counts: seq<nat>, total: nat)

  function Sum(xs: seq<nat>): nat
    decreases |xs|
  {
    if |xs| == 0 then 0 else Sum(xs[..|xs| - 1]) + xs[|xs| - 1]
  }

  /** Every layer up to and including layer i has a fast feature count. */
  predicate FastUpTo(layers: seq<LayerInfo>, i: int) {
    forall j :: 0 <= j <= i && j < |layers| ==> layers[j].fastCount
  }

  predicate FilterFailsAt(layers: seq<LayerInfo>, where: bool, skip: bool, i: nat) {
    i < |layers| && where && !skip && layers[i].filterFails
  }

  method CountPass(layers: seq<LayerInfo>, where: bool, skip: bool, display: bool) returns (r: FirstPass)
    ensures r.Terminated? <==> exists i :: FilterFailsAt(layers, where, skip, i)
    ensures r.Terminated? ==> FilterFailsAt(layers, where, skip, r.at)
                              && forall i :: 0 <= i < r.at ==> !FilterFailsAt(layers, where, skip, i)
    ensures r.Counted? ==> r.display == (display && FastUpTo(layers, |layers| - 1))
    ensures r.Counted? ==> |r.counts| == |layers| && r.total == Sum(r.counts)
    ensures r.Counted? ==> forall i :: 0 <= i < |layers| ==>
              r.counts[i] == (if display && FastUpTo(layers, i) then layers[i].count else 0)
  {
    var shown := display;
    var counts: seq<nat> := [];
    var total: nat := 0;
    var i := 0;
    while i < |layers|
      invariant 0 <= i <= |layers| && |counts| == i
      invariant forall j :: 0 <= j < i ==> !FilterFailsAt(layers, where, skip, j)
      invariant shown == (display && FastUpTo(layers, i - 1))
      invariant total == Sum(counts)
      invariant forall j :: 0 <= j < i ==>
                  counts[j] == (if display && FastUpTo(layers, j) then layers[j].count else 0)
    {
      if where && layers[i].filterFails && !skip {
        assert FilterFailsAt(layers, where, skip, i);
        return Terminated(i);
      }
      var c: nat := 0;
      if shown {
        if !layers[i].fastCount {
          shown := false;
        } else {
          c := layers[i].count;
        }
      }
      assert (counts + [c])[..i] == counts;
      counts := counts + [c];
      total := total + c;
      i := i + 1;
    }
    return Counted(shown, counts, total);
  }

  // ----- Second pass -----

  /** The running sum nAccCountFeatures before layer i. */
  function AccBefore(counts: seq<nat>, i: nat): nat
    requires i <= |counts|
  {
    Sum(counts[..i])
  }

  /** The progress callback handed to TranslateLayer for layer i: none
      when progress is off; otherwise the sub-range its count occupies,
      whose bounds are 0/0, not a number, when every layer counted zero
      features. */
  datatype LayerProgress = NoProgress | Ranged(scale: Scale) | NotANumber

  function ProgressFor(c: FirstPass, i: nat): LayerProgress
    requires c.Counted? && i < |c.counts|
  {
    if !c.display then NoProgress
    else if c.total == 0 then NotANumber
    else Ranged(Scale(AccBefore(c.counts, i) as real / c.total as real,
                      (AccBefore(c.counts, i) + c.counts[i]) as real / c.total as real))
  }

  lemma SumPrefix(xs: seq<nat>, i: nat)
    requires i < |xs|
    ensures Sum(xs[..i + 1]) == Sum(xs[..i]) + xs[i]
  {
    assert xs[..i + 1][..i] == xs[..i];
  }

  lemma SumWhole(xs: seq<nat>)
    ensures Sum(xs[..|xs|]) == Sum(xs)
  {
    assert xs[..|xs|] == xs;
  }

  lemma DivMonotone(a: nat, b: nat, t: nat)
    requires a <= b && t > 0
    ensures a as real / t as real <= b as real / t as real
  {
    var inv := 1.0 / t as real;
    assert a as real / t as real == a as real * inv;
    assert b as real / t as real == b as real * inv;
    MulMonotone(a as real, b as real, inv);
  }

  /** With progress shown, the layers' sub-ranges tile [0, 1]: the first
      starts at 0, each ends where the next begins, none runs backwards,
      and the last ends at 1. */
  lemma RangesTile(c: FirstPass)
    requires c.Counted? && c.display && c.total > 0 && c.total == Sum(c.counts) && |c.counts| > 0
    ensures ProgressFor(c, 0).scale.pctMin == 0.0
    ensures forall i :: 0 <= i < |c.counts| ==> ProgressFor(c, i).scale.pctMin <= ProgressFor(c, i).scale.pctMax
    ensures forall i :: 0 <= i < |c.counts| - 1 ==> ProgressFor(c, i).scale.pctMax == ProgressFor(c, i + 1).scale.pctMin
    ensures ProgressFor(c, |c.counts| - 1).scale.pctMax == 1.0
  {
    assert c.counts[..0] == [];
    forall i | 0 <= i < |c.counts|
      ensures ProgressFor(c, i).scale.pctMin <= ProgressFor(c, i).scale.pctMax
    {
      DivMonotone(AccBefore(c.counts, i), AccBefore(c.counts, i) + c.counts[i], c.total);
    }
    forall i | 0 <= i < |c.counts| - 1
      ensures ProgressFor(c, i).scale.pctMax == ProgressFor(c, i + 1).scale.pctMin
    {
      SumPrefix(c.counts, i);
    }
    LastRangeEnds(c);
  }

  lemma LastRangeEnds(c: FirstPass)
    requires c.Counted? && c.display && c.total > 0 && c.total == Sum(c.counts) && |c.counts| > 0
    ensures ProgressFor(c, |c.counts| - 1).scale.pctMax == 1.0
  {
    var n := |c.counts| - 1;
    SumPrefix(c.counts, n);
    SumWhole(c.counts);
    DivEqual(AccBefore(c.counts, n) + c.counts[n], c.total);
  }

  lemma DivEqual(x: nat, n: nat)
    requires n > 0 && x == n
    ensures x as real / n as real == 1.0
  {
  }

  /** One call of TranslateLayer in the second pass. */
  datatype LayerCall = LayerCall(layer: nat, progress: LayerProgress, count: nat)

  /** The second pass.  `succeeded[i]` is what TranslateLayer returns for
      layer i; the layers are translated in order and the program is
      terminated after the first failed layer unless -skipfailures is
      given. */
  method SecondPass(c: FirstPass, succeeded: seq<bool>, skip: bool) returns (calls: seq<LayerCall>, terminated: bool)
    requires c.Counted? && |succeeded| == |c.counts|
    ensures terminated <==> !skip && exists i :: 0 <= i < |succeeded| && !succeeded[i]
    ensures |calls| <= |succeeded|
    ensures terminated ==> |calls| > 0 && !succeeded[|calls| - 1]
                           && forall i :: 0 <= i < |calls| - 1 ==> succeeded[i]
    ensures !terminated ==> |calls| == |succeeded|
    ensures forall i :: 0 <= i < |calls| ==> calls[i] == LayerCall(i, ProgressFor(c, i), c.counts[i])
  {
    calls := [];
    var i := 0;
    while i < |succeeded|
      invariant 0 <= i <= |succeeded| && |calls| == i
      invariant !skip ==> forall j :: 0 <= j < i ==> succeeded[j]
      invariant forall j :: 0 <= j < i ==> calls[j] == LayerCall(j, ProgressFor(c, j), c.counts[j])
    {
      calls := calls + [LayerCall(i, ProgressFor(c, i), c.counts[i])];
      if !succeeded[i] && !skip {
        return calls, true;
      }
      i := i + 1;
    }
    return calls, false;
  }
}
