/**
 * The metric translator (translator.go): construction from a validated rule list, the
 * dimension-name lookup, and TranslateDataPoints, which applies the rules strictly in list
 * order, each to the batch the previous one produced.
 */
module Translator {
  import opened Wrappers
  import opened Numeric
  import opened SfxModel
  import opened RuleValidation
  import opened PointActions
  import opened Aggregation

  datatype MetricTranslator = MetricTranslator(rules: seq<Rule>, dimensionsMap: Option<map<string, string>>)

  /** What every translator built by NewMetricTranslator satisfies. */
  predicate Valid(mt: MetricTranslator) {
    Validate(mt.rules).None? && mt.dimensionsMap == CreateDimensionsMap(mt.rules)
  }

  /**
   * NewMetricTranslator: fails with the validation error exactly when validation fails;
   * otherwise keeps the rules and the mapping of the rename_dimension_keys rule.
   */
  method NewMetricTranslator(rules: seq<Rule>) returns (r: Result<MetricTranslator, ConfigError>)
    ensures r.Failure? <==> Validate(rules).Some?
    ensures r.Failure? ==> Some(r.error) == Validate(rules)
    ensures r.Success? ==> r.value.rules == rules && Valid(r.value)
  {
    var err := ValidateTranslationRules(rules);
    if err.Some? {
      return Failure(err.value);
    }
    return Success(MetricTranslator(rules, CreateDimensionsMap(rules)));
  }

  // ---------------------------------------------------------------------------
  // TranslateDimension

  /** The new name of a dimension key, or the key itself when the dimensions map does not name it. */
  function TranslateDimension(mt: MetricTranslator, orig: string): (r: string)
    ensures orig !in Entries(mt.dimensionsMap) ==> r == orig
    ensures orig in Entries(mt.dimensionsMap) ==> r == Entries(mt.dimensionsMap)[orig]
  {
    var m := Entries(mt.dimensionsMap);
    if orig in m then m[orig] else orig
  }

  /**
   * With a rename_dimension_keys rule, TranslateDimension renames a key exactly as that rule
   * renames the key of a data point's dimension.
   */
  lemma TranslateDimensionOfRenameRule(mt: MetricTranslator, i: nat, d: Dimension)
    requires Valid(mt)
    requires i < |mt.rules| && mt.rules[i].action == ActionRenameDimensionKeys
    ensures TranslateDimension(mt, d.key) == RenameKeys(Entries(mt.rules[i].mapping), [d])[0].key
    ensures mt.rules[i].mapping.Some?
    ensures d.key in Entries(mt.rules[i].mapping) ==> TranslateDimension(mt, d.key) == Entries(mt.rules[i].mapping)[d.key]
  {
    DimensionsMapOfRenameRule(mt.rules, i);
  }

  /** Without a rename_dimension_keys rule TranslateDimension is the identity. */
  lemma TranslateDimensionWithoutRenameRule(mt: MetricTranslator, orig: string)
    requires Valid(mt)
    requires forall j :: 0 <= j < |mt.rules| ==> mt.rules[j].action != ActionRenameDimensionKeys
    ensures TranslateDimension(mt, orig) == orig
  {
    DimensionsMapWithoutRenameRule(mt.rules);
  }

  // ---------------------------------------------------------------------------
  // Per-point actions

  /** The actions that rewrite each point of the batch on its own. */
  predicate IsPointwise(action: string) {
    action == ActionRenameDimensionKeys || action == ActionRenameMetrics || action == ActionMultiplyInt
    || action == ActionDivideInt || action == ActionMultiplyFloat || action == ActionSplitMetric
    || action == ActionConvertValues
  }

  /** A divide_int rule has no zero divisor (validation guarantees it). */
  predicate DivisorsNonZero(tr: Rule) {
    tr.action == ActionDivideInt ==> NonZeroFactors(Entries(tr.scaleFactorsInt))
  }

  /** What a per-point action does to one point; any other action leaves it alone. */
  function PointStep(fa: FloatArith, tr: Rule, dp: DataPoint): (r: DataPoint)
    requires DivisorsNonZero(tr)
    ensures r.source == dp.source && r.timestamp == dp.timestamp && r.metricType == dp.metricType
  {
    if tr.action == ActionRenameDimensionKeys then RenameDimensionKeys(Entries(tr.mapping), dp)
    else if tr.action == ActionRenameMetrics then RenameMetric(Entries(tr.mapping), dp)
    else if tr.action == ActionMultiplyInt then ScaleInt(Multiply, Entries(tr.scaleFactorsInt), dp)
    else if tr.action == ActionDivideInt then ScaleInt(Divide, Entries(tr.scaleFactorsInt), dp)
    else if tr.action == ActionMultiplyFloat then MultiplyFloat(fa, Entries(tr.scaleFactorsFloat), dp)
    else if tr.action == ActionSplitMetric then
      if tr.metricName == dp.metric then SplitMetricSpec(dp, tr.dimensionKey, Entries(tr.mapping)) else dp
    else if tr.action == ActionConvertValues then
      var types := Entries(tr.typesMapping);
      if dp.metric in types then ConvertMetricValue(fa, dp, types[dp.metric]) else dp
    else dp
  }

  function Pointwise(fa: FloatArith, tr: Rule, batch: seq<DataPoint>): seq<DataPoint>
    requires DivisorsNonZero(tr)
  {
    seq(|batch|, i requires 0 <= i < |batch| => PointStep(fa, tr, batch[i]))
  }

  /**
   * A per-point action leaves a point alone when the rule's table does not name it: its
   * metric for the metric-keyed actions, its dimension keys for rename_dimension_keys, its
   * metric being another than the rule's for split_metric.
   */
  lemma PointStepUntouched(fa: FloatArith, tr: Rule, dp: DataPoint)
    requires DivisorsNonZero(tr)
    requires tr.action == ActionRenameDimensionKeys ==>
               forall j :: 0 <= j < |dp.dimensions| ==> dp.dimensions[j].key !in Entries(tr.mapping)
    requires tr.action == ActionRenameMetrics ==> dp.metric !in Entries(tr.mapping)
    requires tr.action == ActionMultiplyInt || tr.action == ActionDivideInt ==> dp.metric !in Entries(tr.scaleFactorsInt)
    requires tr.action == ActionMultiplyFloat ==> dp.metric !in Entries(tr.scaleFactorsFloat)
    requires tr.action == ActionSplitMetric ==> dp.metric != tr.metricName
    requires tr.action == ActionConvertValues ==> dp.metric !in Entries(tr.typesMapping)
    ensures PointStep(fa, tr, dp) == dp
  {
    if tr.action == ActionRenameDimensionKeys {
      assert RenameKeys(Entries(tr.mapping), dp.dimensions) == dp.dimensions;
    }
  }

  /**
   * multiply_int and divide_int change nothing but an integer value that is present:
   * multiplied with int64 wrap-around, or divided with Go's truncation toward zero.
   */
  lemma ScalingChangesOnlyInt(fa: FloatArith, tr: Rule, dp: DataPoint)
    requires DivisorsNonZero(tr)
    requires tr.action == ActionMultiplyInt || tr.action == ActionDivideInt
    ensures var r := PointStep(fa, tr, dp); var f := Entries(tr.scaleFactorsInt);
      && r.(value := dp.value) == dp
      && r.value.(intValue := dp.value.intValue) == dp.value
      && (r.value.intValue.Some? <==> dp.value.intValue.Some?)
      && (dp.metric in f && dp.value.intValue.Some? ==>
            r.value.intValue.value == if tr.action == ActionMultiplyInt
                                      then Wrap64(dp.value.intValue.value * f[dp.metric])
                                      else Wrap64(TruncDiv(dp.value.intValue.value, f[dp.metric])))
  {
  }

  /** rename_dimension_keys as the source runs it: every dimension of every point, in place. */
  method RenameDimensionKeysStep(m: map<string, string>, batch: seq<DataPoint>) returns (out: seq<DataPoint>)
    ensures |out| == |batch|
    ensures forall i :: 0 <= i < |batch| ==> out[i] == RenameDimensionKeys(m, batch[i])
  {
    out := batch;
    for i := 0 to |batch|
      invariant |out| == |batch|
      invariant forall j :: 0 <= j < i ==> out[j] == RenameDimensionKeys(m, batch[j])
      invariant forall j :: i <= j < |batch| ==> out[j] == batch[j]
    {
      var dims := out[i].dimensions;
      for k := 0 to |dims|
        invariant |dims| == |batch[i].dimensions|
        invariant forall j :: 0 <= j < k ==> dims[j] == RenameKeys(m, batch[i].dimensions)[j]
        invariant forall j :: k <= j < |dims| ==> dims[j] == batch[i].dimensions[j]
      {
        var d := dims[k];
        if d.key in m {
          dims := dims[k := d.(key := m[d.key])];
        }
      }
      out := out[i := out[i].(dimensions := dims)];
    }
  }

  /** rename_metrics as the source runs it. */
  method RenameMetricsStep(m: map<string, string>, batch: seq<DataPoint>) returns (out: seq<DataPoint>)
    ensures |out| == |batch|
    ensures forall i :: 0 <= i < |batch| ==> out[i] == RenameMetric(m, batch[i])
  {
    out := batch;
    for i := 0 to |batch|
      invariant |out| == |batch|
      invariant forall j :: 0 <= j < i ==> out[j] == RenameMetric(m, batch[j])
      invariant forall j :: i <= j < |batch| ==> out[j] == batch[j]
    {
      var dp := out[i];
      if dp.metric in m {
        out := out[i := dp.(metric := m[dp.metric])];
      }
    }
  }

  /** multiply_int and divide_int as the source runs them: only a present integer value changes. */
  method ScaleIntStep(op: IntScaling, factors: map<string, Int64>, batch: seq<DataPoint>) returns (out: seq<DataPoint>)
    requires op == Divide ==> NonZeroFactors(factors)
    ensures |out| == |batch|
    ensures forall i :: 0 <= i < |batch| ==> out[i] == ScaleInt(op, factors, batch[i])
  {
    out := batch;
    for i := 0 to |batch|
      invariant |out| == |batch|
      invariant forall j :: 0 <= j < i ==> out[j] == ScaleInt(op, factors, batch[j])
      invariant forall j :: i <= j < |batch| ==> out[j] == batch[j]
    {
      var dp := out[i];
      if dp.metric in factors {
        var v := dp.value.intValue;
        if v.Some? {
          var scaled: Int64;
          if op == Multiply {
            scaled := Wrap64(v.value as int * factors[dp.metric] as int);
          } else {
            scaled := Wrap64(TruncDiv(v.value, factors[dp.metric]));
          }
          out := out[i := dp.(value := dp.value.(intValue := Some(scaled)))];
        }
      }
    }
  }

  /** multiply_float as the source runs it: only a present double value changes. */
  method MultiplyFloatStep(fa: FloatArith, factors: map<string, Float64>, batch: seq<DataPoint>)
    returns (out: seq<DataPoint>)
    ensures |out| == |batch|
    ensures forall i :: 0 <= i < |batch| ==> out[i] == MultiplyFloat(fa, factors, batch[i])
  {
    out := batch;
    for i := 0 to |batch|
      invariant |out| == |batch|
      invariant forall j :: 0 <= j < i ==> out[j] == MultiplyFloat(fa, factors, batch[j])
      invariant forall j :: i <= j < |batch| ==> out[j] == batch[j]
    {
      var dp := out[i];
      if dp.metric in factors {
        var v := dp.value.doubleValue;
        if v.Some? {
          out := out[i := dp.(value := dp.value.(doubleValue := Some(fa.mul(v.value, factors[dp.metric]))))];
        }
      }
    }
  }

  /** split_metric as the source runs it: splitMetric on every point of the rule's metric. */
  method SplitMetricStep(tr: Rule, batch: seq<DataPoint>) returns (out: seq<DataPoint>)
    ensures |out| == |batch|
    ensures forall i :: 0 <= i < |batch| ==>
              out[i] == if tr.metricName == batch[i].metric
                        then SplitMetricSpec(batch[i], tr.dimensionKey, Entries(tr.mapping)) else batch[i]
  {
    out := batch;
    for i := 0 to |batch|
      invariant |out| == |batch|
      invariant forall j :: 0 <= j < i ==>
                  out[j] == if tr.metricName == batch[j].metric
                            then SplitMetricSpec(batch[j], tr.dimensionKey, Entries(tr.mapping)) else batch[j]
      invariant forall j :: i <= j < |batch| ==> out[j] == batch[j]
    {
      var dp := out[i];
      if tr.metricName == dp.metric {
        var split := SplitMetric(dp, tr.dimensionKey, Entries(tr.mapping));
        out := out[i := split];
      }
    }
  }

  /** convert_values as the source runs it: convertMetricValue on every point whose metric has a type. */
  method ConvertValuesStep(fa: FloatArith, types: map<string, string>, batch: seq<DataPoint>) returns (out: seq<DataPoint>)
    ensures |out| == |batch|
    ensures forall i :: 0 <= i < |batch| ==>
              out[i] == if batch[i].metric in types then ConvertMetricValue(fa, batch[i], types[batch[i].metric]) else batch[i]
  {
    out := batch;
    for i := 0 to |batch|
      invariant |out| == |batch|
      invariant forall j :: 0 <= j < i ==>
                  out[j] == if batch[j].metric in types then ConvertMetricValue(fa, batch[j], types[batch[j].metric]) else batch[j]
      invariant forall j :: i <= j < |batch| ==> out[j] == batch[j]
    {
      var dp := out[i];
      if dp.metric in types {
        out := out[i := ConvertMetricValue(fa, dp, types[dp.metric])];
      }
    }
  }

  // ---------------------------------------------------------------------------
  // copy_metrics

  /** The copies that copy_metrics appends, one per qualifying point, in the points' order. */
  function CopiesOf(tr: Rule, batch: seq<DataPoint>): seq<DataPoint> {
    if batch == [] then []
    else
      var dp := batch[|batch| - 1];
      var m := Entries(tr.mapping);
      var c := if dp.metric in m then CopyMetric(tr, dp, m[dp.metric]) else None;
      CopiesOf(tr, batch[..|batch| - 1]) + (if c.Some? then [c.value] else [])
  }

  /** A point that copy_metrics copies: its metric is a mapping key and it passes the filter. */
  predicate Copied(tr: Rule, dp: DataPoint) {
    dp.metric in Entries(tr.mapping) && PassesCopyFilter(tr, dp)
  }

  /**
   * The indices of the points that copy_metrics copies: strictly increasing, each one
   * qualifying, and every qualifying index present, so the sequence is fixed by the batch.
   */
  function CopiedIndices(tr: Rule, batch: seq<DataPoint>): (r: seq<nat>)
    ensures forall k :: 0 <= k < |r| ==> r[k] < |batch| && Copied(tr, batch[r[k]])
    ensures forall k, l :: 0 <= k < l < |r| ==> r[k] < r[l]
    ensures forall i :: 0 <= i < |batch| && Copied(tr, batch[i]) ==> i in r
  {
    if batch == [] then []
    else
      var p := batch[..|batch| - 1];
      var r := CopiedIndices(tr, p);
      assert forall k :: 0 <= k < |r| ==> batch[r[k]] == p[r[k]];
      r + (if Copied(tr, batch[|batch| - 1]) then [|batch| - 1] else [])
  }

  /** The copy of a qualifying point: the point under its mapped name. */
  function CopyOf(tr: Rule, dp: DataPoint): DataPoint
    requires dp.metric in Entries(tr.mapping)
  {
    dp.(metric := Entries(tr.mapping)[dp.metric])
  }

  /**
   * The copies are exactly the qualifying points, one copy each, in the order of the points
   * they copy: the k-th copy is the k-th qualifying point under its new name and otherwise
   * identical.
   */
  lemma {:induction false} CopiesOfExactly(tr: Rule, batch: seq<DataPoint>)
    ensures |CopiesOf(tr, batch)| == |CopiedIndices(tr, batch)| <= |batch|
    ensures forall k :: 0 <= k < |CopiesOf(tr, batch)| ==>
              CopiesOf(tr, batch)[k] == CopyOf(tr, batch[CopiedIndices(tr, batch)[k]])
  {
    if batch != [] {
      var n := |batch| - 1;
      var p := batch[..n];
      CopiesOfExactly(tr, p);
      var ci, cs := CopiedIndices(tr, p), CopiesOf(tr, p);
      forall k | 0 <= k < |cs| ensures cs[k] == CopyOf(tr, batch[ci[k]]) {
        assert batch[ci[k]] == p[ci[k]];
      }
      if Copied(tr, batch[n]) {
        assert CopiesOf(tr, batch) == cs + [CopyOf(tr, batch[n])];
        assert CopiedIndices(tr, batch) == ci + [n];
      } else {
        assert CopiesOf(tr, batch) == cs;
        assert CopiedIndices(tr, batch) == ci;
      }
    }
  }

  /** Every qualifying point has its copy among the copies. */
  lemma CopiesOfComplete(tr: Rule, batch: seq<DataPoint>, i: nat)
    requires i < |batch| && Copied(tr, batch[i])
    ensures CopyOf(tr, batch[i]) in CopiesOf(tr, batch)
  {
    CopiesOfExactly(tr, batch);
    var ci := CopiedIndices(tr, batch);
    var k :| 0 <= k < |ci| && ci[k] == i;
    assert CopiesOf(tr, batch)[k] == CopyOf(tr, batch[i]);
  }

  /** Without any qualifying point, copy_metrics appends nothing. */
  lemma {:induction false} NoCopies(tr: Rule, batch: seq<DataPoint>)
    requires forall i :: 0 <= i < |batch| ==> !Copied(tr, batch[i])
    ensures CopiesOf(tr, batch) == []
  {
    if batch != [] {
      NoCopies(tr, batch[..|batch| - 1]);
    }
  }

  /**
   * copy_metrics as the source runs it: the loop visits the points that were in the batch
   * when it started and appends the copies, so the originals stay unchanged and copies are
   * never copied again.
   */
  method CopyMetricsStep(tr: Rule, batch: seq<DataPoint>) returns (out: seq<DataPoint>)
    ensures out == batch + CopiesOf(tr, batch)
  {
    out := batch;
    var m := Entries(tr.mapping);
    for i := 0 to |batch|
      invariant out == batch + CopiesOf(tr, batch[..i])
    {
      var dp := out[i];
      assert dp == batch[i];
      if dp.metric in m {
        var newDataPoint := CopyMetric(tr, dp, m[dp.metric]);
        if newDataPoint.Some? {
          out := out + [newDataPoint.value];
        }
      }
      assert batch[..i + 1][..i] == batch[..i];
    }
    assert batch[..|batch|] == batch;
  }

  // ---------------------------------------------------------------------------
  // calculate_new_metric

  /** The batch after calculate_new_metric: the new point appended, if there is one. */
  function CalculateSpec(fa: FloatArith, tr: Rule, batch: seq<DataPoint>): seq<DataPoint> {
    var ops := PickOperands(batch, tr.operand1Metric, tr.operand2Metric);
    var p := CalculateNewMetric(fa, ops.0, ops.1, tr);
    if p.Some? then batch + [p.value] else batch
  }

  /** When both operand names are equal the rule never finds operand2 and changes nothing. */
  lemma CalculateSkipsSameOperands(fa: FloatArith, tr: Rule, batch: seq<DataPoint>)
    requires tr.operand1Metric == tr.operand2Metric
    ensures CalculateSpec(fa, tr, batch) == batch
  {
    PickOperandsLast(batch, tr.operand1Metric, tr.operand2Metric);
  }

  /** When the last operand2 point holds the integer 0 the rule changes nothing. */
  lemma CalculateSkipsZeroDivisor(fa: FloatArith, tr: Rule, batch: seq<DataPoint>, j: nat)
    requires j < |batch| && batch[j].metric == tr.operand2Metric != tr.operand1Metric
    requires forall k :: j < k < |batch| ==> batch[k].metric != tr.operand2Metric
    requires batch[j].value.intValue == Some(0)
    ensures CalculateSpec(fa, tr, batch) == batch
  {
    var op1, op2 := tr.operand1Metric, tr.operand2Metric;
    PickOperandsLast(batch, op1, op2);
    var b := PickOperands(batch, op1, op2).1;
    assert b.Some?;
    var i :| 0 <= i < |batch| && batch[i] == b.value && batch[i].metric == op2
      && forall k :: i < k < |batch| ==> batch[k].metric != op2 || batch[k].metric == op1;
    assert i == j;
  }

  /**
   * The operand scan as the source runs it: operand1 is replaced by every later point named
   * operand1; a point named operand2 is taken only when it is not also named operand1.
   */
  method CalculateNewMetricStep(fa: FloatArith, tr: Rule, batch: seq<DataPoint>) returns (out: seq<DataPoint>)
    ensures out == CalculateSpec(fa, tr, batch)
  {
    var operand1: Option<DataPoint> := None;
    var operand2: Option<DataPoint> := None;
    for i := 0 to |batch|
      invariant (operand1, operand2) == PickOperands(batch[..i], tr.operand1Metric, tr.operand2Metric)
    {
      var dp := batch[i];
      if dp.metric == tr.operand1Metric {
        operand1 := Some(dp);
      } else if dp.metric == tr.operand2Metric {
        operand2 := Some(dp);
      }
      assert batch[..i + 1][..i] == batch[..i];
    }
    assert batch[..|batch|] == batch;
    var newPt := CalculateNewMetric(fa, operand1, operand2, tr);
    if newPt.None? {
      return batch;
    }
    return batch + [newPt.value];
  }

  // ---------------------------------------------------------------------------
  // aggregate_metric

  /** The points of the rule's metric, in their order. */
  function MatchingPoints(batch: seq<DataPoint>, name: string): seq<DataPoint> {
    if batch == [] then []
    else
      var dp := batch[|batch| - 1];
      MatchingPoints(batch[..|batch| - 1], name) + (if dp.metric == name then [dp] else [])
  }

  /** The points of every other metric, in their order. */
  function OtherPoints(batch: seq<DataPoint>, name: string): seq<DataPoint> {
    if batch == [] then []
    else
      var dp := batch[|batch| - 1];
      OtherPoints(batch[..|batch| - 1], name) + (if dp.metric != name then [dp] else [])
  }

  /** The two parts split the batch: together they hold every point once, each on its side. */
  lemma PartitionPoints(batch: seq<DataPoint>, name: string)
    ensures multiset(MatchingPoints(batch, name)) + multiset(OtherPoints(batch, name)) == multiset(batch)
    ensures forall p :: p in MatchingPoints(batch, name) ==> p in batch && p.metric == name
    ensures forall p :: p in OtherPoints(batch, name) ==> p in batch && p.metric != name
  {
    PartitionMultiset(batch, name);
    MatchingPointsSound(batch, name);
    OtherPointsSound(batch, name);
  }

  lemma {:induction false} PartitionMultiset(batch: seq<DataPoint>, name: string)
    ensures multiset(MatchingPoints(batch, name)) + multiset(OtherPoints(batch, name)) == multiset(batch)
  {
    if batch != [] {
      var p := batch[..|batch| - 1];
      PartitionMultiset(p, name);
      assert batch == p + [batch[|batch| - 1]];
    }
  }

  lemma {:induction false} MatchingPointsSound(batch: seq<DataPoint>, name: string)
    ensures forall p :: p in MatchingPoints(batch, name) ==> p in batch && p.metric == name
  {
    if batch != [] {
      var p := batch[..|batch| - 1];
      MatchingPointsSound(p, name);
      assert batch == p + [batch[|batch| - 1]];
    }
  }

  lemma {:induction false} OtherPointsSound(batch: seq<DataPoint>, name: string)
    ensures forall p :: p in OtherPoints(batch, name) ==> p in batch && p.metric != name
  {
    if batch != [] {
      var p := batch[..|batch| - 1];
      OtherPointsSound(p, name);
      assert batch == p + [batch[|batch| - 1]];
    }
  }

  /** The aggregated points: the non-matching points in order, then the groups in some order. */
  ghost predicate AggregateOutcome(fa: FloatArith, tr: Rule, batch: seq<DataPoint>, out: seq<DataPoint>) {
    var other := OtherPoints(batch, tr.metricName);
    && |other| <= |out| && out[..|other|] == other
    && multiset(out[|other|..])
       == multiset(AggregateSpec(fa, MatchingPoints(batch, tr.metricName), tr.dimensions, tr.aggregationMethod))
  }

  /**
   * aggregate_metric as the source runs it: one pass splits the batch into the points to
   * aggregate and the others, and the aggregated points are appended to the others.
   */
  method AggregateMetricStep(fa: FloatArith, tr: Rule, batch: seq<DataPoint>) returns (out: seq<DataPoint>)
    ensures AggregateOutcome(fa, tr, batch, out)
  {
    var dpsToAggregate: seq<DataPoint> := [];
    var otherDps: seq<DataPoint> := [];
    for i := 0 to |batch|
      invariant dpsToAggregate == MatchingPoints(batch[..i], tr.metricName)
      invariant otherDps == OtherPoints(batch[..i], tr.metricName)
    {
      var dp := batch[i];
      if dp.metric == tr.metricName {
        dpsToAggregate := dpsToAggregate + [dp];
      } else {
        otherDps := otherDps + [dp];
      }
      assert batch[..i + 1][..i] == batch[..i];
    }
    assert batch[..|batch|] == batch;
    var aggregatedDps := AggregateDatapoints(fa, dpsToAggregate, tr.dimensions, tr.aggregationMethod);
    out := otherDps + aggregatedDps;
    assert out[..|otherDps|] == otherDps && out[|otherDps|..] == aggregatedDps;
  }

  // ---------------------------------------------------------------------------
  // TranslateDataPoints

  /** The batch after one rule, with aggregated groups listed in order of first appearance. */
  function ApplyRule(fa: FloatArith, tr: Rule, batch: seq<DataPoint>): seq<DataPoint>
    requires DivisorsNonZero(tr)
  {
    if IsPointwise(tr.action) then Pointwise(fa, tr, batch)
    else if tr.action == ActionCopyMetrics then batch + CopiesOf(tr, batch)
    else if tr.action == ActionCalculateNewMetric then CalculateSpec(fa, tr, batch)
    else if tr.action == ActionAggregateMetric then
      OtherPoints(batch, tr.metricName)
      + AggregateSpec(fa, MatchingPoints(batch, tr.metricName), tr.dimensions, tr.aggregationMethod)
    else batch
  }

  /**
   * What one rule does to the batch: exactly ApplyRule, except that aggregate_metric may
   * list its groups in any order.
   */
  ghost predicate Step(fa: FloatArith, tr: Rule, batch: seq<DataPoint>, out: seq<DataPoint>)
    requires DivisorsNonZero(tr)
  {
    if tr.action == ActionAggregateMetric then AggregateOutcome(fa, tr, batch, out)
    else out == ApplyRule(fa, tr, batch)
  }

  /** The deterministic outcome of a rule list: each rule applied to the previous rule's batch. */
  function TranslateSpec(fa: FloatArith, rules: seq<Rule>, batch: seq<DataPoint>): seq<DataPoint>
    requires forall i :: 0 <= i < |rules| ==> DivisorsNonZero(rules[i])
  {
    if rules == [] then batch
    else ApplyRule(fa, rules[|rules| - 1], TranslateSpec(fa, rules[..|rules| - 1], batch))
  }

  predicate NoAggregation(rules: seq<Rule>) {
    forall i :: 0 <= i < |rules| ==> rules[i].action != ActionAggregateMetric
  }

  /** One more rule: when no rule so far aggregates, the batch after it is TranslateSpec of the longer prefix. */
  lemma TranslateSpecStep(fa: FloatArith, rules: seq<Rule>, i: nat, batch: seq<DataPoint>,
                          prev: seq<DataPoint>, next: seq<DataPoint>)
    requires i < |rules| && forall j :: 0 <= j < |rules| ==> DivisorsNonZero(rules[j])
    requires NoAggregation(rules[..i]) ==> prev == TranslateSpec(fa, rules[..i], batch)
    requires Step(fa, rules[i], prev, next)
    ensures NoAggregation(rules[..i + 1]) ==> next == TranslateSpec(fa, rules[..i + 1], batch)
  {
    var q := rules[..i + 1];
    assert q[..i] == rules[..i] && q[i] == rules[i];
    if NoAggregation(q) {
      assert NoAggregation(rules[..i]);
      assert rules[i].action != ActionAggregateMetric;
    }
  }

  /** The switch on the rule's action in TranslateDataPoints. */
  method ApplyRuleStep(fa: FloatArith, tr: Rule, batch: seq<DataPoint>) returns (out: seq<DataPoint>)
    requires DivisorsNonZero(tr)
    ensures Step(fa, tr, batch, out)
  {
    if tr.action == ActionRenameDimensionKeys {
      out := RenameDimensionKeysStep(Entries(tr.mapping), batch);
    } else if tr.action == ActionRenameMetrics {
      out := RenameMetricsStep(Entries(tr.mapping), batch);
    } else if tr.action == ActionMultiplyInt {
      out := ScaleIntStep(Multiply, Entries(tr.scaleFactorsInt), batch);
    } else if tr.action == ActionDivideInt {
      out := ScaleIntStep(Divide, Entries(tr.scaleFactorsInt), batch);
    } else if tr.action == ActionMultiplyFloat {
      out := MultiplyFloatStep(fa, Entries(tr.scaleFactorsFloat), batch);
    } else if tr.action == ActionCopyMetrics {
      out := CopyMetricsStep(tr, batch);
      return;
    } else if tr.action == ActionSplitMetric {
      out := SplitMetricStep(tr, batch);
    } else if tr.action == ActionConvertValues {
      out := ConvertValuesStep(fa, Entries(tr.typesMapping), batch);
    } else if tr.action == ActionCalculateNewMetric {
      out := CalculateNewMetricStep(fa, tr, batch);
      return;
    } else if tr.action == ActionAggregateMetric {
      out := AggregateMetricStep(fa, tr, batch);
      return;
    } else {
      return batch;
    }
    assert out == Pointwise(fa, tr, batch);
  }

  /**
   * TranslateDataPoints: the rules are applied strictly in list order, each to the batch
   * the previous one produced. The ghost trace records the batch after each rule; without
   * aggregate_metric rules the outcome is exactly TranslateSpec.
   */
  method TranslateDataPoints(fa: FloatArith, mt: MetricTranslator, sfxDataPoints: seq<DataPoint>)
    returns (processedDataPoints: seq<DataPoint>, ghost trace: seq<seq<DataPoint>>)
    requires Valid(mt)
    ensures |trace| == |mt.rules| + 1 && trace[0] == sfxDataPoints && trace[|mt.rules|] == processedDataPoints
    ensures forall i :: 0 <= i < |mt.rules| ==> DivisorsNonZero(mt.rules[i]) && Step(fa, mt.rules[i], trace[i], trace[i + 1])
    ensures NoAggregation(mt.rules) ==> processedDataPoints == TranslateSpec(fa, mt.rules, sfxDataPoints)
  {
    var rules := mt.rules;
    forall j | 0 <= j < |rules| ensures DivisorsNonZero(rules[j]) {
      if rules[j].action == ActionDivideInt {
        ValidDivisorsNonZero(rules, j);
      }
    }
    processedDataPoints := sfxDataPoints;
    trace := [sfxDataPoints];
    for i := 0 to |rules|
      invariant |trace| == i + 1 && trace[0] == sfxDataPoints && trace[i] == processedDataPoints
      invariant forall j :: 0 <= j < i ==> Step(fa, rules[j], trace[j], trace[j + 1])
      invariant NoAggregation(rules[..i]) ==> processedDataPoints == TranslateSpec(fa, rules[..i], sfxDataPoints)
    {
      var next := ApplyRuleStep(fa, rules[i], processedDataPoints);
      TranslateSpecStep(fa, rules, i, sfxDataPoints, processedDataPoints, next);
      ghost var extended := trace + [next];
      forall j | 0 <= j < i + 1 ensures Step(fa, rules[j], extended[j], extended[j + 1]) {
        if j < i {
          assert extended[j] == trace[j] && extended[j + 1] == trace[j + 1];
        }
      }
      trace := extended;
      processedDataPoints := next;
    }
    assert rules[..|rules|] == rules;
  }

  // ---------------------------------------------------------------------------
  // Scenarios

  /** A rule with the given action and every other field unset. */
  function BlankRule(action: string): Rule {
    Rule(action, None, None, None, "", "", map[], None, "", [], "", "", "")
  }

  /**
   * rename_metrics {"cpu.pct": "cpu.usage"} then multiply_float {"cpu.usage": f}: the rule list
   * is valid, and a double point named cpu.pct comes out renamed with its value times f.
   */
  lemma RenameThenScaleScenario(fa: FloatArith, dp: DataPoint, x: Float64, f: Float64)
    requires dp.metric == "cpu.pct" && dp.value == Datum(None, Some(x), None)
    ensures var rules := [BlankRule(ActionRenameMetrics).(mapping := Some(map["cpu.pct" := "cpu.usage"])),
                          BlankRule(ActionMultiplyFloat).(scaleFactorsFloat := Some(map["cpu.usage" := f]))];
      && Validate(rules).None?
      && TranslateSpec(fa, rules, [dp]) == [dp.(metric := "cpu.usage", value := Datum(None, Some(fa.mul(x, f)), None))]
  {
    var rules := [BlankRule(ActionRenameMetrics).(mapping := Some(map["cpu.pct" := "cpu.usage"])),
                  BlankRule(ActionMultiplyFloat).(scaleFactorsFloat := Some(map["cpu.usage" := f]))];
    assert rules[..1] == [rules[0]] && rules[..1][..0] == [];
    assert forall i :: 0 <= i < |rules| ==> WellFormed(rules[i], RenameBefore(rules, i));
    ValidateCharacterization(rules);
    var renamed := dp.(metric := "cpu.usage");
    assert TranslateSpec(fa, rules[..1], [dp]) == [renamed];
  }

  /**
   * calculate_new_metric over operand1 = 10 and operand2 = 4 (integers) appends one point: a
   * copy of operand1 under the rule's metric name whose only value is the double 10 / 4.
   */
  lemma CalculateScenario(fa: FloatArith, tr: Rule, a: DataPoint, b: DataPoint)
    requires tr.operator == MetricOperatorDivision
    requires a.metric == tr.operand1Metric && b.metric == tr.operand2Metric && a.metric != b.metric
    requires a.value.intValue == Some(10) && b.value.intValue == Some(4)
    ensures CalculateSpec(fa, tr, [a, b])
              == [a, b, a.(metric := tr.metricName, value := Datum(None, Some(fa.div(fa.fromInt(10), fa.fromInt(4))), None))]
  {
    assert [a, b][..1] == [a] && [a][..0] == [];
    assert PickOperands([a], tr.operand1Metric, tr.operand2Metric) == (Some(a), None);
    assert PickOperands([a, b], tr.operand1Metric, tr.operand2Metric) == (Some(a), Some(b));
  }
}
