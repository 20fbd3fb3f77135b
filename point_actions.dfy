/**
 * The per-data-point actions of the translator (translator.go): renaming, scaling and
 * converting values, the copy filter, splitting a metric by a dimension, and the
 * derived-metric computation of calculate_new_metric.
 */
module PointActions {
  import opened Wrappers
  import opened Numeric
  import opened SfxModel

  // ---------------------------------------------------------------------------
  // rename_dimension_keys, rename_metrics

  /** The dimensions with every key that the mapping names replaced by its new name. */
  function RenameKeys(m: map<string, string>, dims: seq<Dimension>): seq<Dimension> {
    seq(|dims|, j requires 0 <= j < |dims| =>
      if dims[j].key in m then Dimension(m[dims[j].key], dims[j].value) else dims[j])
  }

  function RenameDimensionKeys(m: map<string, string>, dp: DataPoint): DataPoint {
    dp.(dimensions := RenameKeys(m, dp.dimensions))
  }

  /**
   * Renaming keys keeps every value and the order of the dimensions, and is idempotent
   * when no new name is itself a key of the mapping.
   */
  lemma RenameKeysIdempotent(m: map<string, string>, dims: seq<Dimension>)
    requires forall k :: k in m ==> m[k] !in m
    ensures |RenameKeys(m, dims)| == |dims|
    ensures forall j :: 0 <= j < |dims| ==> RenameKeys(m, dims)[j].value == dims[j].value
    ensures RenameKeys(m, RenameKeys(m, dims)) == RenameKeys(m, dims)
  {
    var once := RenameKeys(m, dims);
    var twice := RenameKeys(m, once);
    forall j | 0 <= j < |dims| ensures twice[j] == once[j] {
      if dims[j].key in m {
        assert once[j].key == m[dims[j].key];
      }
    }
  }

  function RenameMetric(m: map<string, string>, dp: DataPoint): DataPoint {
    if dp.metric in m then dp.(metric := m[dp.metric]) else dp
  }

  // ---------------------------------------------------------------------------
  // multiply_int, divide_int, multiply_float

  datatype IntScaling = Multiply | Divide

  predicate NonZeroFactors(factors: map<string, Int64>) {
    forall k :: k in factors ==> factors[k] != 0
  }

  /** `*v = *v * f` or `*v = *v / f` on an int64, with Go's wrap-around and truncation. */
  function ScaleValue(op: IntScaling, v: Int64, f: Int64): Int64
    requires op == Divide ==> f != 0
  {
    match op
    case Multiply => Wrap64(v * f)
    case Divide => Wrap64(TruncDiv(v, f))
  }

  function ScaleInt(op: IntScaling, factors: map<string, Int64>, dp: DataPoint): DataPoint
    requires op == Divide ==> NonZeroFactors(factors)
  {
    if dp.metric in factors && dp.value.intValue.Some? then
      dp.(value := dp.value.(intValue := Some(ScaleValue(op, dp.value.intValue.value, factors[dp.metric]))))
    else dp
  }

  /**
   * Scaling touches only an integer value that is present, of a metric the table names;
   * multiply_int followed by divide_int with the same table restores every value whose
   * product did not overflow.
   */
  lemma ScaleIntRoundTrip(factors: map<string, Int64>, dp: DataPoint)
    requires NonZeroFactors(factors)
    requires dp.metric in factors && dp.value.intValue.Some?
    requires -TwoTo63 <= dp.value.intValue.value * factors[dp.metric] < TwoTo63
    ensures ScaleInt(Divide, factors, ScaleInt(Multiply, factors, dp)) == dp
  {
    MultiplyThenDivide(dp.value.intValue.value, factors[dp.metric]);
  }

  function MultiplyFloat(fa: FloatArith, factors: map<string, Float64>, dp: DataPoint): DataPoint {
    if dp.metric in factors && dp.value.doubleValue.Some? then
      dp.(value := dp.value.(doubleValue := Some(fa.mul(dp.value.doubleValue.value, factors[dp.metric]))))
    else dp
  }

  // ---------------------------------------------------------------------------
  // convert_values

  /**
   * convertMetricValue: "int" turns a double into an integer-only value, "double" turns an
   * integer into a double-only value; a point without the source representation, or any
   * other type name, is left as it is.
   */
  function ConvertMetricValue(fa: FloatArith, dp: DataPoint, newType: string): (r: DataPoint)
    ensures r.(value := dp.value) == dp
    ensures r != dp ==> (newType == MetricValueTypeInt && dp.value.doubleValue.Some?)
                        || (newType == MetricValueTypeDouble && dp.value.intValue.Some?)
    ensures newType == MetricValueTypeInt && dp.value.doubleValue.Some? ==>
              r.value == Datum(None, None, Some(fa.toInt(dp.value.doubleValue.value)))
    ensures newType == MetricValueTypeDouble && dp.value.intValue.Some? ==>
              r.value == Datum(None, Some(fa.fromInt(dp.value.intValue.value)), None)
  {
    if newType == MetricValueTypeInt then
      if dp.value.doubleValue.None? then dp
      else dp.(value := Datum(None, None, Some(fa.toInt(dp.value.doubleValue.value))))
    else if newType == MetricValueTypeDouble then
      if dp.value.intValue.None? then dp
      else dp.(value := Datum(None, Some(fa.fromInt(dp.value.intValue.value)), None))
    else dp
  }

  // ---------------------------------------------------------------------------
  // copy_metrics

  /** The value of the first dimension with key k. */
  function FirstValueOf(dims: seq<Dimension>, k: string): (r: Option<string>)
    ensures r.None? <==> forall i :: 0 <= i < |dims| ==> dims[i].key != k
    ensures r.Some? ==> exists i :: 0 <= i < |dims| && dims[i] == Dimension(k, r.value)
                                    && forall j :: 0 <= j < i ==> dims[j].key != k
  {
    if dims == [] then None
    else if dims[0].key == k then Some(dims[0].value)
    else
      var r := FirstValueOf(dims[1..], k);
      assert r.Some? ==> exists i :: 0 <= i < |dims[1..]| && dims[1..][i] == Dimension(k, r.value)
                                    && forall j :: 0 <= j < i ==> dims[1..][j].key != k;
      assert r.Some? ==> exists i :: 1 <= i < |dims| && dims[i] == Dimension(k, r.value)
                                    && forall j :: 0 <= j < i ==> dims[j].key != k;
      r
  }

  /** The copy filter: with a dimension key configured, the first dimension with that key must have an allowed value. */
  predicate PassesCopyFilter(r: Rule, dp: DataPoint) {
    r.dimensionKey == "" ||
    (var v := FirstValueOf(dp.dimensions, r.dimensionKey);
     v.Some? && v.value in r.dimensionValues && r.dimensionValues[v.value])
  }

  /** copyMetric: a deep copy under the new name, or nothing when the filter rejects the point. */
  function CopyMetric(r: Rule, dp: DataPoint, newMetricName: string): (c: Option<DataPoint>)
    ensures c.Some? <==> PassesCopyFilter(r, dp)
    ensures c.Some? ==> c.value.metric == newMetricName && c.value.(metric := dp.metric) == dp
  {
    if r.dimensionKey != "" then
      var v := FirstValueOf(dp.dimensions, r.dimensionKey);
      var matched := v.Some? && v.value in r.dimensionValues && r.dimensionValues[v.value];
      if !matched then None else Some(dp.(metric := newMetricName))
    else
      Some(dp.(metric := newMetricName))
  }

  // ---------------------------------------------------------------------------
  // split_metric

  predicate HasKey(dims: seq<Dimension>, k: string) {
    exists i :: 0 <= i < |dims| && dims[i].key == k
  }

  /** A dimension with the split key whose value the mapping does not name. */
  predicate Unmapped(d: Dimension, dk: string, m: map<string, string>) {
    d.key == dk && d.value !in m
  }

  /** The index of the first unmapped split-key dimension, or |dims| when there is none. */
  function FirstUnmapped(dims: seq<Dimension>, dk: string, m: map<string, string>): (u: nat)
    ensures u <= |dims|
    ensures forall j :: 0 <= j < u ==> !Unmapped(dims[j], dk, m)
    ensures u < |dims| ==> Unmapped(dims[u], dk, m)
  {
    if dims == [] then 0
    else if Unmapped(dims[0], dk, m) then 0
    else 1 + FirstUnmapped(dims[1..], dk, m)
  }

  /** The value of the last dimension with key k. */
  function LastValueOf(dims: seq<Dimension>, k: string): (r: Option<string>)
    ensures r.None? <==> !HasKey(dims, k)
    ensures r.Some? ==> exists i :: 0 <= i < |dims| && dims[i] == Dimension(k, r.value)
                                    && forall j :: i < j < |dims| ==> dims[j].key != k
  {
    if dims == [] then None
    else if dims[|dims| - 1].key == k then Some(dims[|dims| - 1].value)
    else
      var r := LastValueOf(dims[..|dims| - 1], k);
      assert forall i :: 0 <= i < |dims| - 1 ==> dims[..|dims| - 1][i] == dims[i];
      r
  }

  /** The dimensions without those with key k, in their order. */
  function RemoveKey(dims: seq<Dimension>, k: string): seq<Dimension> {
    if dims == [] then []
    else RemoveKey(dims[..|dims| - 1], k) + (if dims[|dims| - 1].key == k then [] else [dims[|dims| - 1]])
  }

  /**
   * splitMetric, stated by its outcome. Nothing happens to a point without dimensions or
   * without the split key. Otherwise the split-key dimensions are read in order up to the
   * first one whose value is unmapped: the metric takes the mapped name of the last one
   * read. Only when none is unmapped are the split-key dimensions removed.
   */
  function SplitMetricSpec(dp: DataPoint, dk: string, m: map<string, string>): DataPoint {
    var dims := dp.dimensions;
    if |dims| == 0 || !HasKey(dims, dk) then dp
    else
      var u := FirstUnmapped(dims, dk, m);
      var last := LastValueOf(dims[..u], dk);
      var metric := if last.Some? && last.value in m then m[last.value] else dp.metric;
      if u < |dims| then dp.(metric := metric)
      else dp.(metric := metric, dimensions := RemoveKey(dims, dk))
  }

  lemma {:induction false} RemoveAbsentKey(dims: seq<Dimension>, k: string)
    requires !HasKey(dims, k)
    ensures RemoveKey(dims, k) == dims
  {
    if dims != [] {
      var p := dims[..|dims| - 1];
      assert !HasKey(p, k) by {
        forall i | 0 <= i < |p| ensures p[i].key != k { assert p[i] == dims[i]; }
      }
      RemoveAbsentKey(p, k);
      assert dims == p + [dims[|dims| - 1]];
    }
  }

  lemma {:induction false} RemoveSingleKey(dims: seq<Dimension>, k: string, j: nat)
    requires j < |dims| && dims[j].key == k
    requires forall i :: 0 <= i < |dims| && i != j ==> dims[i].key != k
    ensures RemoveKey(dims, k) == dims[..j] + dims[j + 1..]
  {
    var n := |dims|;
    var p := dims[..n - 1];
    if j == n - 1 {
      assert !HasKey(p, k) by {
        forall i | 0 <= i < |p| ensures p[i].key != k { assert p[i] == dims[i]; }
      }
      RemoveAbsentKey(p, k);
      assert dims[j + 1..] == [];
    } else {
      forall i | 0 <= i < |p| && i != j ensures p[i].key != k { assert p[i] == dims[i]; }
      RemoveSingleKey(p, k, j);
      assert dims[..j] + dims[j + 1..] == p[..j] + p[j + 1..] + [dims[n - 1]];
    }
  }

  /**
   * A point with exactly one split-key dimension whose value is mapped takes the mapped
   * name and loses that dimension; the other dimensions keep their order.
   */
  lemma SplitSingleMapped(dp: DataPoint, dk: string, m: map<string, string>, j: nat)
    requires j < |dp.dimensions| && dp.dimensions[j].key == dk && dp.dimensions[j].value in m
    requires forall i :: 0 <= i < |dp.dimensions| && i != j ==> dp.dimensions[i].key != dk
    ensures SplitMetricSpec(dp, dk, m)
              == dp.(metric := m[dp.dimensions[j].value],
                     dimensions := dp.dimensions[..j] + dp.dimensions[j + 1..])
  {
    var dims := dp.dimensions;
    var u := FirstUnmapped(dims, dk, m);
    assert u == |dims|;
    assert dims[..u] == dims;
    RemoveSingleKey(dims, dk, j);
  }

  /**
   * A point is left exactly as it is when it has no dimensions, lacks the split key, or
   * its first split-key dimension has an unmapped value.
   */
  lemma SplitUnchanged(dp: DataPoint, dk: string, m: map<string, string>)
    requires |dp.dimensions| == 0 || !HasKey(dp.dimensions, dk)
             || (FirstValueOf(dp.dimensions, dk).Some? && FirstValueOf(dp.dimensions, dk).value !in m)
    ensures SplitMetricSpec(dp, dk, m) == dp
  {
    var dims := dp.dimensions;
    if |dims| != 0 && HasKey(dims, dk) {
      var v := FirstValueOf(dims, dk).value;
      var i :| 0 <= i < |dims| && dims[i] == Dimension(dk, v) && forall j :: 0 <= j < i ==> dims[j].key != dk;
      var u := FirstUnmapped(dims, dk, m);
      assert u == i;
      assert !HasKey(dims[..u], dk);
    }
  }

  /**
   * The partial update: a mapped split-key dimension followed by an unmapped one renames
   * the metric but leaves every dimension in place.
   */
  lemma SplitPartialUpdate(dp: DataPoint, dk: string, m: map<string, string>, i: nat, j: nat)
    requires i < j < |dp.dimensions|
    requires dp.dimensions[i].key == dk && dp.dimensions[i].value in m
    requires dp.dimensions[j].key == dk && dp.dimensions[j].value !in m
    requires forall k :: 0 <= k < |dp.dimensions| && k != i && k != j ==> dp.dimensions[k].key != dk
    ensures SplitMetricSpec(dp, dk, m) == dp.(metric := m[dp.dimensions[i].value])
  {
    var dims := dp.dimensions;
    var u := FirstUnmapped(dims, dk, m);
    assert u == j;
    var last := LastValueOf(dims[..u], dk);
    assert dims[..u][i].key == dk;
    assert last == Some(dims[i].value);
  }

  /** How the prefix summaries used by splitMetric change when the prefix grows by one dimension. */
  lemma PrefixStep(dims: seq<Dimension>, i: nat, k: string)
    requires i < |dims|
    ensures var p, q := dims[..i], dims[..i + 1];
      && (HasKey(q, k) <==> HasKey(p, k) || dims[i].key == k)
      && LastValueOf(q, k) == (if dims[i].key == k then Some(dims[i].value) else LastValueOf(p, k))
      && RemoveKey(q, k) == RemoveKey(p, k) + (if dims[i].key == k then [] else [dims[i]])
  {
    var p, q := dims[..i], dims[..i + 1];
    assert q[..i] == p && q[i] == dims[i];
    assert forall j :: 0 <= j < i ==> q[j] == p[j];
  }

  /** splitMetric as the source runs it: one pass over the dimensions with early returns. */
  method SplitMetric(dp: DataPoint, dimensionKey: string, mapping: map<string, string>) returns (r: DataPoint)
    ensures r == SplitMetricSpec(dp, dimensionKey, mapping)
  {
    var dims := dp.dimensions;
    if |dims| == 0 {
      return dp;
    }
    var dimensions: seq<Dimension> := [];
    var matched := false;
    var metric := dp.metric;
    for i := 0 to |dims|
      invariant matched <==> HasKey(dims[..i], dimensionKey)
      invariant FirstUnmapped(dims, dimensionKey, mapping) >= i
      invariant var last := LastValueOf(dims[..i], dimensionKey);
                metric == if last.Some? && last.value in mapping then mapping[last.value] else dp.metric
      invariant dimensions == RemoveKey(dims[..i], dimensionKey)
      invariant i == |dims| ==> matched
    {
      var d := dims[i];
      PrefixStep(dims, i, dimensionKey);
      if dimensionKey == d.key {
        if d.value in mapping {
          metric := mapping[d.value];
          matched := true;
          continue;
        }
        assert FirstUnmapped(dims, dimensionKey, mapping) == i;
        return dp.(metric := metric);
      }
      if i == |dims| - 1 && !matched {
        assert dims[..i + 1] == dims;
        return dp.(metric := metric);
      }
      dimensions := dimensions + [d];
    }
    assert dims[..|dims|] == dims;
    return dp.(metric := metric, dimensions := dimensions);
  }

  // ---------------------------------------------------------------------------
  // calculate_new_metric

  /**
   * The operand scan of calculate_new_metric: the last point named operand1, and the last
   * point named operand2 among those not named operand1.
   */
  function PickOperands(batch: seq<DataPoint>, op1: string, op2: string): (Option<DataPoint>, Option<DataPoint>) {
    if batch == [] then (None, None)
    else
      var (a, b) := PickOperands(batch[..|batch| - 1], op1, op2);
      var dp := batch[|batch| - 1];
      if dp.metric == op1 then (Some(dp), b)
      else if dp.metric == op2 then (a, Some(dp))
      else (a, b)
  }

  /** The last point of the batch satisfying "named n1 and not named n2" (n2 = None: no exclusion). */
  ghost predicate IsLastNamed(batch: seq<DataPoint>, n1: string, n2: Option<string>, r: Option<DataPoint>) {
    if r.None? then
      forall i :: 0 <= i < |batch| ==> batch[i].metric != n1 || Some(batch[i].metric) == n2
    else
      exists i :: 0 <= i < |batch| && batch[i] == r.value && batch[i].metric == n1 && Some(n1) != n2
        && forall j :: i < j < |batch| ==> batch[j].metric != n1 || Some(batch[j].metric) == n2
  }

  /**
   * operand1 is the LAST point named operand1; operand2 is the last point named operand2
   * that is not also named operand1, so when the two names are equal operand2 is never found.
   */
  lemma {:induction false} PickOperandsLast(batch: seq<DataPoint>, op1: string, op2: string)
    ensures IsLastNamed(batch, op1, None, PickOperands(batch, op1, op2).0)
    ensures IsLastNamed(batch, op2, Some(op1), PickOperands(batch, op1, op2).1)
    ensures op1 == op2 ==> PickOperands(batch, op1, op2).1.None?
  {
    if batch != [] {
      var n := |batch|;
      var p := batch[..n - 1];
      PickOperandsLast(p, op1, op2);
      assert batch == p + [batch[n - 1]];
      var (a, b) := PickOperands(p, op1, op2);
      IsLastNamedSnoc(p, batch[n - 1], op1, None, a);
      IsLastNamedSnoc(p, batch[n - 1], op2, Some(op1), b);
    }
  }

  /** A point appended to the batch becomes the last match when it matches, else the last match stays. */
  lemma IsLastNamedSnoc(p: seq<DataPoint>, dp: DataPoint, n1: string, n2: Option<string>, r: Option<DataPoint>)
    requires IsLastNamed(p, n1, n2, r)
    ensures IsLastNamed(p + [dp], n1, n2, if dp.metric == n1 && Some(n1) != n2 then Some(dp) else r)
  {
    var batch := p + [dp];
    if !(dp.metric == n1 && Some(n1) != n2) && r.Some? {
      var i :| 0 <= i < |p| && p[i] == r.value && p[i].metric == n1 && Some(n1) != n2
        && forall j :: i < j < |p| ==> p[j].metric != n1 || Some(p[j].metric) == n2;
      assert batch[i] == r.value;
    } else if dp.metric == n1 && Some(n1) != n2 {
      assert batch[|p|] == dp;
    }
  }

  /**
   * calculateNewMetric: a clone of operand1 under the rule's metric name whose value is only
   * the double operand1 / operand2; nothing when an operand is missing, lacks an integer,
   * the divisor is zero, or the operator is not division.
   */
  function CalculateNewMetric(fa: FloatArith, operand1: Option<DataPoint>, operand2: Option<DataPoint>, tr: Rule)
    : (p: Option<DataPoint>)
    ensures p.Some? <==>
              && operand1.Some? && operand1.value.value.intValue.Some?
              && operand2.Some? && operand2.value.value.intValue.Some?
              && operand2.value.value.intValue.value != 0
              && tr.operator == MetricOperatorDivision
    ensures p.Some? ==>
              p.value == operand1.value.(metric := tr.metricName,
                                         value := Datum(None, Some(fa.div(fa.fromInt(operand1.value.value.intValue.value),
                                                                         fa.fromInt(operand2.value.value.intValue.value))), None))
  {
    if operand1.None? || operand1.value.value.intValue.None? then None
    else if operand2.None? || operand2.value.value.intValue.None? then None
    else if tr.operator == MetricOperatorDivision && operand2.value.value.intValue.value == 0 then None
    else if tr.operator == MetricOperatorDivision then
      var a := fa.fromInt(operand1.value.value.intValue.value);
      var b := fa.fromInt(operand2.value.value.intValue.value);
      Some(operand1.value.(metric := tr.metricName, value := Datum(None, Some(fa.div(a, b)), None)))
    else None
  }
}
