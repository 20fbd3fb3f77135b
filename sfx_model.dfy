/**
 * The data the SignalFx metric translator works on: SignalFx protobuf data points
 * and the declarative translation rules read from the exporter's configuration.
 */
module SfxModel {
  import opened Wrappers
  import opened Numeric

  /** One key/value tag of a data point. Keys are not unique within a point. */
  datatype Dimension = Dimension(key: string, value: string)

  datatype MetricType = Gauge | Counter | Enum | CumulativeCounter

  /**
   * The value of a data point. Each field is independently present or absent:
   * sum aggregation can set the integer and the double field together.
   */
  datatype Datum = Datum(strValue: Option<string>, doubleValue: Option<Float64>, intValue: Option<Int64>)

  datatype DataPoint = DataPoint(
    source: string,
    metric: string,
    timestamp: Int64,
    value: Datum,
    metricType: Option<MetricType>,
    dimensions: seq<Dimension>)

  // The action names a rule may carry.
  const ActionRenameDimensionKeys: string := "rename_dimension_keys"
  const ActionRenameMetrics: string := "rename_metrics"
  const ActionMultiplyInt: string := "multiply_int"
  const ActionDivideInt: string := "divide_int"
  const ActionMultiplyFloat: string := "multiply_float"
  const ActionConvertValues: string := "convert_values"
  const ActionCopyMetrics: string := "copy_metrics"
  const ActionSplitMetric: string := "split_metric"
  const ActionAggregateMetric: string := "aggregate_metric"
  const ActionCalculateNewMetric: string := "calculate_new_metric"

  const MetricOperatorDivision: string := "/"
  const MetricValueTypeInt: string := "int"
  const MetricValueTypeDouble: string := "double"
  const AggregationMethodCount: string := "count"
  const AggregationMethodSum: string := "sum"

  /**
   * A translation rule. The maps that the configuration may leave unset are Options:
   * an unset map (Go nil) fails validation where an empty one does not.
   */
  datatype Rule = Rule(
    action: string,
    mapping: Option<map<string, string>>,
    scaleFactorsInt: Option<map<string, Int64>>,
    scaleFactorsFloat: Option<map<string, Float64>>,
    metricName: string,
    dimensionKey: string,
    dimensionValues: map<string, bool>,
    typesMapping: Option<map<string, string>>,
    aggregationMethod: string,
    dimensions: seq<string>,
    operand1Metric: string,
    operand2Metric: string,
    operator: string)

  /** A Go map as read by a lookup: a nil map behaves as an empty one. */
  function Entries<K, V>(m: Option<map<K, V>>): (r: map<K, V>)
    ensures m.None? ==> r == map[]
  {
    m.GetOr(map[])
  }
}
