# Metric translation and trace conversion in the OpenTelemetry Collector exporters

This project is a Dafny model of three pieces of the OpenTelemetry Collector contrib exporters:

- **The SignalFx metric translator.** It validates a list of declarative translation rules once. It then applies those rules, strictly in list order, to each batch of SignalFx data points. The rule actions are:
  - rename_dimension_keys, rename_metrics;
  - multiply_int, divide_int, multiply_float;
  - copy_metrics, split_metric, convert_values;
  - calculate_new_metric, aggregate_metric.
- **The Datadog span conversion.** It turns an OpenTelemetry span into a Datadog span:
  - identifiers are decoded big-endian;
  - the error flag comes from the span kind and the status code table;
  - attributes are routed to fixed fields, Meta tags or Metrics.
- **The grouping loop of the Datadog trace exporter.** It walks resource spans, then library spans, then spans, skipping nil entries at every level. It converts each span and appends it to the trace of its trace ID. Traces are listed in order of the first appearance of their ID.

## Layout

| file | contents |
|---|---|
| `wrappers.dfy` | `Option` and `Result` |
| `numeric.dfy` | int64/uint64 ranges, two's-complement wrap, Go's truncating division, and an abstract float64 with its arithmetic supplied as a parameter |
| `sfx_model.dfy` | dimensions, values, data points, rules, and the action and method names |
| `rule_validation.dfy` | rule validation and the dimensions map |
| `point_actions.dfy` | what each rule does to a single point, split_metric, and the operand search of calculate_new_metric |
| `aggregation.dfy` | aggregation keys, filtered dimensions, grouping, and count/sum reduction |
| `translator.dfy` | the translator, the per-action loops, and TranslateDataPoints |
| `dd_span.dfy` | byte and decimal codecs, the status code table, tag setters on a `Span` class, and convertSpan |
| `dd_exporter.dfy` | the grouping loop and its specification |

## How the source is represented

Go mutation through pointers becomes two things:

- index-wise record updates inside loops whose invariants tie the batch to a specification function;
- for the Datadog span, a `Span` class whose setters are proved against value functions on a `SpanRecord` snapshot.

The order of aggregate_metric's output follows Go's map iteration, which the model leaves open. The method's result is therefore proved equal, as a multiset, to an order-fixed specification (`AggregateSpec`, groups in order of first appearance).

Three behaviours of the code that its own doc comments do not spell out (exporter/signalfxexporter/translation/translator.go:57-70 for split_metric, exporter/signalfxexporter/translation/translator.go:93-105 for calculate_new_metric), and that the model follows:

- **split_metric.** The metric does not simply take the first matching dimension's mapped name. It takes the mapped name of the last split-key dimension read before the first one whose value is unmapped. The split-key dimensions are removed only when none of them is unmapped (see `SplitMetricSpec`, `SplitPartialUpdate`).
- **Sum aggregation.** It can set the integer and the double field of one value together. So a value is modelled as independent optional fields, not as a one-of union.
- **calculate_new_metric operands.** The search keeps the *last* point of each operand name. When both names are equal, operand2 is never found, because the search checks operand1 first.

## Model

| member | source | states |
|---|---|---|
| Numeric.Wrap64 | exporter/signalfxexporter/translation/translator.go:319-320 | the int64 result is congruent to the mathematical one modulo 2^64 and equals it when it is in range |
| Numeric.TruncDivRemainder | exporter/signalfxexporter/translation/translator.go:328-329 | Go's division truncates: the remainder is smaller than the divisor in magnitude and has the dividend's sign |
| Numeric.MultiplyThenDivide | exporter/signalfxexporter/translation/translator.go:315-332 | multiplying an int64 by a non-zero factor then dividing by it restores the value when the product does not overflow |
| Numeric.MulDivExact | exporter/signalfxexporter/translation/translator.go:328-329 | truncating division undoes an exact multiplication |
| RuleValidation.CheckRule | exporter/signalfxexporter/translation/translator.go:203-277 | one rule passes exactly when it is well-formed for its action; the duplicate rename_dimension_keys error happens exactly for a second rule with a mapping; the unknown-action error happens exactly for an action outside the ten |
| RuleValidation.ValidateCharacterization | exporter/signalfxexporter/translation/translator.go:200-280 | a rule list validates exactly when every rule is well-formed given the renames before it; a failure is the error of the first failing rule |
| RuleValidation.ValidateFromAt | exporter/signalfxexporter/translation/translator.go:202-278 | after a well-formed prefix, validation continues from the rest of the list with the rename flag of that prefix |
| RuleValidation.ValidAtMostOneRename | exporter/signalfxexporter/translation/translator.go:208-211 | a valid list holds at most one rename_dimension_keys rule |
| RuleValidation.ValidDivisorsNonZero | exporter/signalfxexporter/translation/translator.go:220-228 | in a valid list, every divide_int rule has factors and none of them is zero |
| RuleValidation.ValidateTranslationRules | exporter/signalfxexporter/translation/translator.go:200-280 | the loop with its rename flag returns exactly the validation outcome |
| RuleValidation.DimensionsMapOfRenameRule | exporter/signalfxexporter/translation/translator.go:284-292 | in a valid list the dimensions map is the mapping of its rename_dimension_keys rule, which is set |
| RuleValidation.FirstRenameAt | exporter/signalfxexporter/translation/translator.go:284-292 | the dimensions map is the mapping of the first rename_dimension_keys rule |
| RuleValidation.DimensionsMapWithoutRenameRule | exporter/signalfxexporter/translation/translator.go:284-292 | without a rename_dimension_keys rule there is no dimensions map |
| PointActions.RenameKeysIdempotent | exporter/signalfxexporter/translation/translator.go:301-308 | renaming keys keeps length, order and values, and applying it twice equals once when no new key is itself renamed |
| PointActions.ScaleIntRoundTrip | exporter/signalfxexporter/translation/translator.go:315-332 | multiply_int then divide_int by the same factor gives back the point when the product fits in int64 |
| PointActions.ConvertMetricValue | exporter/signalfxexporter/translation/translator.go:612-633 | only the value changes; "int" turns a double into an integer-only value, "double" turns an integer into a double-only value, and anything else leaves the point unchanged |
| PointActions.FirstValueOf | exporter/signalfxexporter/translation/translator.go:638-643 | the value of the first dimension with the key, or none exactly when no dimension has it |
| PointActions.CopyMetric | exporter/signalfxexporter/translation/translator.go:635-652 | a copy exists exactly when the dimension filter passes; it equals the point except for the new metric name |
| PointActions.FirstUnmapped | exporter/signalfxexporter/translation/translator.go:589-599 | the position of the first split-key dimension whose value the mapping lacks, with no such dimension before it |
| PointActions.LastValueOf | exporter/signalfxexporter/translation/translator.go:589-596 | the value of the last dimension with the key, or none exactly when the key is absent |
| PointActions.RemoveAbsentKey | exporter/signalfxexporter/translation/translator.go:601-606 | removing an absent key keeps the dimensions |
| PointActions.RemoveSingleKey | exporter/signalfxexporter/translation/translator.go:606-609 | removing a key held by one dimension drops exactly that dimension |
| PointActions.SplitSingleMapped | exporter/signalfxexporter/translation/translator.go:582-610 | a point with one mapped split-key dimension takes the mapped name and loses that dimension |
| PointActions.SplitUnchanged | exporter/signalfxexporter/translation/translator.go:583-604 | a point without dimensions, without the split key, or whose first split-key value is unmapped is unchanged |
| PointActions.SplitPartialUpdate | exporter/signalfxexporter/translation/translator.go:589-599 | a mapped split-key dimension followed by an unmapped one renames the metric but keeps every dimension |
| PointActions.SplitMetric | exporter/signalfxexporter/translation/translator.go:582-610 | the loop with its early returns yields SplitMetricSpec |
| PointActions.PickOperandsLast | exporter/signalfxexporter/translation/translator.go:364-371 | operand1 is the last point named operand1; operand2 is the last point named operand2 and not operand1; with equal names operand2 is never found |
| PointActions.CalculateNewMetric | exporter/signalfxexporter/translation/translator.go:406-469 | a point is produced exactly when both operands exist with integer values, the divisor is non-zero and the operator is division; it is operand1 renamed with only the double quotient |
| Aggregation.AggregationKeyDefined | exporter/signalfxexporter/translation/translator.go:543-561 | a key exists exactly when every configured dimension key is present |
| Aggregation.GetAggregationKey | exporter/signalfxexporter/translation/translator.go:543-561 | the nested loops compose exactly AggregationKey: the key parts in configured order, or none when a key is missing |
| Aggregation.FilteredInKeyOrder | exporter/signalfxexporter/translation/translator.go:564-578 | with each configured key present once, the filtered dimensions are one per key in configured order, each taken from the point |
| Aggregation.FilterDimensions | exporter/signalfxexporter/translation/translator.go:564-578 | the loops yield the filtered dimensions, and nothing when either list is empty |
| Aggregation.GroupKeysDistinct | exporter/signalfxexporter/translation/translator.go:491-503 | the group keys are distinct: one group per aggregation key |
| Aggregation.GroupKeysFromPoints | exporter/signalfxexporter/translation/translator.go:492-503 | a key has a group exactly when some point has that key |
| Aggregation.GroupKeysNonEmpty | exporter/signalfxexporter/translation/translator.go:498-502 | a key has a group exactly when its group holds a point |
| Aggregation.GroupMembers | exporter/signalfxexporter/translation/translator.go:492-503 | a group holds only points of the batch with that key |
| Aggregation.AggregationDropsIncomplete | exporter/signalfxexporter/translation/translator.go:493-497 | a point belongs to some group exactly when it carries every configured key, and every grouped point carries them all |
| Aggregation.GroupByKey | exporter/signalfxexporter/translation/translator.go:491-503 | the map's keys are the group keys and each holds its group in batch order |
| Aggregation.SumValues | exporter/signalfxexporter/translation/translator.go:519-532 | the loop gives the int64 sum of the integers and the float sum of the doubles, each field set only when some member has it |
| Aggregation.SumKeepsRepresentationsApart | exporter/signalfxexporter/translation/translator.go:518-532 | summing 5, 3 and a double x gives integer 8 and double 0 + x, in separate fields |
| Aggregation.AggregateGroup | exporter/signalfxexporter/translation/translator.go:508-533 | the aggregated point is the first member with filtered dimensions, keeping its source, metric and timestamp; count makes it a gauge whose integer is the wrapped group size, sum gives it the group's summed value, and any other method keeps its value and type |
| Aggregation.AggregatedForGroups | exporter/signalfxexporter/translation/translator.go:505-535 | for a list of group keys, the j-th aggregated point is the reduction of the j-th key's non-empty group |
| Aggregation.AggregateSpecGroups | exporter/signalfxexporter/translation/translator.go:490-535 | one point per group, each the reduction of its group; every group's reduction is in the output; with count every point is a gauge holding its group's size |
| Aggregation.AggregateOne | exporter/signalfxexporter/translation/translator.go:508-534 | the loop body computes AggregateGroup |
| Aggregation.CountSingleGroup | exporter/signalfxexporter/translation/translator.go:510-517 | N points sharing one key aggregate by count to one gauge point with integer N, built from the first point |
| Aggregation.AggregateSpecLength | exporter/signalfxexporter/translation/translator.go:506-535 | one aggregated point per group key |
| Aggregation.AggregatedForPermutation | exporter/signalfxexporter/translation/translator.go:507 | the aggregated points do not depend on the group order, up to permutation |
| Aggregation.ReduceGroups | exporter/signalfxexporter/translation/translator.go:505-537 | visiting the groups in any order gives the aggregated points in that order, each group once |
| Aggregation.AggregateDatapoints | exporter/signalfxexporter/translation/translator.go:480-538 | the result is a permutation of AggregateSpec with one point per group |
| Translator.NewMetricTranslator | exporter/signalfxexporter/translation/translator.go:188-198 | construction fails with the validation error exactly when validation fails; otherwise it keeps the rules and the rename mapping |
| Translator.TranslateDimension | exporter/signalfxexporter/translation/translator.go:471-476 | an unmapped key is returned unchanged; a mapped key becomes the name the map gives it |
| Translator.TranslateDimensionOfRenameRule | exporter/signalfxexporter/translation/translator.go:471-476 | with a valid rule list, the lookup renames a key as the rename_dimension_keys rule does |
| Translator.TranslateDimensionWithoutRenameRule | exporter/signalfxexporter/translation/translator.go:471-476 | without a rename rule, the lookup is the identity |
| Translator.PointStep | exporter/signalfxexporter/translation/translator.go:300-362 | a per-point action never changes source, timestamp or metric type |
| Translator.PointStepUntouched | exporter/signalfxexporter/translation/translator.go:300-362 | a point the rule does not name is unchanged |
| Translator.ScalingChangesOnlyInt | exporter/signalfxexporter/translation/translator.go:315-332 | multiply_int and divide_int change only the integer field, by the wrapped product or truncated quotient |
| Translator.RenameDimensionKeysStep | exporter/signalfxexporter/translation/translator.go:301-308 | every point gets its keys renamed, the batch keeps its length |
| Translator.RenameMetricsStep | exporter/signalfxexporter/translation/translator.go:309-314 | every point with a mapped metric gets the new name |
| Translator.ScaleIntStep | exporter/signalfxexporter/translation/translator.go:315-332 | every point is scaled as ScaleInt says |
| Translator.MultiplyFloatStep | exporter/signalfxexporter/translation/translator.go:333-341 | every double of a named metric is multiplied by its factor |
| Translator.SplitMetricStep | exporter/signalfxexporter/translation/translator.go:351-356 | exactly the points of the rule's metric are split |
| Translator.ConvertValuesStep | exporter/signalfxexporter/translation/translator.go:357-362 | exactly the points of mapped metrics are converted |
| Translator.CopiedIndices | exporter/signalfxexporter/translation/translator.go:342-350 | the indices of the qualifying points (mapped metric, filter passed), strictly increasing, every one present |
| Translator.CopiesOfExactly | exporter/signalfxexporter/translation/translator.go:342-350 | one copy per qualifying point, in batch order: the k-th copy is the k-th qualifying point under its mapped name and otherwise identical |
| Translator.CopiesOfComplete | exporter/signalfxexporter/translation/translator.go:342-350 | every qualifying point's renamed copy is among the copies |
| Translator.NoCopies | exporter/signalfxexporter/translation/translator.go:342-350 | no qualifying point, no copy |
| Translator.CopyMetricsStep | exporter/signalfxexporter/translation/translator.go:342-350 | the batch grows by the copies of its original points only |
| Translator.CalculateSkipsSameOperands | exporter/signalfxexporter/translation/translator.go:364-371 | equal operand names leave the batch unchanged |
| Translator.CalculateSkipsZeroDivisor | exporter/signalfxexporter/translation/translator.go:446-453 | a zero operand2 leaves the batch unchanged |
| Translator.CalculateNewMetricStep | exporter/signalfxexporter/translation/translator.go:363-376 | the operand loop and the append yield CalculateSpec |
| Translator.CalculateScenario | exporter/signalfxexporter/translation/translator.go:455-467 | operands 10 and 4 append operand1 renamed with the double 10 / 4 |
| Translator.PartitionPoints | exporter/signalfxexporter/translation/translator.go:383-397 | the points to aggregate and the others split the batch, each point once, on its side |
| Translator.AggregateMetricStep | exporter/signalfxexporter/translation/translator.go:378-399 | the other points in order, then a permutation of the aggregated points |
| Translator.ApplyRuleStep | exporter/signalfxexporter/translation/translator.go:300-400 | the switch does what one rule specifies |
| Translator.TranslateSpecStep | exporter/signalfxexporter/translation/translator.go:299-401 | without aggregation so far, each rule extends the deterministic outcome by one rule |
| Translator.TranslateDataPoints | exporter/signalfxexporter/translation/translator.go:296-404 | the rules run in order, each on the previous rule's batch; without aggregate_metric rules the result is TranslateSpec |
| Translator.RenameThenScaleScenario | exporter/signalfxexporter/translation/translator.go:309-341 | rename_metrics then multiply_float is valid, and renames a point and multiplies its double |
| DdSpan.FromToBytes | exporter/datadogagentexporter/span.go:35-36 | big-endian encoding then decoding gives the number back |
| DdSpan.ToFromBytes | exporter/datadogagentexporter/span.go:35-36 | decoding then encoding gives the bytes back |
| DdSpan.BigEndianRoundTrip | exporter/datadogagentexporter/span.go:35-48 | the uint64 read from the first eight bytes encodes back to those bytes |
| DdSpan.ParseFormatInt | exporter/datadogagentexporter/span.go:54 | the decimal text of an integer parses back to it |
| DdSpan.StatusCodes | exporter/datadogagentexporter/span.go:150-168 | the table has an entry exactly for codes 0 to 16 |
| DdSpan.UnknownCodeDetails | exporter/datadogagentexporter/span.go:51-57 | an unknown code gets status 500 and a message naming the code in decimal, unlike every known message |
| DdSpan.StringTagRouting | exporter/datadogagentexporter/span.go:102-121 | each reserved key sets its own field, analytics.event sets the sample rate to 0 only for "false", other keys go to Meta |
| DdSpan.TagRouting | exporter/datadogagentexporter/span.go:87-100 | strings and booleans go through setStringTag, numbers become metrics with sampling priority renamed |
| DdSpan.AnalyticsEventFromBool | exporter/datadogagentexporter/span.go:92-115 | a boolean analytics.event sets the sample rate to 1 or 0 |
| DdSpan.AttributesKeepIdentity | exporter/datadogagentexporter/span.go:81-83 | attributes never change the IDs, timing or error flag |
| DdSpan.ConvertedIdentity | exporter/datadogagentexporter/span.go:34-49 | the trace ID is bytes 8 to 15, the span ID the first eight bytes, the parent ID 0 when absent, and start and duration as int64 |
| DdSpan.ConvertedErrorFlag | exporter/datadogagentexporter/span.go:59-72 | client spans fail exactly on 4xx, all others exactly on 5xx |
| DdSpan.ClientServerErrorExample | exporter/datadogagentexporter/span.go:59-72 | an UNKNOWN status fails a server span but not a client span |
| DdSpan.InitialSpanFields | exporter/datadogagentexporter/span.go:34-79 | the fields before attributes: names, service, type by kind, and error tags present exactly on error |
| DdSpan.Span.constructor | exporter/datadogagentexporter/span.go:34-45 | the struct literal: type "custom", empty maps, no parent, no error |
| DdSpan.Span.SetMetric | exporter/datadogagentexporter/span.go:123-130 | the span becomes WithMetric of its old value |
| DdSpan.Span.SetStringTag | exporter/datadogagentexporter/span.go:102-121 | the span becomes WithStringTag of its old value |
| DdSpan.Span.SetTag | exporter/datadogagentexporter/span.go:87-100 | the span becomes WithTag of its old value |
| DdSpan.Span.SetAttributes | exporter/datadogagentexporter/span.go:81-83 | the attributes are applied in order |
| DdSpan.ConvertSpan | exporter/datadogagentexporter/span.go:33-85 | a fresh span equal to ConvertSpanSpec |
| DdExporter.TraceIdsExactly | exporter/datadogagentexporter/exporter.go:69-74 | trace IDs are distinct, and an ID is listed exactly when some span has it |
| DdExporter.TracesByTraceId | exporter/datadogagentexporter/exporter.go:69-75 | every trace is non-empty and holds spans of one trace ID; different traces have different IDs |
| DdExporter.TraceIdsInFirstAppearanceOrder | exporter/datadogagentexporter/exporter.go:70-73 | for traces i < j, every span of trace j is preceded by a span of trace i: traces are ordered by first appearance of their ID |
| DdExporter.EverySpanOnce | exporter/datadogagentexporter/exporter.go:75 | the traces together hold every converted span exactly once |
| DdExporter.GroupingStep | exporter/datadogagentexporter/exporter.go:69-75 | a span with a known ID extends its trace; a new ID opens a new trace at the end |
| DdExporter.AddToTrace | exporter/datadogagentexporter/exporter.go:69-75 | the lookup-or-open and append keep the traces and index equal to the grouping of the spans so far |
| DdExporter.GroupLibrarySpans | exporter/datadogagentexporter/exporter.go:56-76 | the span loop skips nil spans and groups the rest |
| DdExporter.GroupResourceSpans | exporter/datadogagentexporter/exporter.go:50-77 | the library loop skips nil entries and groups the spans of the rest |
| DdExporter.GroupSpans | exporter/datadogagentexporter/exporter.go:40-78 | the traces are the grouping by trace ID of the converted non-nil spans in visiting order, and nothing is dropped |

## Left out

- Floating point: float64 values are opaque bit patterns. Addition, multiplication, division and the int/float conversions are functions passed in as a parameter. No property of IEEE arithmetic is used, so results such as 0.42 × 100 = 42 are stated as `fa.mul(x, f)`, not as numbers.
- Logging: the zap logger calls in the translator are dropped.
- `proto.Clone`: it is a value copy; points are values throughout.
- Aliasing of points: the model cannot express one `*DataPoint` (or one `*Dimension`) occurring twice in a batch, where an in-place update would affect both entries. The source creates such sharing itself: when aggregate_metric lists a dimension key twice, `filterDimensions` (translator.go:569-575) appends the same `*Dimension` once per listing, and a later rename_dimension_keys rule with a chained mapping (a to b, b to c) then renames that shared dimension twice, to c, where the model renames each entry once, to b.
- Validation error text: the model's errors carry the action but not the text. They do not carry the map key either, which Go picks in map iteration order.
- Translator.AggregateMetricStep, Aggregation.ReduceGroups and Aggregation.AggregateDatapoints: the order of the aggregated points is left open (Go's map order) and fixed only up to permutation.
- DdSpan.ConvertSpan: a trace ID shorter than 16 bytes, or a span or parent ID shorter than 8 bytes, makes the source panic. The model requires well-formed IDs instead (`WellFormedIds`).
- DdSpan.UnknownAttributeText: `%v` and `%q` formatting of an attribute of unknown type is given as already-rendered text, and quoting is approximated by surrounding quotes.
- The `ext` tag names of the Datadog tracing library are not part of this model. They are given their library values, and the proofs rely only on their being distinct.
- The `resource` argument of convertSpan is unused by the source and is not modelled.
- DdExporter.GroupSpans: traces hold span values, not `*ddSpan` pointers. This is safe because a converted span is never changed again. The dropped-span branch is not modelled because convertSpan never fails, so the count stays 0.
- Not part of this model:
  - sending traces over HTTP (`sendTraces`), the exporter helper wiring, and the factory and configuration code;
  - the Kubernetes resource label code (`resource.go`);
  - the exporter tests.
