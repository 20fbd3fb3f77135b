/**
 * Construction-time validation of the translation rules (translator.go,
 * validateTranslationRules) and the dimension-rename table derived from them
 * (createDimensionsMap).
 */
module RuleValidation {
  import opened Wrappers
  import opened Numeric
  import opened SfxModel

  /**
   * Why a rule list was refused. The source's messages for a zero divisor and an invalid
   * value type also name the offending map entry; which one is reported depends on Go's
   * map iteration order, so the model does not carry it.
   */
  datatype ConfigError =
    | MissingFields(action: string, fields: seq<string>)
    | DuplicateRule(action: string)
    | ZeroScaleFactor(action: string)
    | MissingDimensionValues(action: string)
    | InvalidValueType
    | InvalidAggregationMethod(action: string, aggregationMethod: string)
    | InvalidOperator(action: string, operator: string)
    | UnknownAction(action: string)

  predicate HasZeroFactor(factors: map<string, Int64>) {
    exists k :: k in factors && factors[k] == 0
  }

  predicate HasInvalidValueType(types: map<string, string>) {
    exists k :: k in types && types[k] != MetricValueTypeInt && types[k] != MetricValueTypeDouble
  }

  /**
   * What the source requires of one rule, as a plain statement: the action is one of the
   * known ones and the fields that action reads are set and valid. `renameSeen` tells
   * whether an earlier rule of the list is a rename_dimension_keys rule.
   */
  predicate WellFormed(r: Rule, renameSeen: bool) {
    || (r.action == ActionRenameDimensionKeys && r.mapping.Some? && !renameSeen)
    || (r.action == ActionRenameMetrics && r.mapping.Some?)
    || (r.action == ActionMultiplyInt && r.scaleFactorsInt.Some?)
    || (r.action == ActionDivideInt && r.scaleFactorsInt.Some? && !HasZeroFactor(r.scaleFactorsInt.value))
    || (r.action == ActionMultiplyFloat && r.scaleFactorsFloat.Some?)
    || (r.action == ActionCopyMetrics && r.mapping.Some? && (r.dimensionKey == "" || |r.dimensionValues| != 0))
    || (r.action == ActionSplitMetric && r.metricName != "" && r.dimensionKey != "" && r.mapping.Some?)
    || (r.action == ActionConvertValues && r.typesMapping.Some? && !HasInvalidValueType(r.typesMapping.value))
    || (r.action == ActionAggregateMetric && r.metricName != "" && |r.dimensions| != 0
        && (r.aggregationMethod == AggregationMethodCount || r.aggregationMethod == AggregationMethodSum))
    || (r.action == ActionCalculateNewMetric && r.metricName != "" && r.operand1Metric != ""
        && r.operand2Metric != "" && r.operator == MetricOperatorDivision)
  }

  /** The check of one rule, with the error the source reports for it, in the source's order of checks. */
  function CheckRule(r: Rule, renameSeen: bool): (e: Option<ConfigError>)
    ensures e.None? <==> WellFormed(r, renameSeen)
    ensures e == Some(DuplicateRule(ActionRenameDimensionKeys)) <==>
              r.action == ActionRenameDimensionKeys && r.mapping.Some? && renameSeen
    ensures e.Some? && e.value.UnknownAction? <==>
              r.action !in {ActionRenameDimensionKeys, ActionRenameMetrics, ActionMultiplyInt, ActionDivideInt,
                            ActionMultiplyFloat, ActionCopyMetrics, ActionSplitMetric, ActionConvertValues,
                            ActionAggregateMetric, ActionCalculateNewMetric}
  {
    var a := r.action;
    if a == ActionRenameDimensionKeys then
      if r.mapping.None? then Some(MissingFields(a, ["mapping"]))
      else if renameSeen then Some(DuplicateRule(a))
      else None
    else if a == ActionRenameMetrics then
      if r.mapping.None? then Some(MissingFields(a, ["mapping"])) else None
    else if a == ActionMultiplyInt then
      if r.scaleFactorsInt.None? then Some(MissingFields(a, ["scale_factors_int"])) else None
    else if a == ActionDivideInt then
      if r.scaleFactorsInt.None? then Some(MissingFields(a, ["scale_factors_int"]))
      else if HasZeroFactor(r.scaleFactorsInt.value) then Some(ZeroScaleFactor(a))
      else None
    else if a == ActionMultiplyFloat then
      if r.scaleFactorsFloat.None? then Some(MissingFields(a, ["scale_factors_float"])) else None
    else if a == ActionCopyMetrics then
      if r.mapping.None? then Some(MissingFields(a, ["mapping"]))
      else if r.dimensionKey != "" && |r.dimensionValues| == 0 then Some(MissingDimensionValues(a))
      else None
    else if a == ActionSplitMetric then
      if r.metricName == "" || r.dimensionKey == "" || r.mapping.None? then
        Some(MissingFields(a, ["metric_name", "dimension_key", "mapping"]))
      else None
    else if a == ActionConvertValues then
      if r.typesMapping.None? then Some(MissingFields(a, ["types_mapping"]))
      else if HasInvalidValueType(r.typesMapping.value) then Some(InvalidValueType)
      else None
    else if a == ActionAggregateMetric then
      if r.metricName == "" || r.aggregationMethod == "" || |r.dimensions| == 0 then
        Some(MissingFields(a, ["metric_name", "dimensions", "aggregation_method"]))
      else if r.aggregationMethod != AggregationMethodCount && r.aggregationMethod != AggregationMethodSum then
        Some(InvalidAggregationMethod(a, r.aggregationMethod))
      else None
    else if a == ActionCalculateNewMetric then
      if r.metricName == "" || r.operand1Metric == "" || r.operand2Metric == "" || r.operator == "" then
        Some(MissingFields(a, ["metric_name", "operand1_metric", "operand2_metric", "operator"]))
      else if r.operator != MetricOperatorDivision then Some(InvalidOperator(a, r.operator))
      else None
    else
      Some(UnknownAction(a))
  }

  /** Whether one of the first n rules is a rename_dimension_keys rule. */
  predicate RenameBefore(rules: seq<Rule>, n: nat)
    requires n <= |rules|
  {
    exists j :: 0 <= j < n && rules[j].action == ActionRenameDimensionKeys
  }

  /** Validation of the rules that follow a prefix; `renameSeen` says whether that prefix held a rename_dimension_keys rule. */
  function ValidateFrom(rules: seq<Rule>, renameSeen: bool): Option<ConfigError> {
    if rules == [] then None
    else match CheckRule(rules[0], renameSeen)
      case Some(e) => Some(e)
      case None => ValidateFrom(rules[1..], renameSeen || rules[0].action == ActionRenameDimensionKeys)
  }

  /** The outcome of validating a whole rule list: None when every rule passes. */
  function Validate(rules: seq<Rule>): Option<ConfigError> {
    ValidateFrom(rules, false)
  }

  lemma {:induction false} ValidateFromAt(rules: seq<Rule>, i: nat)
    requires i <= |rules|
    requires forall j :: 0 <= j < i ==> WellFormed(rules[j], RenameBefore(rules, j))
    ensures Validate(rules) == ValidateFrom(rules[i..], RenameBefore(rules, i))
  {
    if i > 0 {
      ValidateFromAt(rules, i - 1);
      var rest := rules[i - 1..];
      assert rest[0] == rules[i - 1] && rest[1..] == rules[i..];
      var seen := RenameBefore(rules, i - 1);
      assert CheckRule(rules[i - 1], seen).None?;
      assert RenameBefore(rules, i) == (seen || rules[i - 1].action == ActionRenameDimensionKeys);
    }
  }

  /**
   * Validation passes exactly when every rule is well formed given the rules before it;
   * when it fails, the error is the one of the first rule that fails its check.
   */
  lemma ValidateCharacterization(rules: seq<Rule>)
    ensures Validate(rules).None? <==>
              forall i :: 0 <= i < |rules| ==> WellFormed(rules[i], RenameBefore(rules, i))
    ensures Validate(rules).Some? ==>
              exists i :: 0 <= i < |rules|
                && (forall j :: 0 <= j < i ==> WellFormed(rules[j], RenameBefore(rules, j)))
                && CheckRule(rules[i], RenameBefore(rules, i)) == Validate(rules)
  {
    var i := 0;
    while i < |rules| && WellFormed(rules[i], RenameBefore(rules, i))
      invariant 0 <= i <= |rules|
      invariant forall j :: 0 <= j < i ==> WellFormed(rules[j], RenameBefore(rules, j))
    {
      i := i + 1;
    }
    ValidateFromAt(rules, i);
    if i < |rules| {
      assert rules[i..][0] == rules[i];
    }
  }

  /** A list that passes validation holds at most one rename_dimension_keys rule. */
  lemma ValidAtMostOneRename(rules: seq<Rule>, i: nat, j: nat)
    requires Validate(rules).None?
    requires i < j < |rules|
    requires rules[j].action == ActionRenameDimensionKeys
    ensures rules[i].action != ActionRenameDimensionKeys
  {
    ValidateCharacterization(rules);
    assert WellFormed(rules[j], RenameBefore(rules, j));
  }

  /** A list that passes validation has no divide_int rule with a zero divisor. */
  lemma ValidDivisorsNonZero(rules: seq<Rule>, i: nat)
    requires Validate(rules).None?
    requires i < |rules| && rules[i].action == ActionDivideInt
    ensures rules[i].scaleFactorsInt.Some? && !HasZeroFactor(rules[i].scaleFactorsInt.value)
  {
    ValidateCharacterization(rules);
    assert WellFormed(rules[i], RenameBefore(rules, i));
  }

  /**
   * Validation as the source performs it: one pass over the rules with a flag recording
   * whether a rename_dimension_keys rule was already accepted; the first failing rule
   * ends the pass with its error.
   */
  method ValidateTranslationRules(rules: seq<Rule>) returns (err: Option<ConfigError>)
    ensures err == Validate(rules)
  {
    var renameDimensionKeysFound := false;
    for i := 0 to |rules|
      invariant ValidateFrom(rules[i..], renameDimensionKeysFound) == Validate(rules)
    {
      var tr := rules[i];
      assert rules[i..][0] == tr && rules[i..][1..] == rules[i + 1..];
      var e := CheckRule(tr, renameDimensionKeysFound);
      if e.Some? {
        return e;
      }
      if tr.action == ActionRenameDimensionKeys {
        renameDimensionKeysFound := true;
      }
    }
    return None;
  }

  /** The mapping of the first rename_dimension_keys rule, if any (nil otherwise). */
  function CreateDimensionsMap(rules: seq<Rule>): Option<map<string, string>> {
    if rules == [] then None
    else if rules[0].action == ActionRenameDimensionKeys then rules[0].mapping
    else CreateDimensionsMap(rules[1..])
  }

  /** In a valid list, the dimensions map is the mapping of its one rename_dimension_keys rule. */
  lemma {:induction false} DimensionsMapOfRenameRule(rules: seq<Rule>, i: nat)
    requires Validate(rules).None?
    requires i < |rules| && rules[i].action == ActionRenameDimensionKeys
    ensures CreateDimensionsMap(rules) == rules[i].mapping && rules[i].mapping.Some?
  {
    ValidateCharacterization(rules);
    assert WellFormed(rules[i], RenameBefore(rules, i));
    forall j | 0 <= j < i ensures rules[j].action != ActionRenameDimensionKeys {
      ValidAtMostOneRename(rules, j, i);
    }
    FirstRenameAt(rules, i);
  }

  lemma {:induction false} FirstRenameAt(rules: seq<Rule>, i: nat)
    requires i < |rules| && rules[i].action == ActionRenameDimensionKeys
    requires forall j :: 0 <= j < i ==> rules[j].action != ActionRenameDimensionKeys
    ensures CreateDimensionsMap(rules) == rules[i].mapping
  {
    if i > 0 {
      FirstRenameAt(rules[1..], i - 1);
    }
  }

  /** Without a rename_dimension_keys rule the dimensions map is nil. */
  lemma {:induction false} DimensionsMapWithoutRenameRule(rules: seq<Rule>)
    requires forall j :: 0 <= j < |rules| ==> rules[j].action != ActionRenameDimensionKeys
    ensures CreateDimensionsMap(rules).None?
  {
    if rules != [] {
      DimensionsMapWithoutRenameRule(rules[1..]);
    }
  }
}
