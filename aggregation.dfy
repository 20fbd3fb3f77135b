/**
 * aggregate_metric (translator.go): the aggregation key of a data point, the filtering
 * of its dimensions to the configured keys, and the grouping and reduction of a batch
 * of same-named points by that key.
 */
module Aggregation {
  import opened Wrappers
  import opened Numeric
  import opened SfxModel
  import opened PointActions

  const AggregationKeyDelimiter: string := "//"

  // ---------------------------------------------------------------------------
  // The aggregation key

  /** The values of every dimension with key k, each followed by the delimiter, in dimension order. */
  function KeyPart(dims: seq<Dimension>, k: string): string {
    if dims == [] then ""
    else
      var d := dims[|dims| - 1];
      KeyPart(dims[..|dims| - 1], k) + (if d.key == k then d.value + AggregationKeyDelimiter else "")
  }

  /**
   * getAggregationKey: the key parts of the configured keys, in their order, or None when
   * a configured key is missing from the dimensions. Every dimension with a configured key
   * contributes, duplicates included, so different dimension sets can share a key.
   */
  function AggregationKey(dims: seq<Dimension>, keys: seq<string>): Option<string> {
    if keys == [] then Some("")
    else match AggregationKey(dims, keys[..|keys| - 1])
      case None => None
      case Some(prefix) =>
        if HasKey(dims, keys[|keys| - 1]) then Some(prefix + KeyPart(dims, keys[|keys| - 1])) else None
  }

  /** A point has an aggregation key exactly when it carries every configured dimension key. */
  lemma {:induction false} AggregationKeyDefined(dims: seq<Dimension>, keys: seq<string>)
    ensures AggregationKey(dims, keys).Some? <==> forall j :: 0 <= j < |keys| ==> HasKey(dims, keys[j])
  {
    if keys != [] {
      var p := keys[..|keys| - 1];
      AggregationKeyDefined(dims, p);
      assert forall j :: 0 <= j < |p| ==> p[j] == keys[j];
    }
  }

  lemma KeyPartStep(dims: seq<Dimension>, i: nat, k: string)
    requires i < |dims|
    ensures KeyPart(dims[..i + 1], k)
              == KeyPart(dims[..i], k) + (if dims[i].key == k then dims[i].value + AggregationKeyDelimiter else "")
  {
    assert dims[..i + 1][..i] == dims[..i];
  }

  /** getAggregationKey as the source runs it: for each configured key, a pass over the dimensions. */
  method GetAggregationKey(dims: seq<Dimension>, keys: seq<string>) returns (key: Option<string>)
    ensures key == AggregationKey(dims, keys)
  {
    var aggregationKey := "";
    for j := 0 to |keys|
      invariant AggregationKey(dims, keys[..j]) == Some(aggregationKey)
    {
      var dk := keys[j];
      ghost var before := aggregationKey;
      var dimensionFound := false;
      for i := 0 to |dims|
        invariant dimensionFound <==> HasKey(dims[..i], dk)
        invariant aggregationKey == before + KeyPart(dims[..i], dk)
      {
        PrefixStep(dims, i, dk);
        KeyPartStep(dims, i, dk);
        if dims[i].key == dk {
          aggregationKey := aggregationKey + dims[i].value + AggregationKeyDelimiter;
          dimensionFound := true;
        }
      }
      assert dims[..|dims|] == dims;
      assert keys[..j + 1][..j] == keys[..j];
      if !dimensionFound {
        AggregationKeyDefined(dims, keys);
        assert keys[j] == dk;
        return None;
      }
    }
    assert keys[..|keys|] == keys;
    return Some(aggregationKey);
  }

  // ---------------------------------------------------------------------------
  // Filtering dimensions

  /** The dimensions with key k, in their order. */
  function WithKey(dims: seq<Dimension>, k: string): seq<Dimension> {
    if dims == [] then []
    else WithKey(dims[..|dims| - 1], k) + (if dims[|dims| - 1].key == k then [dims[|dims| - 1]] else [])
  }

  function FilteredFrom(dims: seq<Dimension>, keys: seq<string>): seq<Dimension> {
    if keys == [] then []
    else FilteredFrom(dims, keys[..|keys| - 1]) + WithKey(dims, keys[|keys| - 1])
  }

  /** filterDimensions: for each configured key in order, every dimension with that key; nothing when either list is empty. */
  function FilteredDimensions(dims: seq<Dimension>, keys: seq<string>): seq<Dimension> {
    if |dims| == 0 || |keys| == 0 then [] else FilteredFrom(dims, keys)
  }

  lemma {:induction false} WithKeyExactlyOne(dims: seq<Dimension>, k: string, i: nat)
    requires i < |dims| && dims[i].key == k
    requires forall j :: 0 <= j < |dims| && j != i ==> dims[j].key != k
    ensures WithKey(dims, k) == [dims[i]]
  {
    var p := dims[..|dims| - 1];
    if i == |dims| - 1 {
      WithKeyAbsent(p, k);
    } else {
      WithKeyExactlyOne(p, k, i);
    }
  }

  lemma {:induction false} WithKeyAbsent(dims: seq<Dimension>, k: string)
    requires forall j :: 0 <= j < |dims| ==> dims[j].key != k
    ensures WithKey(dims, k) == []
  {
    if dims != [] {
      WithKeyAbsent(dims[..|dims| - 1], k);
    }
  }

  /** A dimension-key predicate: key k occurs exactly once among the dimensions. */
  ghost predicate OccursOnce(dims: seq<Dimension>, k: string) {
    exists i :: 0 <= i < |dims| && dims[i].key == k && forall j :: 0 <= j < |dims| && j != i ==> dims[j].key != k
  }

  /**
   * When every configured key occurs exactly once, the filtered dimensions are one per
   * configured key, in the configured order.
   */
  lemma {:induction false} FilteredInKeyOrder(dims: seq<Dimension>, keys: seq<string>)
    requires forall j :: 0 <= j < |keys| ==> OccursOnce(dims, keys[j])
    ensures |FilteredFrom(dims, keys)| == |keys|
    ensures forall j :: 0 <= j < |keys| ==>
              FilteredFrom(dims, keys)[j].key == keys[j] && FilteredFrom(dims, keys)[j] in dims
  {
    if keys != [] {
      var p := keys[..|keys| - 1];
      var k := keys[|keys| - 1];
      forall j | 0 <= j < |p| ensures OccursOnce(dims, p[j]) {
        assert p[j] == keys[j];
      }
      FilteredInKeyOrder(dims, p);
      assert OccursOnce(dims, k);
      var i :| 0 <= i < |dims| && dims[i].key == k && forall j :: 0 <= j < |dims| && j != i ==> dims[j].key != k;
      WithKeyExactlyOne(dims, k, i);
      var prev := FilteredFrom(dims, p);
      assert FilteredFrom(dims, keys) == prev + [dims[i]];
      forall j | 0 <= j < |keys|
        ensures FilteredFrom(dims, keys)[j].key == keys[j] && FilteredFrom(dims, keys)[j] in dims
      {
        if j < |p| {
          assert FilteredFrom(dims, keys)[j] == prev[j];
          assert p[j] == keys[j];
        }
      }
    }
  }

  lemma WithKeyStep(dims: seq<Dimension>, i: nat, k: string)
    requires i < |dims|
    ensures WithKey(dims[..i + 1], k) == WithKey(dims[..i], k) + (if dims[i].key == k then [dims[i]] else [])
  {
    assert dims[..i + 1][..i] == dims[..i];
  }

  /** filterDimensions as the source runs it: nested passes appending to an accumulator. */
  method FilterDimensions(dims: seq<Dimension>, keys: seq<string>) returns (result: seq<Dimension>)
    ensures result == FilteredDimensions(dims, keys)
  {
    if |dims| == 0 || |keys| == 0 {
      return [];
    }
    result := [];
    for j := 0 to |keys|
      invariant result == FilteredFrom(dims, keys[..j])
    {
      var dk := keys[j];
      ghost var before := result;
      for i := 0 to |dims|
        invariant result == before + WithKey(dims[..i], dk)
      {
        WithKeyStep(dims, i, dk);
        if dims[i].key == dk {
          result := result + [dims[i]];
        }
      }
      assert dims[..|dims|] == dims;
      assert keys[..j + 1][..j] == keys[..j];
    }
    assert keys[..|keys|] == keys;
  }

  // ---------------------------------------------------------------------------
  // Grouping

  /** The distinct aggregation keys of the points, in order of first appearance. */
  function GroupKeys(dps: seq<DataPoint>, keys: seq<string>): seq<string> {
    if dps == [] then []
    else
      var p := GroupKeys(dps[..|dps| - 1], keys);
      var k := AggregationKey(dps[|dps| - 1].dimensions, keys);
      p + (if k.Some? && k.value !in p then [k.value] else [])
  }

  /** The points whose aggregation key is k, in their order. */
  function Group(dps: seq<DataPoint>, keys: seq<string>, k: string): seq<DataPoint> {
    if dps == [] then []
    else
      var last := dps[|dps| - 1];
      Group(dps[..|dps| - 1], keys, k) + (if AggregationKey(last.dimensions, keys) == Some(k) then [last] else [])
  }

  ghost predicate Distinct(s: seq<string>) {
    forall i, j :: 0 <= i < j < |s| ==> s[i] != s[j]
  }

  /** The group keys are distinct. */
  lemma {:induction false} GroupKeysDistinct(dps: seq<DataPoint>, keys: seq<string>)
    ensures Distinct(GroupKeys(dps, keys))
  {
    if dps != [] {
      GroupKeysDistinct(dps[..|dps| - 1], keys);
    }
  }

  /** A string is a group key exactly when its group is non-empty. */
  lemma {:induction false} GroupKeysNonEmpty(dps: seq<DataPoint>, keys: seq<string>, k: string)
    ensures k in GroupKeys(dps, keys) <==> Group(dps, keys, k) != []
  {
    if dps != [] {
      GroupKeysNonEmpty(dps[..|dps| - 1], keys, k);
    }
  }

  /** A string is a group key exactly when some point of the batch has it as aggregation key. */
  lemma {:induction false} GroupKeysFromPoints(dps: seq<DataPoint>, keys: seq<string>, k: string)
    ensures k in GroupKeys(dps, keys) <==>
              exists i :: 0 <= i < |dps| && AggregationKey(dps[i].dimensions, keys) == Some(k)
  {
    if dps != [] {
      var p := dps[..|dps| - 1];
      GroupKeysFromPoints(p, keys, k);
      if exists i :: 0 <= i < |dps| && AggregationKey(dps[i].dimensions, keys) == Some(k) {
        var i :| 0 <= i < |dps| && AggregationKey(dps[i].dimensions, keys) == Some(k);
        if i < |p| {
          assert p[i] == dps[i];
        }
      }
      if exists i :: 0 <= i < |p| && AggregationKey(p[i].dimensions, keys) == Some(k) {
        var i :| 0 <= i < |p| && AggregationKey(p[i].dimensions, keys) == Some(k);
        assert p[i] == dps[i];
      }
    }
  }

  /** Every member of a group has the group's key, and comes from the batch. */
  lemma {:induction false} GroupMembers(dps: seq<DataPoint>, keys: seq<string>, k: string)
    ensures forall p :: p in Group(dps, keys, k) ==> p in dps && AggregationKey(p.dimensions, keys) == Some(k)
  {
    if dps != [] {
      GroupMembers(dps[..|dps| - 1], keys, k);
    }
  }

  // ---------------------------------------------------------------------------
  // Reduction of a group

  predicate HasIntValue(g: seq<DataPoint>) {
    exists i :: 0 <= i < |g| && g[i].value.intValue.Some?
  }

  predicate HasDoubleValue(g: seq<DataPoint>) {
    exists i :: 0 <= i < |g| && g[i].value.doubleValue.Some?
  }

  /** The mathematical sum of the integer values present in the group. */
  function IntSum(g: seq<DataPoint>): int {
    if g == [] then 0
    else IntSum(g[..|g| - 1]) + g[|g| - 1].value.intValue.GetOr(0)
  }

  /** The left-to-right floating-point sum, from +0.0, of the double values present in the group. */
  function FloatSum(fa: FloatArith, g: seq<DataPoint>): Float64 {
    if g == [] then FloatZero
    else
      var acc := FloatSum(fa, g[..|g| - 1]);
      var last := g[|g| - 1];
      if last.value.doubleValue.Some? then fa.add(acc, last.value.doubleValue.value) else acc
  }

  /**
   * The value that sum aggregation gives a group: the integer field when some member has an
   * integer (the int64 sum of them), and independently the double field when some member
   * has a double; never a string.
   */
  function SumDatum(fa: FloatArith, g: seq<DataPoint>): Datum {
    Datum(None,
          if HasDoubleValue(g) then Some(FloatSum(fa, g)) else None,
          if HasIntValue(g) then Some(Wrap64(IntSum(g))) else None)
  }

  /** Sum aggregation of integers 5 and 3 and a double x keeps both fields: integer 8, double 0 + x. */
  lemma SumKeepsRepresentationsApart(fa: FloatArith, p: DataPoint, q: DataPoint, r: DataPoint, x: Float64)
    requires p.value == Datum(None, None, Some(5)) && q.value == Datum(None, None, Some(3))
    requires r.value == Datum(None, Some(x), None)
    ensures SumDatum(fa, [p, q, r]) == Datum(None, Some(fa.add(FloatZero, x)), Some(8))
  {
    var g := [p, q, r];
    assert g[..2] == [p, q] && [p, q][..1] == [p] && [p][..0] == [];
    assert IntSum([p]) == 5 && IntSum([p, q]) == 8 && IntSum(g) == 8;
    assert FloatSum(fa, [p]) == FloatZero && FloatSum(fa, [p, q]) == FloatZero;
    assert g[0].value.intValue.Some? && g[2].value.doubleValue.Some?;
  }

  lemma SumStep(fa: FloatArith, g: seq<DataPoint>, i: nat)
    requires i < |g|
    ensures var p, q := g[..i], g[..i + 1];
      && IntSum(q) == IntSum(p) + g[i].value.intValue.GetOr(0)
      && FloatSum(fa, q) == (if g[i].value.doubleValue.Some? then fa.add(FloatSum(fa, p), g[i].value.doubleValue.value)
                             else FloatSum(fa, p))
      && (HasIntValue(q) <==> HasIntValue(p) || g[i].value.intValue.Some?)
      && (HasDoubleValue(q) <==> HasDoubleValue(p) || g[i].value.doubleValue.Some?)
  {
    var p, q := g[..i], g[..i + 1];
    assert q[..i] == p && q[i] == g[i];
    assert forall j :: 0 <= j < i ==> q[j] == p[j];
  }

  /** The sum loop of aggregateDatapoints: int64 and float64 accumulators, each field set once a member has it. */
  method SumValues(fa: FloatArith, g: seq<DataPoint>) returns (value: Datum)
    ensures value == SumDatum(fa, g)
  {
    var intValue: Int64 := 0;
    var floatValue := FloatZero;
    value := Datum(None, None, None);
    for i := 0 to |g|
      invariant intValue == Wrap64(IntSum(g[..i]))
      invariant floatValue == FloatSum(fa, g[..i])
      invariant value == SumDatum(fa, g[..i])
    {
      SumStep(fa, g, i);
      var dp := g[i];
      if dp.value.intValue.Some? {
        WrapAdd(IntSum(g[..i]), dp.value.intValue.value);
        intValue := Wrap64(intValue + dp.value.intValue.value);
        value := value.(intValue := Some(intValue));
      }
      if dp.value.doubleValue.Some? {
        floatValue := fa.add(floatValue, dp.value.doubleValue.value);
        value := value.(doubleValue := Some(floatValue));
      }
    }
    assert g[..|g|] == g;
  }

  /**
   * The one point that aggregation makes of a group: the first member, with its dimensions
   * filtered to the configured keys and its value replaced according to the method.
   */
  function AggregateGroup(fa: FloatArith, g: seq<DataPoint>, keys: seq<string>, aggregation: string): (r: DataPoint)
    requires g != []
    ensures r.source == g[0].source && r.metric == g[0].metric && r.timestamp == g[0].timestamp
    ensures r.dimensions == FilteredDimensions(g[0].dimensions, keys)
    ensures aggregation == AggregationMethodCount ==>
              r.metricType == Some(Gauge) && r.value == Datum(None, None, Some(Wrap64(|g|)))
    ensures aggregation == AggregationMethodSum ==>
              r.metricType == g[0].metricType && r.value == SumDatum(fa, g)
    ensures aggregation != AggregationMethodCount && aggregation != AggregationMethodSum ==>
              r.metricType == g[0].metricType && r.value == g[0].value
  {
    var dp := g[0].(dimensions := FilteredDimensions(g[0].dimensions, keys));
    if aggregation == AggregationMethodCount then
      dp.(metricType := Some(Gauge), value := Datum(None, None, Some(Wrap64(|g|))))
    else if aggregation == AggregationMethodSum then
      dp.(value := SumDatum(fa, g))
    else dp
  }

  /** The aggregated point of the group of key k, when that group is not empty. */
  function AggregatedOf(fa: FloatArith, dps: seq<DataPoint>, keys: seq<string>, aggregation: string, k: string)
    : seq<DataPoint>
  {
    var g := Group(dps, keys, k);
    if g == [] then [] else [AggregateGroup(fa, g, keys, aggregation)]
  }

  /** The aggregated points for a list of group keys, in that order. */
  function AggregatedFor(fa: FloatArith, dps: seq<DataPoint>, keys: seq<string>, aggregation: string, ks: seq<string>)
    : seq<DataPoint>
  {
    if ks == [] then []
    else AggregatedFor(fa, dps, keys, aggregation, ks[..|ks| - 1]) + AggregatedOf(fa, dps, keys, aggregation, ks[|ks| - 1])
  }

  /** aggregateDatapoints, with the groups listed in order of first appearance. */
  function AggregateSpec(fa: FloatArith, dps: seq<DataPoint>, keys: seq<string>, aggregation: string): seq<DataPoint> {
    AggregatedFor(fa, dps, keys, aggregation, GroupKeys(dps, keys))
  }

  lemma {:induction false} AggregatedForAppend(fa: FloatArith, dps: seq<DataPoint>, keys: seq<string>, aggregation: string,
                                               a: seq<string>, b: seq<string>)
    ensures AggregatedFor(fa, dps, keys, aggregation, a + b)
              == AggregatedFor(fa, dps, keys, aggregation, a) + AggregatedFor(fa, dps, keys, aggregation, b)
  {
    if b == [] {
      assert a + b == a;
    } else {
      var b' := b[..|b| - 1];
      assert (a + b)[..|a + b| - 1] == a + b';
      assert (a + b)[|a + b| - 1] == b[|b| - 1];
      AggregatedForAppend(fa, dps, keys, aggregation, a, b');
    }
  }

  /** The aggregated points do not depend on the order in which the groups are visited, up to permutation. */
  lemma {:induction false} AggregatedForPermutation(fa: FloatArith, dps: seq<DataPoint>, keys: seq<string>,
                                                    aggregation: string, a: seq<string>, b: seq<string>)
    requires multiset(a) == multiset(b)
    ensures multiset(AggregatedFor(fa, dps, keys, aggregation, a)) == multiset(AggregatedFor(fa, dps, keys, aggregation, b))
  {
    if a != [] {
      var x := a[|a| - 1];
      var a' := a[..|a| - 1];
      assert a == a' + [x];
      assert x in multiset(b);
      var j :| 0 <= j < |b| && b[j] == x;
      var b1, b2 := b[..j], b[j + 1..];
      RemoveOne(b, j);
      assert multiset(a') == multiset(a) - multiset{x};
      AggregatedForPermutation(fa, dps, keys, aggregation, a', b1 + b2);
      AggregatedForAppend(fa, dps, keys, aggregation, a', [x]);
      AggregatedForMiddle(fa, dps, keys, aggregation, b1, x, b2);
    }
  }

  /** Taking one element out of a sequence takes it out of its multiset. */
  lemma RemoveOne<T>(b: seq<T>, j: int)
    requires 0 <= j < |b|
    ensures b == b[..j] + [b[j]] + b[j + 1..]
    ensures multiset(b[..j] + b[j + 1..]) == multiset(b) - multiset{b[j]}
  {
    assert b == b[..j] + [b[j]] + b[j + 1..];
    assert multiset(b) == multiset(b[..j]) + multiset{b[j]} + multiset(b[j + 1..]);
  }

  /** Aggregating over a key list with one key in the middle gives that key's points plus the rest. */
  lemma AggregatedForMiddle(fa: FloatArith, dps: seq<DataPoint>, keys: seq<string>, aggregation: string,
                            b1: seq<string>, x: string, b2: seq<string>)
    ensures multiset(AggregatedFor(fa, dps, keys, aggregation, b1 + [x] + b2))
              == multiset(AggregatedFor(fa, dps, keys, aggregation, b1 + b2)) + multiset(AggregatedFor(fa, dps, keys, aggregation, [x]))
  {
    AggregatedForAppend(fa, dps, keys, aggregation, b1, b2);
    AggregatedForAppend(fa, dps, keys, aggregation, b1 + [x], b2);
    AggregatedForAppend(fa, dps, keys, aggregation, b1, [x]);
  }

  /** Aggregation gives exactly one point per group key. */
  lemma {:induction false} AggregateSpecLength(fa: FloatArith, dps: seq<DataPoint>, keys: seq<string>, aggregation: string,
                                               ks: seq<string>)
    requires forall k :: k in ks ==> k in GroupKeys(dps, keys)
    ensures |AggregatedFor(fa, dps, keys, aggregation, ks)| == |ks|
  {
    if ks != [] {
      AggregateSpecLength(fa, dps, keys, aggregation, ks[..|ks| - 1]);
      GroupKeysNonEmpty(dps, keys, ks[|ks| - 1]);
    }
  }

  lemma SingleKeyGroups(dps: seq<DataPoint>, keys: seq<string>, k: string)
    requires dps != []
    requires forall i :: 0 <= i < |dps| ==> AggregationKey(dps[i].dimensions, keys) == Some(k)
    ensures GroupKeys(dps, keys) == [k] && Group(dps, keys, k) == dps
  {
    SingleKeyGroupKeys(dps, keys, k);
    SingleKeyGroup(dps, keys, k);
  }

  lemma {:induction false} SingleKeyGroupKeys(dps: seq<DataPoint>, keys: seq<string>, k: string)
    requires dps != []
    requires forall i :: 0 <= i < |dps| ==> AggregationKey(dps[i].dimensions, keys) == Some(k)
    ensures GroupKeys(dps, keys) == [k]
  {
    var p := dps[..|dps| - 1];
    assert AggregationKey(dps[|dps| - 1].dimensions, keys) == Some(k);
    if p == [] {
      assert GroupKeys(p, keys) == [];
    } else {
      forall i | 0 <= i < |p| ensures AggregationKey(p[i].dimensions, keys) == Some(k) {
        assert p[i] == dps[i];
      }
      SingleKeyGroupKeys(p, keys, k);
    }
  }

  lemma {:induction false} SingleKeyGroup(dps: seq<DataPoint>, keys: seq<string>, k: string)
    requires forall i :: 0 <= i < |dps| ==> AggregationKey(dps[i].dimensions, keys) == Some(k)
    ensures Group(dps, keys, k) == dps
  {
    if dps != [] {
      var p := dps[..|dps| - 1];
      var last := dps[|dps| - 1];
      assert AggregationKey(last.dimensions, keys) == Some(k);
      forall i | 0 <= i < |p| ensures AggregationKey(p[i].dimensions, keys) == Some(k) {
        assert p[i] == dps[i];
      }
      SingleKeyGroup(p, keys, k);
      assert p + [last] == dps;
    }
  }

  /** The aggregated points for a list of group keys hold, position by position, the reduction of each key's group. */
  lemma {:induction false} AggregatedForGroups(fa: FloatArith, dps: seq<DataPoint>, keys: seq<string>, aggregation: string,
                                               ks: seq<string>)
    requires forall k :: k in ks ==> k in GroupKeys(dps, keys)
    ensures |AggregatedFor(fa, dps, keys, aggregation, ks)| == |ks|
    ensures forall j :: 0 <= j < |ks| ==>
              && Group(dps, keys, ks[j]) != []
              && AggregatedFor(fa, dps, keys, aggregation, ks)[j] == AggregateGroup(fa, Group(dps, keys, ks[j]), keys, aggregation)
  {
    if ks != [] {
      var ks' := ks[..|ks| - 1];
      AggregatedForGroups(fa, dps, keys, aggregation, ks');
      forall j | 0 <= j < |ks| ensures Group(dps, keys, ks[j]) != [] {
        GroupKeysNonEmpty(dps, keys, ks[j]);
      }
    }
  }

  /**
   * Aggregation makes one point per group, in group-key order: the point for the j-th key is
   * the reduction of that key's group, which holds exactly the batch points carrying that key.
   * So with the count method every group becomes a gauge whose integer is the group's size,
   * and with the sum method every group's value is the sum of its members' values.
   */
  lemma AggregateSpecGroups(fa: FloatArith, dps: seq<DataPoint>, keys: seq<string>, aggregation: string)
    ensures |AggregateSpec(fa, dps, keys, aggregation)| == |GroupKeys(dps, keys)|
    ensures forall j :: 0 <= j < |GroupKeys(dps, keys)| ==>
              var g := Group(dps, keys, GroupKeys(dps, keys)[j]);
              g != [] && AggregateSpec(fa, dps, keys, aggregation)[j] == AggregateGroup(fa, g, keys, aggregation)
    ensures forall k :: k in GroupKeys(dps, keys) ==>
              AggregateGroup(fa, Group(dps, keys, k), keys, aggregation) in AggregateSpec(fa, dps, keys, aggregation)
    ensures aggregation == AggregationMethodCount ==>
              forall j :: 0 <= j < |GroupKeys(dps, keys)| ==>
                var r := AggregateSpec(fa, dps, keys, aggregation)[j];
                r.metricType == Some(Gauge)
                && r.value == Datum(None, None, Some(Wrap64(|Group(dps, keys, GroupKeys(dps, keys)[j])|)))
  {
    var ks := GroupKeys(dps, keys);
    AggregatedForGroups(fa, dps, keys, aggregation, ks);
    forall k | k in ks
      ensures AggregateGroup(fa, Group(dps, keys, k), keys, aggregation) in AggregateSpec(fa, dps, keys, aggregation)
    {
      var j :| 0 <= j < |ks| && ks[j] == k;
      assert AggregateSpec(fa, dps, keys, aggregation)[j] == AggregateGroup(fa, Group(dps, keys, k), keys, aggregation);
    }
  }

  /**
   * Count aggregation of N points that share one aggregation key yields exactly one point,
   * a gauge with integer value N, built from the first point.
   */
  lemma CountSingleGroup(fa: FloatArith, dps: seq<DataPoint>, keys: seq<string>, k: string)
    requires dps != [] && |dps| < TwoTo63
    requires forall i :: 0 <= i < |dps| ==> AggregationKey(dps[i].dimensions, keys) == Some(k)
    ensures |AggregateSpec(fa, dps, keys, AggregationMethodCount)| == 1
    ensures var r := AggregateSpec(fa, dps, keys, AggregationMethodCount)[0];
      && r.value == Datum(None, None, Some(|dps|)) && r.metricType == Some(Gauge)
      && r.metric == dps[0].metric && r.dimensions == FilteredDimensions(dps[0].dimensions, keys)
  {
    SingleKeyGroups(dps, keys, k);
    assert [k][..0] == [];
    assert AggregatedFor(fa, dps, keys, AggregationMethodCount, [k])
      == AggregatedFor(fa, dps, keys, AggregationMethodCount, []) + AggregatedOf(fa, dps, keys, AggregationMethodCount, k);
  }

  /**
   * Aggregation drops exactly the points that lack a configured dimension: every point that
   * carries all of them belongs to a group and so is counted in one output point, and every
   * member of a group carries all of them.
   */
  lemma AggregationDropsIncomplete(dps: seq<DataPoint>, keys: seq<string>, i: nat)
    requires i < |dps|
    ensures (forall j :: 0 <= j < |keys| ==> HasKey(dps[i].dimensions, keys[j])) <==>
              exists k :: k in GroupKeys(dps, keys) && dps[i] in Group(dps, keys, k)
    ensures forall k, p :: k in GroupKeys(dps, keys) && p in Group(dps, keys, k) ==>
              forall j :: 0 <= j < |keys| ==> HasKey(p.dimensions, keys[j])
  {
    AggregationKeyDefined(dps[i].dimensions, keys);
    var key := AggregationKey(dps[i].dimensions, keys);
    if key.Some? {
      GroupKeysFromPoints(dps, keys, key.value);
      GroupContains(dps, keys, i);
    }
    forall k, p | k in GroupKeys(dps, keys) && p in Group(dps, keys, k)
      ensures forall j :: 0 <= j < |keys| ==> HasKey(p.dimensions, keys[j])
    {
      GroupMembers(dps, keys, k);
      AggregationKeyDefined(p.dimensions, keys);
    }
    if exists k :: k in GroupKeys(dps, keys) && dps[i] in Group(dps, keys, k) {
      var k :| k in GroupKeys(dps, keys) && dps[i] in Group(dps, keys, k);
      GroupMembers(dps, keys, k);
    }
  }

  lemma {:induction false} GroupContains(dps: seq<DataPoint>, keys: seq<string>, i: nat)
    requires i < |dps| && AggregationKey(dps[i].dimensions, keys).Some?
    ensures dps[i] in Group(dps, keys, AggregationKey(dps[i].dimensions, keys).value)
  {
    var p := dps[..|dps| - 1];
    if i < |p| {
      assert p[i] == dps[i];
      GroupContains(p, keys, i);
    }
  }

  lemma {:induction false} DistinctMultiset(s: seq<string>)
    requires Distinct(s)
    ensures multiset(s) == multiset(set x | x in s)
  {
    if s != [] {
      var p := s[..|s| - 1];
      var x := s[|s| - 1];
      assert s == p + [x];
      DistinctMultiset(p);
      assert x !in p;
      assert (set y | y in s) == (set y | y in p) + {x};
    }
  }

  lemma GroupingStep(dps: seq<DataPoint>, keys: seq<string>, i: nat)
    requires i < |dps|
    ensures var p, q := dps[..i], dps[..i + 1];
      var k := AggregationKey(dps[i].dimensions, keys);
      && GroupKeys(q, keys) == GroupKeys(p, keys) + (if k.Some? && k.value !in GroupKeys(p, keys) then [k.value] else [])
      && forall x :: Group(q, keys, x) == Group(p, keys, x) + (if k == Some(x) then [dps[i]] else [])
  {
    assert dps[..i + 1][..i] == dps[..i];
  }

  /** The grouping loop of aggregateDatapoints: a map from aggregation key to the points with that key, in batch order. */
  method GroupByKey(dps: seq<DataPoint>, keys: seq<string>) returns (dimValuesToDps: map<string, seq<DataPoint>>)
    ensures dimValuesToDps.Keys == set x | x in GroupKeys(dps, keys)
    ensures forall x :: x in dimValuesToDps ==> dimValuesToDps[x] == Group(dps, keys, x)
  {
    dimValuesToDps := map[];
    for i := 0 to |dps|
      invariant forall x :: x in dimValuesToDps <==> x in GroupKeys(dps[..i], keys)
      invariant forall x :: x in dimValuesToDps ==> dimValuesToDps[x] == Group(dps[..i], keys, x)
    {
      GroupingStep(dps, keys, i);
      var aggregationKey := GetAggregationKey(dps[i].dimensions, keys);
      if aggregationKey.None? {
        continue;
      }
      var k := aggregationKey.value;
      if k !in dimValuesToDps {
        GroupKeysNonEmpty(dps[..i], keys, k);
        dimValuesToDps := dimValuesToDps[k := []];
      }
      dimValuesToDps := dimValuesToDps[k := dimValuesToDps[k] + [dps[i]]];
    }
    assert dps[..|dps|] == dps;
    assert dimValuesToDps.Keys == set x | x in GroupKeys(dps, keys);
  }

  /** The body of the result loop of aggregateDatapoints: one aggregated point for one group. */
  method AggregateOne(fa: FloatArith, group: seq<DataPoint>, keys: seq<string>, aggregation: string) returns (dp: DataPoint)
    requires group != []
    ensures dp == AggregateGroup(fa, group, keys, aggregation)
  {
    dp := group[0];
    var dims := FilterDimensions(dp.dimensions, keys);
    dp := dp.(dimensions := dims);
    if aggregation == AggregationMethodCount {
      dp := dp.(metricType := Some(Gauge), value := Datum(None, None, Some(Wrap64(|group|))));
    } else if aggregation == AggregationMethodSum {
      var value := SumValues(fa, group);
      dp := dp.(value := value);
    }
  }

  /**
   * The result loop of aggregateDatapoints: the groups are visited in Go's map iteration
   * order, which the model leaves open (any key not yet visited may come next).
   */
  method ReduceGroups(fa: FloatArith, dps: seq<DataPoint>, keys: seq<string>, aggregation: string,
                      dimValuesToDps: map<string, seq<DataPoint>>)
    returns (result: seq<DataPoint>, ghost order: seq<string>)
    requires dimValuesToDps.Keys == set x | x in GroupKeys(dps, keys)
    requires forall x :: x in dimValuesToDps ==> dimValuesToDps[x] == Group(dps, keys, x)
    ensures multiset(order) == multiset(GroupKeys(dps, keys))
    ensures result == AggregatedFor(fa, dps, keys, aggregation, order)
  {
    GroupKeysDistinct(dps, keys);
    DistinctMultiset(GroupKeys(dps, keys));
    result := [];
    var remaining := dimValuesToDps.Keys;
    order := [];
    while remaining != {}
      invariant remaining <= dimValuesToDps.Keys
      invariant multiset(order) + multiset(remaining) == multiset(GroupKeys(dps, keys))
      invariant result == AggregatedFor(fa, dps, keys, aggregation, order)
      decreases remaining
    {
      var k :| k in remaining;
      var group := dimValuesToDps[k];
      assert group == Group(dps, keys, k);
      assert k in GroupKeys(dps, keys);
      GroupKeysNonEmpty(dps, keys, k);
      var dp := AggregateOne(fa, group, keys, aggregation);
      ReduceStep(fa, dps, keys, aggregation, order, remaining, k, dp);
      result := result + [dp];
      order := order + [k];
      remaining := remaining - {k};
    }
  }

  /** One visit of the result loop: the visited key moves from the remaining set to the order, and its point is appended. */
  lemma ReduceStep(fa: FloatArith, dps: seq<DataPoint>, keys: seq<string>, aggregation: string,
                   order: seq<string>, remaining: set<string>, k: string, dp: DataPoint)
    requires k in remaining
    requires multiset(order) + multiset(remaining) == multiset(GroupKeys(dps, keys))
    requires Group(dps, keys, k) != [] && dp == AggregateGroup(fa, Group(dps, keys, k), keys, aggregation)
    ensures multiset(order + [k]) + multiset(remaining - {k}) == multiset(GroupKeys(dps, keys))
    ensures AggregatedFor(fa, dps, keys, aggregation, order + [k]) == AggregatedFor(fa, dps, keys, aggregation, order) + [dp]
  {
    assert AggregatedOf(fa, dps, keys, aggregation, k) == [dp];
    assert (order + [k])[..|order|] == order;
    SetRemoveMultiset(remaining, k);
  }

  lemma SetRemoveMultiset(s: set<string>, k: string)
    requires k in s
    ensures multiset(s) == multiset(s - {k}) + multiset{k}
  {
    assert s == (s - {k}) + {k};
  }

  /**
   * aggregateDatapoints as the source runs it: the points are grouped in a map by aggregation
   * key (points without one are dropped), then the map is visited in an order the model does
   * not fix, one aggregated point per group. The result is the groups' aggregated points in
   * some order: a permutation of AggregateSpec.
   */
  method AggregateDatapoints(fa: FloatArith, dps: seq<DataPoint>, keys: seq<string>, aggregation: string)
    returns (result: seq<DataPoint>)
    ensures multiset(result) == multiset(AggregateSpec(fa, dps, keys, aggregation))
    ensures |result| == |GroupKeys(dps, keys)|
  {
    if |dps| == 0 {
      return [];
    }
    var dimValuesToDps := GroupByKey(dps, keys);
    ghost var order;
    result, order := ReduceGroups(fa, dps, keys, aggregation, dimValuesToDps);
    AggregatedForPermutation(fa, dps, keys, aggregation, order, GroupKeys(dps, keys));
    assert |result| == |AggregateSpec(fa, dps, keys, aggregation)| by {
      assert |multiset(result)| == |result|;
    }
    AggregateSpecLength(fa, dps, keys, aggregation, GroupKeys(dps, keys));
  }
}
