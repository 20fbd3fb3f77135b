/**
 * The span-grouping loop of the Datadog trace exporter (exporter.go): every span of the
 * incoming traces is converted and appended to the trace of its trace ID; traces are
 * listed in order of the first appearance of their ID.
 */
module DdExporter {
  import opened Wrappers
  import opened Numeric
  import opened DdSpan

  /** The OpenTelemetry input, nil entries included. */
  datatype InstrumentationLibrarySpans = InstrumentationLibrarySpans(spans: seq<Option<PdataSpan>>)
  datatype ResourceSpans = ResourceSpans(libraries: seq<Option<InstrumentationLibrarySpans>>)

  // ---------------------------------------------------------------------------
  // The spans the loop visits, in visiting order

  function SpansOf(spans: seq<Option<PdataSpan>>): seq<PdataSpan> {
    if spans == [] then []
    else
      var last := spans[|spans| - 1];
      SpansOf(spans[..|spans| - 1]) + (if last.Some? then [last.value] else [])
  }

  function LibrarySpans(libs: seq<Option<InstrumentationLibrarySpans>>): seq<PdataSpan> {
    if libs == [] then []
    else
      var last := libs[|libs| - 1];
      LibrarySpans(libs[..|libs| - 1]) + (if last.Some? then SpansOf(last.value.spans) else [])
  }

  /** The non-nil spans under non-nil resource and library entries, in order. */
  function AllSpans(td: seq<Option<ResourceSpans>>): seq<PdataSpan> {
    if td == [] then []
    else
      var last := td[|td| - 1];
      AllSpans(td[..|td| - 1]) + (if last.Some? then LibrarySpans(last.value.libraries) else [])
  }

  lemma {:induction false} SpansOfMember(spans: seq<Option<PdataSpan>>, k: nat)
    requires k < |spans| && spans[k].Some?
    ensures spans[k].value in SpansOf(spans)
  {
    if k < |spans| - 1 {
      SpansOfMember(spans[..|spans| - 1], k);
    }
  }

  lemma {:induction false} LibrarySpansMember(libs: seq<Option<InstrumentationLibrarySpans>>, j: nat, s: PdataSpan)
    requires j < |libs| && libs[j].Some? && s in SpansOf(libs[j].value.spans)
    ensures s in LibrarySpans(libs)
  {
    if j < |libs| - 1 {
      LibrarySpansMember(libs[..|libs| - 1], j, s);
    }
  }

  lemma {:induction false} AllSpansMember(td: seq<Option<ResourceSpans>>, i: nat, s: PdataSpan)
    requires i < |td| && td[i].Some? && s in LibrarySpans(td[i].value.libraries)
    ensures s in AllSpans(td)
  {
    if i < |td| - 1 {
      AllSpansMember(td[..|td| - 1], i, s);
    }
  }

  lemma SpansOfStep(spans: seq<Option<PdataSpan>>, k: nat)
    requires k < |spans|
    ensures SpansOf(spans[..k + 1]) == SpansOf(spans[..k]) + (if spans[k].Some? then [spans[k].value] else [])
  {
    assert spans[..k + 1][..k] == spans[..k];
  }

  lemma LibrarySpansStep(libs: seq<Option<InstrumentationLibrarySpans>>, j: nat)
    requires j < |libs|
    ensures LibrarySpans(libs[..j + 1]) == LibrarySpans(libs[..j]) + (if libs[j].Some? then SpansOf(libs[j].value.spans) else [])
  {
    assert libs[..j + 1][..j] == libs[..j];
  }

  lemma AllSpansStep(td: seq<Option<ResourceSpans>>, i: nat)
    requires i < |td|
    ensures AllSpans(td[..i + 1]) == AllSpans(td[..i]) + (if td[i].Some? then LibrarySpans(td[i].value.libraries) else [])
  {
    assert td[..i + 1][..i] == td[..i];
  }

  lemma AppendAssoc(a: seq<PdataSpan>, b: seq<PdataSpan>, c: seq<PdataSpan>)
    ensures (a + b) + c == a + (b + c)
  {
  }

  /** The converted spans, in order. */
  function Converted(fa: FloatArith, serviceName: string, spans: seq<PdataSpan>): (r: seq<SpanRecord>)
    requires forall s :: s in spans ==> WellFormedIds(s)
    ensures |r| == |spans|
  {
    if spans == [] then []
    else Converted(fa, serviceName, spans[..|spans| - 1]) + [ConvertSpanSpec(fa, serviceName, spans[|spans| - 1])]
  }

  // ---------------------------------------------------------------------------
  // Grouping by trace ID

  /** The distinct trace IDs, in order of first appearance. */
  function TraceIds(recs: seq<SpanRecord>): seq<UInt64> {
    if recs == [] then []
    else
      var p := TraceIds(recs[..|recs| - 1]);
      var id := recs[|recs| - 1].traceId;
      p + (if id in p then [] else [id])
  }

  /** The spans with trace ID id, in their order. */
  function WithTraceId(recs: seq<SpanRecord>, id: UInt64): seq<SpanRecord> {
    if recs == [] then []
    else
      var last := recs[|recs| - 1];
      WithTraceId(recs[..|recs| - 1], id) + (if last.traceId == id then [last] else [])
  }

  /** The traces: one per distinct trace ID, in order of first appearance, each in span order. */
  function GroupByTraceId(recs: seq<SpanRecord>): (r: seq<seq<SpanRecord>>)
    ensures |r| == |TraceIds(recs)|
  {
    var ids := TraceIds(recs);
    seq(|ids|, i requires 0 <= i < |ids| => WithTraceId(recs, ids[i]))
  }

  lemma {:induction false} TraceIdsExactly(recs: seq<SpanRecord>)
    ensures forall i, j :: 0 <= i < j < |TraceIds(recs)| ==> TraceIds(recs)[i] != TraceIds(recs)[j]
    ensures forall id :: id in TraceIds(recs) <==> exists k :: 0 <= k < |recs| && recs[k].traceId == id
  {
    if recs != [] {
      var p := recs[..|recs| - 1];
      TraceIdsExactly(p);
      assert forall k :: 0 <= k < |p| ==> p[k] == recs[k];
    }
  }

  lemma {:induction false} WithTraceIdEmpty(recs: seq<SpanRecord>, id: UInt64)
    requires id !in TraceIds(recs)
    ensures WithTraceId(recs, id) == []
  {
    if recs != [] {
      var p := recs[..|recs| - 1];
      assert TraceIds(p) <= TraceIds(recs);
      WithTraceIdEmpty(p, id);
    }
  }

  lemma {:induction false} WithTraceIdMembers(recs: seq<SpanRecord>, id: UInt64)
    ensures forall r :: r in WithTraceId(recs, id) ==> r in recs && r.traceId == id
  {
    if recs != [] {
      WithTraceIdMembers(recs[..|recs| - 1], id);
    }
  }

  /** How the grouping changes when one more span arrives: it joins its trace, or opens a new one at the end. */
  lemma GroupingStep(recs: seq<SpanRecord>, r: SpanRecord)
    ensures var ids, ids' := TraceIds(recs), TraceIds(recs + [r]);
      var g, g' := GroupByTraceId(recs), GroupByTraceId(recs + [r]);
      && (r.traceId in ids ==> ids' == ids && exists k :: 0 <= k < |ids| && ids[k] == r.traceId && g' == g[k := g[k] + [r]])
      && (r.traceId !in ids ==> ids' == ids + [r.traceId] && g' == g + [[r]])
  {
    var rs := recs + [r];
    assert rs[..|recs|] == recs;
    var ids := TraceIds(recs);
    TraceIdsExactly(recs);
    if r.traceId in ids {
      var k :| 0 <= k < |ids| && ids[k] == r.traceId;
      var g, g' := GroupByTraceId(recs), GroupByTraceId(rs);
      forall i | 0 <= i < |ids| ensures g'[i] == g[k := g[k] + [r]][i] {
        assert WithTraceId(rs, ids[i]) == WithTraceId(recs, ids[i]) + (if r.traceId == ids[i] then [r] else []);
      }
    } else {
      WithTraceIdEmpty(recs, r.traceId);
      var g, g' := GroupByTraceId(recs), GroupByTraceId(rs);
      forall i | 0 <= i < |ids| ensures g'[i] == g[i] {
        assert WithTraceId(rs, ids[i]) == WithTraceId(recs, ids[i]) + (if r.traceId == ids[i] then [r] else []);
      }
      assert g'[|ids|] == WithTraceId(rs, r.traceId) == [r];
    }
  }

  /** All spans of a trace share its trace ID, and different traces have different trace IDs. */
  lemma TracesByTraceId(recs: seq<SpanRecord>)
    ensures var g := GroupByTraceId(recs);
      && (forall i :: 0 <= i < |g| ==> g[i] != [] && forall s :: s in g[i] ==> s in recs && s.traceId == g[i][0].traceId)
      && (forall i, j :: 0 <= i < j < |g| ==> g[i][0].traceId != g[j][0].traceId)
  {
    var ids := TraceIds(recs);
    var g: seq<seq<SpanRecord>> := GroupByTraceId(recs);
    TraceIdsExactly(recs);
    forall i | 0 <= i < |g|
      ensures g[i] != [] && g[i][0].traceId == ids[i] && forall s :: s in g[i] ==> s in recs && s.traceId == ids[i]
    {
      WithTraceIdMembers(recs, ids[i]);
      assert ids[i] in ids;
      var k :| 0 <= k < |recs| && recs[k].traceId == ids[i];
      WithTraceIdContains(recs, ids[i], k);
    }
  }

  lemma {:induction false} WithTraceIdContains(recs: seq<SpanRecord>, id: UInt64, k: nat)
    requires k < |recs| && recs[k].traceId == id
    ensures recs[k] in WithTraceId(recs, id)
  {
    if k < |recs| - 1 {
      WithTraceIdContains(recs[..|recs| - 1], id, k);
    }
  }

  /**
   * Traces are listed in the order in which their trace IDs first appear: every span of a
   * later trace comes after some span of each earlier trace.
   */
  lemma {:induction false} TraceIdsInFirstAppearanceOrder(recs: seq<SpanRecord>, i: nat, j: nat)
    requires i < j < |TraceIds(recs)|
    ensures forall b :: 0 <= b < |recs| && recs[b].traceId == TraceIds(recs)[j] ==>
              exists a :: 0 <= a < b && recs[a].traceId == TraceIds(recs)[i]
  {
    var n := |recs|;
    var p := recs[..n - 1];
    var ids := TraceIds(recs);
    TraceIdsExactly(p);
    assert forall k :: 0 <= k < |p| ==> p[k] == recs[k];
    assert ids[i] in TraceIds(p);
    var a :| 0 <= a < |p| && p[a].traceId == ids[i];
    if j < |TraceIds(p)| {
      TraceIdsInFirstAppearanceOrder(p, i, j);
    } else {
      assert ids[j] !in TraceIds(p);
    }
    forall b | 0 <= b < n && recs[b].traceId == ids[j]
      ensures exists a :: 0 <= a < b && recs[a].traceId == ids[i]
    {
      if b < n - 1 {
        assert p[b].traceId == ids[j];
      } else {
        assert recs[a].traceId == ids[i];
      }
    }
  }

  /** Every span lands in exactly one trace: the traces, put together, hold each span as often as the input does. */
  lemma {:induction false} EverySpanOnce(recs: seq<SpanRecord>)
    ensures multiset(Flatten(GroupByTraceId(recs))) == multiset(recs)
  {
    if recs != [] {
      var p := recs[..|recs| - 1];
      var r := recs[|recs| - 1];
      EverySpanOnce(p);
      GroupingStep(p, r);
      assert recs == p + [r];
      var g := GroupByTraceId(p);
      if r.traceId in TraceIds(p) {
        var k :| 0 <= k < |TraceIds(p)| && TraceIds(p)[k] == r.traceId && GroupByTraceId(recs) == g[k := g[k] + [r]];
        FlattenUpdate(g, k, r);
      } else {
        FlattenAppend(g, [r]);
      }
    }
  }

  function Flatten(g: seq<seq<SpanRecord>>): seq<SpanRecord> {
    if g == [] then [] else Flatten(g[..|g| - 1]) + g[|g| - 1]
  }

  lemma {:induction false} FlattenAppend(g: seq<seq<SpanRecord>>, t: seq<SpanRecord>)
    ensures Flatten(g + [t]) == Flatten(g) + t
  {
    assert (g + [t])[..|g|] == g;
  }

  lemma {:induction false} FlattenUpdate(g: seq<seq<SpanRecord>>, k: nat, r: SpanRecord)
    requires k < |g|
    ensures multiset(Flatten(g[k := g[k] + [r]])) == multiset(Flatten(g)) + multiset{r}
  {
    var n := |g|;
    var p := g[..n - 1];
    var g' := g[k := g[k] + [r]];
    if k == n - 1 {
      assert g'[..n - 1] == p;
    } else {
      FlattenUpdate(p, k, r);
      assert g'[..n - 1] == p[k := p[k] + [r]];
    }
  }

  // ---------------------------------------------------------------------------
  // The loop

  /**
   * The span-grouping loop of the exporter's push function: the nil entries at each level
   * are skipped, each span is converted, and a map from trace ID to position finds or opens
   * its trace. No span is dropped, since the conversion never fails.
   */
  method GroupSpans(fa: FloatArith, serviceName: string, td: seq<Option<ResourceSpans>>)
    returns (traces: seq<seq<SpanRecord>>, totalDroppedSpans: int)
    requires forall s :: s in AllSpans(td) ==> WellFormedIds(s)
    ensures totalDroppedSpans == 0
    ensures traces == GroupByTraceId(Converted(fa, serviceName, AllSpans(td)))
  {
    totalDroppedSpans := 0;
    var traceIDToIndex: map<UInt64, nat> := map[];
    traces := [];
    ghost var visited: seq<PdataSpan> := [];
    ghost var recs: seq<SpanRecord> := [];
    for i := 0 to |td|
      invariant visited == AllSpans(td[..i])
      invariant Grouped(fa, serviceName, visited, recs, traces, traceIDToIndex)
    {
      AllSpansStep(td, i);
      var rspans := td[i];
      if rspans.None? {
        assert visited + [] == visited;
        continue;
      }
      var libs := rspans.value.libraries;
      forall s | s in LibrarySpans(libs) ensures WellFormedIds(s) {
        AllSpansMember(td, i, s);
      }
      traces, traceIDToIndex, recs := GroupResourceSpans(fa, serviceName, libs, traces, traceIDToIndex, visited, recs);
      visited := visited + LibrarySpans(libs);
    }
    assert td[..|td|] == td;
  }

  /** The spans converted so far, their records, and the traces and index built from those records. */
  ghost predicate Grouped(fa: FloatArith, serviceName: string, visited: seq<PdataSpan>, recs: seq<SpanRecord>,
                          traces: seq<seq<SpanRecord>>, traceIDToIndex: map<UInt64, nat>) {
    && (forall s :: s in visited ==> WellFormedIds(s))
    && recs == Converted(fa, serviceName, visited)
    && GroupState(traces, traceIDToIndex, recs)
  }

  /** The loop over the library entries of one resource entry, nil entries skipped. */
  method GroupResourceSpans(fa: FloatArith, serviceName: string, libs: seq<Option<InstrumentationLibrarySpans>>,
                            traces: seq<seq<SpanRecord>>, traceIDToIndex: map<UInt64, nat>,
                            ghost visited: seq<PdataSpan>, ghost recs: seq<SpanRecord>)
    returns (traces': seq<seq<SpanRecord>>, traceIDToIndex': map<UInt64, nat>, ghost recs': seq<SpanRecord>)
    requires forall s :: s in LibrarySpans(libs) ==> WellFormedIds(s)
    requires Grouped(fa, serviceName, visited, recs, traces, traceIDToIndex)
    ensures Grouped(fa, serviceName, visited + LibrarySpans(libs), recs', traces', traceIDToIndex')
  {
    traces', traceIDToIndex', recs' := traces, traceIDToIndex, recs;
    ghost var v := visited;
    for j := 0 to |libs|
      invariant v == visited + LibrarySpans(libs[..j])
      invariant Grouped(fa, serviceName, v, recs', traces', traceIDToIndex')
    {
      LibrarySpansStep(libs, j);
      var ispans := libs[j];
      if ispans.None? {
        assert LibrarySpans(libs[..j]) + [] == LibrarySpans(libs[..j]);
        continue;
      }
      var spans := ispans.value.spans;
      forall s | s in SpansOf(spans) ensures WellFormedIds(s) {
        LibrarySpansMember(libs, j, s);
      }
      traces', traceIDToIndex', recs' := GroupLibrarySpans(fa, serviceName, spans, traces', traceIDToIndex', v, recs');
      AppendAssoc(visited, LibrarySpans(libs[..j]), SpansOf(spans));
      v := v + SpansOf(spans);
    }
    assert libs[..|libs|] == libs;
  }

  /** The loop over the spans of one library entry: each non-nil span is converted and added to its trace. */
  method GroupLibrarySpans(fa: FloatArith, serviceName: string, spans: seq<Option<PdataSpan>>,
                           traces: seq<seq<SpanRecord>>, traceIDToIndex: map<UInt64, nat>,
                           ghost visited: seq<PdataSpan>, ghost recs: seq<SpanRecord>)
    returns (traces': seq<seq<SpanRecord>>, traceIDToIndex': map<UInt64, nat>, ghost recs': seq<SpanRecord>)
    requires forall s :: s in SpansOf(spans) ==> WellFormedIds(s)
    requires Grouped(fa, serviceName, visited, recs, traces, traceIDToIndex)
    ensures Grouped(fa, serviceName, visited + SpansOf(spans), recs', traces', traceIDToIndex')
  {
    traces', traceIDToIndex', recs' := traces, traceIDToIndex, recs;
    ghost var v := visited;
    for k := 0 to |spans|
      invariant v == visited + SpansOf(spans[..k])
      invariant Grouped(fa, serviceName, v, recs', traces', traceIDToIndex')
    {
      SpansOfStep(spans, k);
      var span := spans[k];
      if span.None? {
        assert SpansOf(spans[..k]) + [] == SpansOf(spans[..k]);
        continue;
      }
      SpansOfMember(spans, k);
      var ddspan := ConvertSpan(fa, serviceName, span.value);
      traces', traceIDToIndex' := AddToTrace(traces', traceIDToIndex', recs', ddspan.Snapshot());
      ConvertedSnoc(fa, serviceName, v, span.value);
      AppendAssoc(visited, SpansOf(spans[..k]), [span.value]);
      v := v + [span.value];
      recs' := recs' + [ddspan.Snapshot()];
    }
    assert spans[..|spans|] == spans;
  }

  /**
   * The lookup of a converted span's trace: the trace ID's position in the map, or a new
   * empty trace at the end whose position the map records; the span is appended to it.
   */
  method AddToTrace(traces: seq<seq<SpanRecord>>, traceIDToIndex: map<UInt64, nat>, ghost recs: seq<SpanRecord>,
                    ddspan: SpanRecord)
    returns (traces': seq<seq<SpanRecord>>, traceIDToIndex': map<UInt64, nat>)
    requires GroupState(traces, traceIDToIndex, recs)
    ensures GroupState(traces', traceIDToIndex', recs + [ddspan])
  {
    GroupingStep(recs, ddspan);
    TraceIdsExactly(recs);
    traceIDToIndex' := traceIDToIndex;
    traces' := traces;
    var traceIndex: nat;
    if ddspan.traceId in traceIDToIndex {
      traceIndex := traceIDToIndex[ddspan.traceId];
    } else {
      traceIndex := |traces|;
      traceIDToIndex' := traceIDToIndex[ddspan.traceId := traceIndex];
      traces' := traces + [[]];
    }
    traces' := traces'[traceIndex := traces'[traceIndex] + [ddspan]];
  }

  lemma ConvertedSnoc(fa: FloatArith, serviceName: string, spans: seq<PdataSpan>, s: PdataSpan)
    requires forall x :: x in spans ==> WellFormedIds(x)
    requires WellFormedIds(s)
    ensures forall x :: x in spans + [s] ==> WellFormedIds(x)
    ensures Converted(fa, serviceName, spans + [s]) == Converted(fa, serviceName, spans) + [ConvertSpanSpec(fa, serviceName, s)]
  {
    assert (spans + [s])[..|spans|] == spans;
  }

  /** The loop's state: the traces of the spans converted so far, and the index of each trace ID. */
  ghost predicate GroupState(traces: seq<seq<SpanRecord>>, traceIDToIndex: map<UInt64, nat>, recs: seq<SpanRecord>) {
    var ids := TraceIds(recs);
    && traces == GroupByTraceId(recs)
    && (forall id :: id in traceIDToIndex <==> id in ids)
    && (forall id :: id in traceIDToIndex ==> traceIDToIndex[id] < |ids| && ids[traceIDToIndex[id]] == id)
  }
}
