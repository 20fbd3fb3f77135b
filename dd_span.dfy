/**
 * Conversion of an OpenTelemetry span into a Datadog agent span (span.go): identifiers
 * decoded big-endian, the status-code table, the kind-dependent error flag, and the routing
 * of span attributes into the span's fixed fields, its Meta tags and its Metrics.
 */
module DdSpan {
  import opened Wrappers
  import opened Numeric

  type Byte = x: int | 0 <= x < 256
  type Int32 = x: int | -0x8000_0000 <= x < 0x8000_0000

  // ---------------------------------------------------------------------------
  // Big-endian decoding (encoding/binary.BigEndian.Uint64)

  function Pow256(n: nat): (r: nat)
    ensures r >= 1
  {
    if n == 0 then 1 else 256 * Pow256(n - 1)
  }

  /** The unsigned value of a byte string, most significant byte first. */
  function FromBytes(b: seq<Byte>): (r: nat)
    ensures r < Pow256(|b|)
  {
    if b == [] then 0 else FromBytes(b[..|b| - 1]) * 256 + b[|b| - 1]
  }

  /** The n-byte big-endian encoding of x. */
  function ToBytes(x: nat, n: nat): (b: seq<Byte>)
    ensures |b| == n
  {
    if n == 0 then [] else ToBytes(x / 256, n - 1) + [x % 256]
  }

  /** binary.BigEndian.Uint64: the first eight bytes, most significant first; shorter input panics. */
  function BigEndianUint64(b: seq<Byte>): (r: UInt64)
    requires |b| >= 8
  {
    assert Pow256(8) == TwoTo64;
    FromBytes(b[..8])
  }

  lemma {:induction false} FromToBytes(x: nat, n: nat)
    requires x < Pow256(n)
    ensures FromBytes(ToBytes(x, n)) == x
  {
    if n > 0 {
      var b := ToBytes(x, n);
      assert b[..n - 1] == ToBytes(x / 256, n - 1);
      FromToBytes(x / 256, n - 1);
    }
  }

  lemma {:induction false} ToFromBytes(b: seq<Byte>)
    ensures ToBytes(FromBytes(b), |b|) == b
  {
    if b != [] {
      var p := b[..|b| - 1];
      ToFromBytes(p);
      var x := FromBytes(b);
      assert x / 256 == FromBytes(p) && x % 256 == b[|b| - 1];
      assert b == p + [b[|b| - 1]];
    }
  }

  /** Decoding and encoding are inverse: every uint64 round-trips through its eight bytes, and decoding reads exactly the first eight. */
  lemma BigEndianRoundTrip(x: UInt64, b: seq<Byte>)
    requires |b| >= 8
    ensures BigEndianUint64(ToBytes(x, 8)) == x
    ensures ToBytes(BigEndianUint64(b), 8) == b[..8]
  {
    assert Pow256(8) == TwoTo64;
    FromToBytes(x, 8);
    assert ToBytes(x, 8)[..8] == ToBytes(x, 8);
    ToFromBytes(b[..8]);
  }

  // ---------------------------------------------------------------------------
  // Decimal formatting (strconv.FormatInt with base 10)

  function DigitChar(d: nat): (c: char)
    requires d < 10
    ensures '0' <= c <= '9'
  {
    "0123456789"[d]
  }

  function FormatNat(n: nat): (s: string)
    ensures |s| >= 1 && forall i :: 0 <= i < |s| ==> '0' <= s[i] <= '9'
  {
    if n < 10 then [DigitChar(n)] else FormatNat(n / 10) + [DigitChar(n % 10)]
  }

  /** The decimal text of n, with a leading '-' when it is negative. */
  function FormatInt(n: int): string {
    if n < 0 then "-" + FormatNat(-n) else FormatNat(n)
  }

  /** The value a decimal digit string denotes. */
  function ParseNat(s: string): nat
    requires forall i :: 0 <= i < |s| ==> '0' <= s[i] <= '9'
  {
    if s == [] then 0 else ParseNat(s[..|s| - 1]) * 10 + (s[|s| - 1] as int - '0' as int)
  }

  function ParseInt(s: string): int
    requires |s| >= 1
    requires forall i :: (if s[0] == '-' then 1 else 0) <= i < |s| ==> '0' <= s[i] <= '9'
  {
    if s[0] == '-' then -(ParseNat(s[1..]) as int) else ParseNat(s)
  }

  lemma {:induction false} ParseFormatNat(n: nat)
    ensures ParseNat(FormatNat(n)) == n
  {
    if n >= 10 {
      ParseFormatNat(n / 10);
      var s := FormatNat(n);
      assert s[..|s| - 1] == FormatNat(n / 10);
    }
  }

  /** FormatInt is injective: parsing its text gives the number back. */
  lemma ParseFormatInt(n: int)
    ensures |FormatInt(n)| >= 1
    ensures forall i :: (if FormatInt(n)[0] == '-' then 1 else 0) <= i < |FormatInt(n)| ==> '0' <= FormatInt(n)[i] <= '9'
    ensures ParseInt(FormatInt(n)) == n
  {
    ParseFormatNat(if n < 0 then -n else n);
    if n < 0 {
      assert FormatInt(n)[1..] == FormatNat(-n);
    }
  }

  // ---------------------------------------------------------------------------
  // Status codes

  /** A status code's message and the HTTP status it corresponds to. */
  datatype CodeDetails = CodeDetails(message: string, status: int)

  /** The statusCodes table: the gRPC codes 0 to 16 of google/rpc/code.proto. */
  function StatusCodes(code: Int32): (r: Option<CodeDetails>)
    ensures r.Some? <==> 0 <= code <= 16
  {
    match code
    case 0 => Some(CodeDetails("OK", 200))
    case 1 => Some(CodeDetails("CANCELLED", 499))
    case 2 => Some(CodeDetails("UNKNOWN", 500))
    case 3 => Some(CodeDetails("INVALID_ARGUMENT", 400))
    case 4 => Some(CodeDetails("DEADLINE_EXCEEDED", 504))
    case 5 => Some(CodeDetails("NOT_FOUND", 404))
    case 6 => Some(CodeDetails("ALREADY_EXISTS", 409))
    case 7 => Some(CodeDetails("PERMISSION_DENIED", 403))
    case 8 => Some(CodeDetails("RESOURCE_EXHAUSTED", 429))
    case 9 => Some(CodeDetails("FAILED_PRECONDITION", 400))
    case 10 => Some(CodeDetails("ABORTED", 409))
    case 11 => Some(CodeDetails("OUT_OF_RANGE", 400))
    case 12 => Some(CodeDetails("UNIMPLEMENTED", 501))
    case 13 => Some(CodeDetails("INTERNAL", 500))
    case 14 => Some(CodeDetails("UNAVAILABLE", 503))
    case 15 => Some(CodeDetails("DATA_LOSS", 501))
    case 16 => Some(CodeDetails("UNAUTHENTICATED", 401))
    case _ => None
  }

  const UnknownCodePrefix: string := "ERR_CODE_"

  /** The details of a code: from the table, or "ERR_CODE_<n>" with HTTP status 500. */
  function CodeDetailsOf(code: Int32): CodeDetails {
    match StatusCodes(code)
    case Some(d) => d
    case None => CodeDetails(UnknownCodePrefix + FormatInt(code), 500)
  }

  /**
   * A code missing from the table gets status 500 and a message that names the code in
   * decimal, and that no code in the table has.
   */
  lemma UnknownCodeDetails(code: Int32)
    requires StatusCodes(code).None?
    ensures CodeDetailsOf(code).status == 500
    ensures var m := CodeDetailsOf(code).message;
      && |m| > |UnknownCodePrefix| && m[..|UnknownCodePrefix|] == UnknownCodePrefix
      && ParseInt(m[|UnknownCodePrefix|..]) == code
    ensures forall k: Int32 :: 0 <= k <= 16 ==> CodeDetailsOf(k).message != CodeDetailsOf(code).message
  {
    ParseFormatInt(code);
    var m := CodeDetailsOf(code).message;
    assert m[|UnknownCodePrefix|..] == FormatInt(code);
    forall k: Int32 | 0 <= k <= 16 ensures CodeDetailsOf(k).message != m {
      KnownMessageInitial(k);
    }
  }

  lemma KnownMessageInitial(k: Int32)
    requires 0 <= k <= 16
    ensures |CodeDetailsOf(k).message| > 0 && CodeDetailsOf(k).message[0] != 'E'
  {
    if k < 4 {
    } else if k < 8 {
    } else if k < 12 {
    } else {
    }
  }

  /** Every status the conversion can see is an HTTP status between 200 and 599. */
  lemma StatusRange(code: Int32)
    ensures 200 <= CodeDetailsOf(code).status < 600
  {
  }

  // ---------------------------------------------------------------------------
  // Input spans

  datatype SpanKind = Unspecified | Internal | Server | Client | Producer | Consumer

  /**
   * An attribute value. OtherVal stands for the remaining OpenTelemetry value types; it
   * carries the text that fmt's %v prints for the value and the name of its type.
   */
  datatype AttributeValue =
    | StringVal(s: string)
    | BoolVal(b: bool)
    | IntVal(i: Int64)
    | DoubleVal(d: Float64)
    | OtherVal(rendered: string, typeName: string)

  /** The span fields the conversion reads. Attributes are visited in their stored order. */
  datatype PdataSpan = PdataSpan(
    traceId: seq<Byte>,
    spanId: seq<Byte>,
    parentSpanId: seq<Byte>,
    name: string,
    kind: SpanKind,
    startTime: UInt64,
    endTime: UInt64,
    statusCode: Int32,
    statusMessage: string,
    attributes: seq<(string, AttributeValue)>)

  /** The identifier lengths the decoding needs: the conversion panics on shorter ones. */
  predicate WellFormedIds(s: PdataSpan) {
    |s.traceId| >= 16 && |s.spanId| >= 8 && (|s.parentSpanId| == 0 || |s.parentSpanId| >= 8)
  }

  // ---------------------------------------------------------------------------
  // Tag keys. The ext.* names are those of the dd-trace-go ext package; the proofs use
  // only that they are distinct from one another and from the two local keys.

  const KeySamplingPriority: string := "_sampling_priority_v1"
  const KeySpanName: string := "span.name"
  const ExtServiceName: string := "service.name"
  const ExtResourceName: string := "resource.name"
  const ExtSpanType: string := "span.type"
  const ExtAnalyticsEvent: string := "analytics.event"
  const ExtEventSampleRate: string := "_dd1.sr.eausr"
  const ExtSamplingPriority: string := "sampling.priority"
  const ExtErrorType: string := "error.type"
  const ExtErrorMsg: string := "error.msg"

  /** The keys setStringTag stores in a fixed field or a metric rather than in Meta. */
  predicate IsFieldKey(key: string) {
    key == ExtServiceName || key == ExtResourceName || key == ExtSpanType || key == ExtAnalyticsEvent || key == KeySpanName
  }

  // ---------------------------------------------------------------------------
  // The Datadog span as a value, and the tag setters on it

  datatype SpanRecord = SpanRecord(
    spanId: UInt64,
    traceId: UInt64,
    parentId: UInt64,
    name: string,
    service: string,
    resource: string,
    spanType: string,
    start: Int64,
    duration: Int64,
    meta: map<string, string>,
    metrics: map<string, Float64>,
    error: int)

  /** The Metrics key a metric is stored under: the sampling priority is renamed. */
  function MetricKey(key: string): (k: string)
    ensures key != ExtSamplingPriority ==> k == key
  {
    if key == ExtSamplingPriority then KeySamplingPriority else key
  }

  /** setMetric on a span value. */
  function WithMetric(rec: SpanRecord, key: string, v: Float64): SpanRecord {
    rec.(metrics := rec.metrics[MetricKey(key) := v])
  }

  /** setStringTag on a span value. */
  function WithStringTag(rec: SpanRecord, key: string, v: string): SpanRecord {
    if key == ExtServiceName then rec.(service := v)
    else if key == ExtResourceName then rec.(resource := v)
    else if key == ExtSpanType then rec.(spanType := v)
    else if key == ExtAnalyticsEvent then WithMetric(rec, ExtEventSampleRate, if v != "false" then FloatOne else FloatZero)
    else if key == KeySpanName then rec.(name := v)
    else rec.(meta := rec.meta[key := v])
  }

  /** strconv.FormatBool. */
  function FormatBool(b: bool): string {
    if b then "true" else "false"
  }

  /** The tag text written for an attribute of a type the conversion does not know. */
  function UnknownAttributeText(rendered: string, typeName: string): string {
    rendered + " (Unknown OpenTelemetry attribute value type \"" + typeName + "\")"
  }

  /** setTag on a span value. */
  function WithTag(fa: FloatArith, rec: SpanRecord, key: string, v: AttributeValue): SpanRecord {
    match v
    case StringVal(s) => WithStringTag(rec, key, s)
    case BoolVal(b) => WithStringTag(rec, key, FormatBool(b))
    case DoubleVal(d) => WithMetric(rec, key, d)
    case IntVal(i) => WithMetric(rec, key, fa.fromInt(i))
    case OtherVal(rendered, typeName) => WithStringTag(rec, key, UnknownAttributeText(rendered, typeName))
  }

  /** The attributes applied one after another, in order. */
  function WithAttributes(fa: FloatArith, rec: SpanRecord, attrs: seq<(string, AttributeValue)>): SpanRecord {
    if attrs == [] then rec
    else
      var (k, v) := attrs[|attrs| - 1];
      WithTag(fa, WithAttributes(fa, rec, attrs[..|attrs| - 1]), k, v)
  }

  /**
   * setStringTag routes each reserved key to its field, analytics.event to the event sample
   * rate (0 exactly for "false", 1 otherwise), and every other key to Meta; nothing else changes.
   */
  lemma StringTagRouting(rec: SpanRecord, key: string, v: string)
    ensures var r := WithStringTag(rec, key, v);
      && (key == ExtServiceName ==> r == rec.(service := v))
      && (key == ExtResourceName ==> r == rec.(resource := v))
      && (key == ExtSpanType ==> r == rec.(spanType := v))
      && (key == KeySpanName ==> r == rec.(name := v))
      && (key == ExtAnalyticsEvent ==>
            r == rec.(metrics := rec.metrics[ExtEventSampleRate := if v == "false" then FloatZero else FloatOne]))
      && (!IsFieldKey(key) ==> r == rec.(meta := rec.meta[key := v]))
      && (r.meta != rec.meta ==> !IsFieldKey(key))
  {
  }

  /**
   * setTag: string and bool attributes become string tags ("true"/"false" for bools), int
   * and double attributes become metrics; a metric under the sampling-priority key is
   * stored as "_sampling_priority_v1", under any other key unchanged.
   */
  lemma TagRouting(fa: FloatArith, rec: SpanRecord, key: string, v: AttributeValue)
    ensures v.BoolVal? ==> WithTag(fa, rec, key, v) == WithStringTag(rec, key, if v.b then "true" else "false")
    ensures v.StringVal? ==> WithTag(fa, rec, key, v) == WithStringTag(rec, key, v.s)
    ensures v.IntVal? || v.DoubleVal? ==>
              var x := if v.IntVal? then fa.fromInt(v.i) else v.d;
              && WithTag(fa, rec, key, v).(metrics := rec.metrics) == rec
              && WithTag(fa, rec, key, v).metrics
                 == rec.metrics[(if key == ExtSamplingPriority then KeySamplingPriority else key) := x]
  {
  }

  /** A boolean analytics.event attribute sets the event sample rate to 1 for true and 0 for false. */
  lemma AnalyticsEventFromBool(fa: FloatArith, rec: SpanRecord, b: bool)
    ensures WithTag(fa, rec, ExtAnalyticsEvent, BoolVal(b)).metrics[ExtEventSampleRate] == if b then FloatOne else FloatZero
  {
  }

  /** Attributes never touch the identifiers, the timing or the error flag. */
  lemma {:induction false} AttributesKeepIdentity(fa: FloatArith, rec: SpanRecord, attrs: seq<(string, AttributeValue)>)
    ensures var r := WithAttributes(fa, rec, attrs);
      && r.traceId == rec.traceId && r.spanId == rec.spanId && r.parentId == rec.parentId
      && r.start == rec.start && r.duration == rec.duration && r.error == rec.error
  {
    if attrs != [] {
      var p := attrs[..|attrs| - 1];
      AttributesKeepIdentity(fa, rec, p);
      TagKeepsIdentity(fa, WithAttributes(fa, rec, p), attrs[|attrs| - 1].0, attrs[|attrs| - 1].1);
    }
  }

  lemma TagKeepsIdentity(fa: FloatArith, rec: SpanRecord, key: string, v: AttributeValue)
    ensures var r := WithTag(fa, rec, key, v);
      && r.traceId == rec.traceId && r.spanId == rec.spanId && r.parentId == rec.parentId
      && r.start == rec.start && r.duration == rec.duration && r.error == rec.error
  {
    match v
    case StringVal(s) => StringTagKeepsIdentity(rec, key, s);
    case BoolVal(b) => StringTagKeepsIdentity(rec, key, FormatBool(b));
    case OtherVal(rendered, typeName) => StringTagKeepsIdentity(rec, key, UnknownAttributeText(rendered, typeName));
    case _ =>
  }

  lemma StringTagKeepsIdentity(rec: SpanRecord, key: string, v: string)
    ensures var r := WithStringTag(rec, key, v);
      && r.traceId == rec.traceId && r.spanId == rec.spanId && r.parentId == rec.parentId
      && r.start == rec.start && r.duration == rec.duration && r.error == rec.error
  {
  }

  // ---------------------------------------------------------------------------
  // Conversion

  /** The error flag: client spans fail on 4xx, every other kind on 5xx. */
  function ErrorFlag(kind: SpanKind, status: int): int {
    if kind == Client then (if status / 100 == 4 then 1 else 0)
    else (if status / 100 == 5 then 1 else 0)
  }

  /** The span type a kind sets before attributes are applied. */
  function KindType(kind: SpanKind): string {
    match kind
    case Client => "client"
    case Server => "server"
    case _ => "custom"
  }

  /** The Meta tags of a span before attributes are applied. */
  function ErrorMeta(error: int, code: CodeDetails, msg: string): map<string, string> {
    if error != 1 then map[]
    else if msg != "" then map[ExtErrorType := code.message, ExtErrorMsg := msg]
    else map[ExtErrorType := code.message]
  }

  /** The span convertSpan builds before it applies the attributes. */
  function InitialSpan(serviceName: string, s: PdataSpan): SpanRecord
    requires WellFormedIds(s)
  {
    var code := CodeDetailsOf(s.statusCode);
    var error := ErrorFlag(s.kind, code.status);
    SpanRecord(
      spanId := BigEndianUint64(s.spanId),
      traceId := BigEndianUint64(s.traceId[8..]),
      parentId := if |s.parentSpanId| > 0 then BigEndianUint64(s.parentSpanId) else 0,
      name := s.name,
      service := serviceName,
      resource := s.name,
      spanType := KindType(s.kind),
      start := Wrap64(s.startTime),
      duration := Wrap64(s.endTime - s.startTime),
      meta := ErrorMeta(error, code, s.statusMessage),
      metrics := map[],
      error := error)
  }

  /** convertSpan, stated by its outcome. */
  function ConvertSpanSpec(fa: FloatArith, serviceName: string, s: PdataSpan): SpanRecord
    requires WellFormedIds(s)
  {
    WithAttributes(fa, InitialSpan(serviceName, s), s.attributes)
  }

  /**
   * The identifiers of a converted span: the trace ID is bytes 8 to 15 of the OpenTelemetry
   * trace ID, big-endian; the span ID is the first eight bytes of the span ID; the parent ID
   * is decoded only when present and is 0 otherwise. Start and duration are the start time
   * and the elapsed time, as int64.
   */
  lemma ConvertedIdentity(fa: FloatArith, serviceName: string, s: PdataSpan)
    requires WellFormedIds(s)
    ensures var r := ConvertSpanSpec(fa, serviceName, s);
      && ToBytes(r.traceId, 8) == s.traceId[8..16]
      && ToBytes(r.spanId, 8) == s.spanId[..8]
      && (|s.parentSpanId| == 0 ==> r.parentId == 0)
      && (|s.parentSpanId| > 0 ==> ToBytes(r.parentId, 8) == s.parentSpanId[..8])
      && r.start == Wrap64(s.startTime) && (r.duration - (s.endTime - s.startTime)) % TwoTo64 == 0
  {
    AttributesKeepIdentity(fa, InitialSpan(serviceName, s), s.attributes);
    BigEndianRoundTrip(0, s.traceId[8..]);
    assert s.traceId[8..][..8] == s.traceId[8..16];
    BigEndianRoundTrip(0, s.spanId);
    if |s.parentSpanId| > 0 {
      BigEndianRoundTrip(0, s.parentSpanId);
    }
  }

  /**
   * The error flag is 0 or 1. A client span is an error exactly when its HTTP status is
   * 4xx (so a 5xx client span is not); any other span exactly when it is 5xx.
   */
  lemma ConvertedErrorFlag(fa: FloatArith, serviceName: string, s: PdataSpan)
    requires WellFormedIds(s)
    ensures var r := ConvertSpanSpec(fa, serviceName, s); var status := CodeDetailsOf(s.statusCode).status;
      && (r.error == 0 || r.error == 1)
      && (s.kind == Client ==> (r.error == 1 <==> 400 <= status < 500))
      && (s.kind != Client ==> (r.error == 1 <==> 500 <= status < 600))
  {
    AttributesKeepIdentity(fa, InitialSpan(serviceName, s), s.attributes);
    StatusRange(s.statusCode);
  }

  /** A client span with the UNKNOWN status code (HTTP 500) is not an error; a server span with it is. */
  lemma ClientServerErrorExample(fa: FloatArith, s: PdataSpan)
    requires WellFormedIds(s) && s.statusCode == 2
    ensures s.kind == Client ==> ConvertSpanSpec(fa, "svc", s).error == 0
    ensures s.kind == Server ==> ConvertSpanSpec(fa, "svc", s).error == 1
  {
    AttributesKeepIdentity(fa, InitialSpan("svc", s), s.attributes);
  }

  /**
   * Before attributes are applied: name and resource are the span name, the service is the
   * configured one, the type follows the kind, there are no metrics, and Meta holds
   * error.type (the code's message) and error.msg (the status message, when not empty)
   * exactly when the error flag is 1.
   */
  lemma InitialSpanFields(serviceName: string, s: PdataSpan)
    requires WellFormedIds(s)
    ensures var r := InitialSpan(serviceName, s);
      && r.name == s.name && r.resource == s.name && r.service == serviceName && r.metrics == map[]
      && r.spanType == (if s.kind == Client then "client" else if s.kind == Server then "server" else "custom")
      && (r.error == 1 ==> ExtErrorType in r.meta && r.meta[ExtErrorType] == CodeDetailsOf(s.statusCode).message)
      && (r.error == 1 && s.statusMessage != "" ==> ExtErrorMsg in r.meta && r.meta[ExtErrorMsg] == s.statusMessage)
      && (ExtErrorMsg in r.meta <==> r.error == 1 && s.statusMessage != "")
      && (r.error == 0 ==> r.meta == map[])
  {
  }

  // ---------------------------------------------------------------------------
  // The span object

  /** ddSpan: built by convertSpan and updated in place by the tag setters. */
  class Span {
    var spanId: UInt64
    var traceId: UInt64
    var parentId: UInt64
    var name: string
    var service: string
    var resource: string
    var spanType: string
    var start: Int64
    var duration: Int64
    var meta: map<string, string>
    var metrics: map<string, Float64>
    var error: int

    function Snapshot(): SpanRecord
      reads this
    {
      SpanRecord(spanId, traceId, parentId, name, service, resource, spanType, start, duration, meta, metrics, error)
    }

    /** The struct literal of convertSpan: empty Meta and Metrics, type "custom", no parent, no error. */
    constructor (traceId: UInt64, spanId: UInt64, name: string, resource: string, service: string,
                 start: Int64, duration: Int64)
      ensures Snapshot() == SpanRecord(spanId, traceId, 0, name, service, resource, "custom", start, duration,
                                       map[], map[], 0)
    {
      this.traceId := traceId;
      this.spanId := spanId;
      this.parentId := 0;
      this.name := name;
      this.resource := resource;
      this.service := service;
      this.start := start;
      this.duration := duration;
      this.metrics := map[];
      this.meta := map[];
      this.spanType := "custom";
      this.error := 0;
    }

    method SetMetric(key: string, v: Float64)
      modifies this
      ensures Snapshot() == WithMetric(old(Snapshot()), key, v)
    {
      if key == ExtSamplingPriority {
        metrics := metrics[KeySamplingPriority := v];
      } else {
        metrics := metrics[key := v];
      }
    }

    method SetStringTag(key: string, v: string)
      modifies this
      ensures Snapshot() == WithStringTag(old(Snapshot()), key, v)
    {
      if key == ExtServiceName {
        service := v;
      } else if key == ExtResourceName {
        resource := v;
      } else if key == ExtSpanType {
        spanType := v;
      } else if key == ExtAnalyticsEvent {
        if v != "false" {
          SetMetric(ExtEventSampleRate, FloatOne);
        } else {
          SetMetric(ExtEventSampleRate, FloatZero);
        }
      } else if key == KeySpanName {
        name := v;
      } else {
        meta := meta[key := v];
      }
    }

    /** Attributes().ForEach with setTag: every attribute, in order. */
    method SetAttributes(fa: FloatArith, attrs: seq<(string, AttributeValue)>)
      modifies this
      ensures Snapshot() == WithAttributes(fa, old(Snapshot()), attrs)
    {
      for i := 0 to |attrs|
        invariant Snapshot() == WithAttributes(fa, old(Snapshot()), attrs[..i])
      {
        var (key, val) := attrs[i];
        SetTag(fa, key, val);
        assert attrs[..i + 1][..i] == attrs[..i];
      }
      assert attrs[..|attrs|] == attrs;
    }

    method SetTag(fa: FloatArith, key: string, v: AttributeValue)
      modifies this
      ensures Snapshot() == WithTag(fa, old(Snapshot()), key, v)
    {
      match v
      case StringVal(s) => SetStringTag(key, s);
      case BoolVal(b) => SetStringTag(key, FormatBool(b));
      case DoubleVal(d) => SetMetric(key, d);
      case IntVal(i) => SetMetric(key, fa.fromInt(i));
      case OtherVal(rendered, typeName) => SetStringTag(key, UnknownAttributeText(rendered, typeName));
    }
  }

  /**
   * convertSpan: the struct literal, then the parent ID, the type and the error flag set
   * step by step, then every attribute in order through setTag. It never fails.
   */
  method ConvertSpan(fa: FloatArith, serviceName: string, s: PdataSpan) returns (span: Span)
    requires WellFormedIds(s)
    ensures fresh(span) && span.Snapshot() == ConvertSpanSpec(fa, serviceName, s)
  {
    ghost var init := InitialSpan(serviceName, s);
    span := new Span(BigEndianUint64(s.traceId[8..]), BigEndianUint64(s.spanId), s.name, s.name, serviceName,
                     Wrap64(s.startTime), Wrap64(s.endTime - s.startTime));
    if |s.parentSpanId| > 0 {
      span.parentId := BigEndianUint64(s.parentSpanId);
    }
    var code := CodeDetailsOf(s.statusCode);
    if s.kind == Client {
      span.spanType := "client";
      if code.status / 100 == 4 {
        span.error := 1;
      }
    } else {
      // SERVER sets its type and falls through to the default case
      if s.kind == Server {
        span.spanType := "server";
      }
      if code.status / 100 == 5 {
        span.error := 1;
      }
    }
    assert span.error == init.error && span.spanType == init.spanType;
    if span.error == 1 {
      span.meta := span.meta[ExtErrorType := code.message];
      var msg := s.statusMessage;
      if msg != "" {
        span.meta := span.meta[ExtErrorMsg := msg];
      }
    }
    assert span.meta == init.meta;
    assert span.Snapshot() == init;
    span.SetAttributes(fa, s.attributes);
  }
}
