/**
  What `gatherKibanaStatus` makes of one decoded status response: the tags, the
  field map, and which heap and uptime figures feed that map depending on the
  version. Fetching and decoding the response, and the comparison of the version
  number with 6.4, are parameters.
 */
module KibanaFields {
  import opened Wrappers
  import opened KibanaRecords
  import opened KibanaHealth
  import opened KibanaVersion

  /** A field value: an integer, a float, or the request rate left as the two
      numbers it is computed from (`total / interval * 1000`). */
  datatype FieldValue = IntField(i: int) | FloatField(f: real) | RateField(total: int, intervalMs: int)

  /** The field keys the plugin emits; `Name` is the key as written in the metric. */
  datatype FieldKey =
    | StatusCodeKey | ConcurrentConnections | ResponseTimeAvg | ResponseTimeMax | RequestsPerSec
    | UptimeMs | HeapMaxBytes | HeapTotalBytes | HeapUsedBytes | HeapSizeLimit
  {
    function Name(): string {
      match this
      case StatusCodeKey => "status_code"
      case ConcurrentConnections => "concurrent_connections"
      case ResponseTimeAvg => "response_time_avg_ms"
      case ResponseTimeMax => "response_time_max_ms"
      case RequestsPerSec => "requests_per_sec"
      case UptimeMs => "uptime_ms"
      case HeapMaxBytes => "heap_max_bytes"
      case HeapTotalBytes => "heap_total_bytes"
      case HeapUsedBytes => "heap_used_bytes"
      case HeapSizeLimit => "heap_size_limit"
    }
  }

  /** The tag keys; `Name` is the key as written in the metric. */
  datatype TagKey = NameTag | SourceTag | VersionTag | StatusTag {
    function Name(): string {
      match this
      case NameTag => "name"
      case SourceTag => "source"
      case VersionTag => "version"
      case StatusTag => "status"
    }
  }

  /** One emitted point of the `kibana` measurement. */
  datatype Metric = Metric(measurement: string, fields: map<FieldKey, FieldValue>, tags: map<TagKey, string>)

  /** A decoded response and the host it came from. */
  datatype Fetched = Fetched(host: string, body: KibanaStatus)

  /** The HTTP GET and JSON decoding of one URL. */
  type Fetcher = string -> Result<Fetched>

  /** Parses a version prefix as a float and reports whether it is at least 6.4,
      or the parser's error. */
  type VersionTest = string -> Result<bool>

  const StatusPath := "/api/status"
  const Measurement := "kibana"

  /** The fields emitted whatever the version. */
  const CommonKeys: set<FieldKey> :=
    {StatusCodeKey, ConcurrentConnections, ResponseTimeAvg, ResponseTimeMax, RequestsPerSec}

  /** The fields both version branches fill, from different sources. */
  const HeapKeys: set<FieldKey> := {UptimeMs, HeapMaxBytes, HeapTotalBytes, HeapUsedBytes}

  /** Go's `int64(f)` for a float in range: drops the fraction, rounding toward zero. */
  function Truncate(x: real): (n: int)
    ensures 0.0 <= x ==> n as real <= x < n as real + 1.0
    ensures x < 0.0 ==> n as real - 1.0 < x <= n as real
  {
    if x >= 0.0 then x.Floor else -((-x).Floor)
  }

  /** The status code, connection count, response times and request rate, whatever the version. */
  function CommonFields(st: KibanaStatus): (fields: map<FieldKey, FieldValue>)
    ensures fields.Keys == CommonKeys
    ensures fields[StatusCodeKey] == IntField(StatusCode(st.status.overall))
    ensures fields[ConcurrentConnections] == IntField(st.metrics.concurrentConnections)
    ensures fields[ResponseTimeAvg] == FloatField(st.metrics.responseTimes.avgInMillis)
    ensures fields[ResponseTimeMax] == IntField(st.metrics.responseTimes.maxInMillis)
    ensures fields[RequestsPerSec] ==
              RateField(st.metrics.requests.total, st.metrics.collectionIntervalInMillis)
  {
    var m := st.metrics;
    map[
      StatusCodeKey := IntField(StatusCode(st.status.overall)),
      ConcurrentConnections := IntField(m.concurrentConnections),
      ResponseTimeAvg := FloatField(m.responseTimes.avgInMillis),
      ResponseTimeMax := IntField(m.responseTimes.maxInMillis),
      RequestsPerSec := RateField(m.requests.total, m.collectionIntervalInMillis)]
  }

  /** The uptime and heap fields of Kibana 6.4 and later. */
  function NewLayoutFields(p: Process): (fields: map<FieldKey, FieldValue>)
    ensures fields.Keys == HeapKeys + {HeapSizeLimit}
    ensures fields[UptimeMs] == IntField(Truncate(p.uptimeInMillis))
    ensures fields[HeapMaxBytes] == fields[HeapTotalBytes] == IntField(p.memory.heap.totalInBytes)
    ensures fields[HeapUsedBytes] == IntField(p.memory.heap.usedInBytes)
    ensures fields[HeapSizeLimit] == IntField(p.memory.heap.sizeLimit)
  {
    map[
      UptimeMs := IntField(Truncate(p.uptimeInMillis)),
      HeapMaxBytes := IntField(p.memory.heap.totalInBytes),
      HeapTotalBytes := IntField(p.memory.heap.totalInBytes),
      HeapUsedBytes := IntField(p.memory.heap.usedInBytes),
      HeapSizeLimit := IntField(p.memory.heap.sizeLimit)]
  }

  /** The uptime and heap fields of Kibana before 6.4. */
  function OldLayoutFields(m: Metrics): (fields: map<FieldKey, FieldValue>)
    ensures fields.Keys == HeapKeys
    ensures fields[UptimeMs] == IntField(Truncate(m.uptimeInMillis))
    ensures fields[HeapMaxBytes] == fields[HeapTotalBytes] == IntField(m.process.mem.heapMaxInBytes)
    ensures fields[HeapUsedBytes] == IntField(m.process.mem.heapUsedInBytes)
  {
    map[
      UptimeMs := IntField(Truncate(m.uptimeInMillis)),
      HeapMaxBytes := IntField(m.process.mem.heapMaxInBytes),
      HeapTotalBytes := IntField(m.process.mem.heapMaxInBytes),
      HeapUsedBytes := IntField(m.process.mem.heapUsedInBytes)]
  }

  /** Each key of a union of maps with disjoint keys reads from the map it came from. */
  lemma DisjointUnion<K, V>(a: map<K, V>, b: map<K, V>)
    requires a.Keys !! b.Keys
    ensures forall k :: k in a + b <==> k in a || k in b
    ensures forall k :: k in a ==> (a + b)[k] == a[k]
    ensures forall k :: k in b ==> (a + b)[k] == b[k]
  {
  }

  /** The field map for a response, given whether the version is at least 6.4. */
  function BuildFields(st: KibanaStatus, atLeast64: bool): (fields: map<FieldKey, FieldValue>)
    ensures fields.Keys == CommonKeys + HeapKeys + (if atLeast64 then {HeapSizeLimit} else {})
    ensures fields[HeapMaxBytes] == fields[HeapTotalBytes]
    ensures fields[HeapMaxBytes] == IntField(
              if atLeast64 then st.metrics.process.memory.heap.totalInBytes
              else st.metrics.process.mem.heapMaxInBytes)
    ensures fields[StatusCodeKey] == IntField(StatusCode(st.status.overall))
  {
    var layout := if atLeast64 then NewLayoutFields(st.metrics.process) else OldLayoutFields(st.metrics);
    CommonFields(st) + layout
  }

  /** Where every other field comes from: uptime and used heap from the 6.4 process
      memory figures or from the legacy ones, the heap size limit only from 6.4 on,
      and the common fields from the same figures in both branches. */
  lemma BuildFieldsSources(st: KibanaStatus, atLeast64: bool)
    ensures var fields := BuildFields(st, atLeast64);
            var m := st.metrics;
            && fields[UptimeMs] == IntField(Truncate(
                 if atLeast64 then m.process.uptimeInMillis else m.uptimeInMillis))
            && fields[HeapUsedBytes] == IntField(
                 if atLeast64 then m.process.memory.heap.usedInBytes else m.process.mem.heapUsedInBytes)
            && (atLeast64 ==> fields[HeapSizeLimit] == IntField(m.process.memory.heap.sizeLimit))
            && (forall k :: k in CommonKeys ==> fields[k] == CommonFields(st)[k])
  {
    var common := CommonFields(st);
    if atLeast64 {
      DisjointUnion(common, NewLayoutFields(st.metrics.process));
    } else {
      DisjointUnion(common, OldLayoutFields(st.metrics));
    }
  }

  /** The tags: the instance name, the host answered from, the full version and the legacy status. */
  function BuildTags(st: KibanaStatus, host: string): (tags: map<TagKey, string>)
    ensures tags.Keys == {NameTag, SourceTag, VersionTag, StatusTag}
    ensures tags[NameTag] == st.name && tags[SourceTag] == host
    ensures tags[VersionTag] == st.version.number
    ensures tags[StatusTag] == GetStatusValue(st.status.overall) && tags[StatusTag] != ""
  {
    map[
      NameTag := st.name,
      SourceTag := host,
      VersionTag := st.version.number,
      StatusTag := GetStatusValue(st.status.overall)]
  }

  /** `gatherKibanaStatus` for one server: fetch `/api/status`, test the version
      prefix, and build the metric. A fetch error or a version the parser rejects
      is returned as the error and emits nothing. */
  function GatherStatus(baseUrl: string, fetch: Fetcher, atLeast64: VersionTest): (r: Result<Metric>)
    ensures fetch(baseUrl + StatusPath).Err? ==> r == Err(fetch(baseUrl + StatusPath).error)
    ensures fetch(baseUrl + StatusPath).Ok? ==>
              var fetched := fetch(baseUrl + StatusPath).value;
              var test := atLeast64(VersionPrefix(fetched.body.version.number));
              && (test.Err? ==> r == Err(test.error))
              && (test.Ok? ==> r.Ok? && r.value.fields == BuildFields(fetched.body, test.value))
  {
    match fetch(baseUrl + StatusPath)
    case Err(e) => Err(e)
    case Ok(fetched) =>
      match atLeast64(VersionPrefix(fetched.body.version.number))
      case Err(e) => Err(e)
      case Ok(newLayout) =>
        Ok(Metric(Measurement, BuildFields(fetched.body, newLayout), BuildTags(fetched.body, fetched.host)))
  }

  /** A gathered metric carries the instance name and the full version as tags, the legacy status as
      its `status` tag, and the code of exactly that tag as its `status_code` field. */
  lemma GatheredMetricTags(baseUrl: string, fetch: Fetcher, atLeast64: VersionTest)
    ensures var r := GatherStatus(baseUrl, fetch, atLeast64);
            r.Ok? ==>
              var fetched := fetch(baseUrl + StatusPath).value;
              && r.value.measurement == Measurement
              && r.value.tags.Keys == {NameTag, SourceTag, VersionTag, StatusTag}
              && r.value.tags[NameTag] == fetched.body.name
              && r.value.tags[VersionTag] == fetched.body.version.number
              && r.value.tags[SourceTag] == fetched.host
              && r.value.tags[StatusTag] == GetStatusValue(fetched.body.status.overall)
              && r.value.fields[StatusCodeKey] == IntField(MapHealthStatusToCode(r.value.tags[StatusTag]))
  {
    if GatherStatus(baseUrl, fetch, atLeast64).Ok? {
      var fetched := fetch(baseUrl + StatusPath).value;
      var newLayout := atLeast64(VersionPrefix(fetched.body.version.number)).value;
      var tags := BuildTags(fetched.body, fetched.host);
      assert GatherStatus(baseUrl, fetch, atLeast64) == Ok(Metric(Measurement, BuildFields(fetched.body, newLayout), tags));
      assert StatusCode(fetched.body.status.overall) == MapHealthStatusToCode(tags[StatusTag]);
    }
  }

  /** Apart from `heap_size_limit`, both version branches emit the same keys, and
      the fields that do not depend on the version have the same values. */
  lemma LayoutsShareKeys(st: KibanaStatus)
    ensures HeapSizeLimit in BuildFields(st, true) && HeapSizeLimit !in BuildFields(st, false)
    ensures BuildFields(st, true).Keys - {HeapSizeLimit} == BuildFields(st, false).Keys
    ensures forall k :: k in CommonKeys ==> BuildFields(st, true)[k] == BuildFields(st, false)[k]
  {
    BuildFieldsSources(st, true);
    BuildFieldsSources(st, false);
  }

  /** The version string reaches the float parser only through its major.minor
      prefix: two responses that differ only in versions with the same prefix
      give the same fields. */
  lemma OnlyPrefixReachesParser(
    st: KibanaStatus, otherNumber: string, baseUrl: string, host: string, test: VersionTest)
    requires VersionPrefix(otherNumber) == VersionPrefix(st.version.number)
    ensures
      var st' := st.(version := st.version.(number := otherNumber));
      var fetchA: Fetcher := _ => Ok(Fetched(host, st));
      var fetchB: Fetcher := _ => Ok(Fetched(host, st'));
      && GatherStatus(baseUrl, fetchA, test).Ok? == GatherStatus(baseUrl, fetchB, test).Ok?
      && (GatherStatus(baseUrl, fetchA, test).Ok? ==>
            GatherStatus(baseUrl, fetchA, test).value.fields == GatherStatus(baseUrl, fetchB, test).value.fields)
  {
  }
}
