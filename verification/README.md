# Kibana input: status and metric normalisation

A Dafny model of the pure core of Telegraf's Kibana input plugin
(`plugins/inputs/kibana/kibana.go`): how one decoded `/api/status` response
becomes one `kibana` metric.

- **Status pipeline.** Kibana 8.x reports an overall `level`, older Kibana a
  `state`. `getStatusValue` reduces either to one legacy colour string (a
  level goes through `mapKibana8xStatus`; a state is passed on as it is).
  `mapHealthStatusToCode` turns that string into the `status_code` field
  (1 green, 2 yellow, 3 red, 0 otherwise), case-insensitively.
- **Version prefix.** `gatherKibanaStatus` splits the version on `.`, keeps
  the first one or two pieces and joins them again before parsing a float.
- **Field selection.** Whether that float is at least 6.4 decides which heap
  and uptime figures feed the field map, and whether `heap_size_limit` is
  emitted.

Files:

- `wrappers.dfy` — `Result`, standing for a Go `(value, error)` return.
- `go_strings.dfy` — `strings.ToLower`, `strings.Split` and `strings.Join`
  over strings as sequences of runes, with case-insensitive matching stated
  through an independent predicate (`SpelledAs`) and the split/join round trips.
- `kibana_records.dfy` — the decoded response records (`kibanaStatus` and the
  records nested in it); `int64` fields are a subset type of `int`.
- `kibana_health.dfy` — `mapKibana8xStatus`, `getStatusValue`,
  `mapHealthStatusToCode` and their composition.
- `kibana_version.dfy` — the version prefix, characterised as the longest
  prefix of the version holding at most one dot.
- `kibana_fields.dfy` — the field map and tags of `gatherKibanaStatus`, with the
  HTTP fetch and the float comparison as parameters. Field and tag keys are
  enumerations whose `Name()` is the key string the plugin writes.

## Model

| member | source | states |
|---|---|---|
| `GoStrings.Lower` | plugins/inputs/kibana/kibana.go:219 | lower-casing keeps the number of runes |
| `GoStrings.LowerAt` | plugins/inputs/kibana/kibana.go:219 | every rune of the lower-cased string is the lower case of the rune at the same place |
| `GoStrings.LowerMatches` | plugins/inputs/kibana/kibana.go:219-227 | the lower-cased string equals a lower-case word exactly when the string is that word in some mixture of letter cases |
| `GoStrings.LowerForgetsCase` | plugins/inputs/kibana/kibana.go:263 | lower-casing gives the same result for a string, its ASCII upper-casing and its lower-casing |
| `GoStrings.Split` | plugins/inputs/kibana/kibana.go:174 | splitting on a separator yields one more piece than there are separators, and no piece holds the separator |
| `GoStrings.Join` | plugins/inputs/kibana/kibana.go:180 | joining separator-free pieces puts exactly one separator between neighbours |
| `GoStrings.JoinSplit` | plugins/inputs/kibana/kibana.go:174-180 | joining the pieces of a split gives back the original string |
| `GoStrings.SplitJoin` | plugins/inputs/kibana/kibana.go:174-180 | splitting the join of separator-free pieces gives back the pieces |
| `KibanaHealth.MapKibana8xStatus` | plugins/inputs/kibana/kibana.go:218-229 | the translation of a level is always one of green, yellow, red, unknown |
| `KibanaHealth.MapKibana8xStatusCases` | plugins/inputs/kibana/kibana.go:218-229 | green exactly for "available", yellow exactly for "degraded", red exactly for "unavailable" or "critical", each in any letter case; unknown for every other level |
| `KibanaHealth.MapKibana8xStatusIgnoresCase` | plugins/inputs/kibana/kibana.go:219 | ASCII upper-casing or lower-casing the level does not change its translation |
| `KibanaHealth.MapHealthStatusToCode` | plugins/inputs/kibana/kibana.go:262-272 | the code always lies in 0..3 |
| `KibanaHealth.MapHealthStatusToCodeCases` | plugins/inputs/kibana/kibana.go:262-272 | code 1, 2, 3 exactly for green, yellow, red in any letter case, 0 exactly for everything else |
| `KibanaHealth.ColourCodes` | plugins/inputs/kibana/kibana.go:262-272 | the lower-case colour names green, yellow and red have the codes 1, 2 and 3 |
| `KibanaHealth.GetStatusValue` | plugins/inputs/kibana/kibana.go:205-215 | the status is never empty, and a non-empty level always yields one of the four legacy values |
| `KibanaHealth.LevelTakesPrecedence` | plugins/inputs/kibana/kibana.go:205-209 | with a non-empty level the status depends on the level alone: replacing the state changes nothing |
| `KibanaHealth.LegacyStateVerbatim` | plugins/inputs/kibana/kibana.go:210-214 | without a level a non-empty state is returned untranslated, and with neither the status is "unknown" |
| `KibanaHealth.StatusCode` | plugins/inputs/kibana/kibana.go:165-168 | the emitted `status_code` always lies in 0..3 |
| `KibanaHealth.LevelStatusCode` | plugins/inputs/kibana/kibana.go:165-168 | for a non-empty level the code is non-zero exactly when the level is available, degraded, unavailable or critical in any case, with 1, 2, 3, 3 respectively |
| `KibanaHealth.LegacyStatusCode` | plugins/inputs/kibana/kibana.go:211-213 | for a legacy state the code reads green, yellow and red case-insensitively from the state itself |
| `KibanaHealth.LegacyStateNotTranslated` | plugins/inputs/kibana/kibana.go:211-213 | "available" yields code 0 as a legacy state but code 1 as a level |
| `KibanaVersion.VersionPrefix` | plugins/inputs/kibana/kibana.go:174-180 | the prefix holds at most one dot, and a version without a dot is passed whole |
| `KibanaVersion.VersionPrefixShape` | plugins/inputs/kibana/kibana.go:174-180 | the prefix is a prefix of the version with at most one dot that is either the whole version or stops right before its second dot |
| `KibanaVersion.MajorMinorPrefixUnique` | plugins/inputs/kibana/kibana.go:174-180 | any prefix of that shape is the one the plugin computes |
| `KibanaVersion.VersionPrefixExamples` | plugins/inputs/kibana/kibana.go:174-180 | "8.11.0-SNAPSHOT" gives "8.11", "7" gives "7", "6..4" gives "6." |
| `KibanaFields.Truncate` | plugins/inputs/kibana/kibana.go:188 | converting the float uptime to an integer rounds toward zero |
| `KibanaFields.CommonFields` | plugins/inputs/kibana/kibana.go:168-172 | the five version-independent fields: `status_code` is the code of the overall status, `concurrent_connections`, `response_time_avg_ms` and `response_time_max_ms` are the reported figures, `requests_per_sec` is computed from the request total and the collection interval |
| `KibanaFields.NewLayoutFields` | plugins/inputs/kibana/kibana.go:187-192 | from 6.4 on: uptime from the process uptime, heap max and total both from the heap total, heap used and size limit from the heap figures |
| `KibanaFields.OldLayoutFields` | plugins/inputs/kibana/kibana.go:193-198 | before 6.4: uptime from the top-level uptime, heap max and total both from the legacy heap maximum, heap used from the legacy heap used; no size limit |
| `KibanaFields.BuildFields` | plugins/inputs/kibana/kibana.go:185-198 | the keys are the common, uptime and heap keys plus `heap_size_limit` only for 6.4 and later; `heap_max_bytes` equals `heap_total_bytes` and comes from the heap total (6.4 and later) or the legacy heap maximum; `status_code` is the code of the overall status |
| `KibanaFields.BuildFieldsSources` | plugins/inputs/kibana/kibana.go:168-198 | `uptime_ms` is the truncated process uptime (6.4 and later) or top-level uptime, `heap_used_bytes` the heap used (6.4 and later) or legacy heap used, `heap_size_limit` the heap size limit, and every common field keeps its version-independent value |
| `KibanaFields.BuildTags` | plugins/inputs/kibana/kibana.go:161-166 | the tags are exactly name (the instance name), source (the host), version (the full version string) and status (the legacy status, never empty) |
| `KibanaFields.GatherStatus` | plugins/inputs/kibana/kibana.go:149-183 | a fetch error or a version the parser rejects is returned as the error; otherwise the field map is the one selected by the test of the version prefix |
| `KibanaFields.GatheredMetricTags` | plugins/inputs/kibana/kibana.go:161-168 | a gathered metric tags the instance name, the full version, the host and the status string, and its `status_code` is the code of that status tag |
| `KibanaFields.LayoutsShareKeys` | plugins/inputs/kibana/kibana.go:187-198 | apart from `heap_size_limit` both version branches emit the same keys, and the common fields have the same values |
| `KibanaFields.OnlyPrefixReachesParser` | plugins/inputs/kibana/kibana.go:174-187 | two versions with the same major.minor prefix give the same outcome and the same fields |

## Left out

- The model covers the Kibana input plugin only. The configuration-migration
  engine (`config.ApplyMigrations`) and the Kubernetes inventory input's
  `gatherNode` are not part of this model.
- `Gather`: the goroutine per server, the `WaitGroup`, and the
  `[url=...]` wrapping of errors are concurrency and plumbing.
- `createHTTPClient`, `gatherJSONData` (request building, basic auth, HTTP
  status handling, JSON decoding): network I/O, replaced by the `Fetcher`
  parameter of `GatherStatus`, which returns the host and decoded record or
  the error.
- `SampleConfig`, `Start`, `Stop`, `newKibana` (the 5 s timeout) and `init`
  registration: plugin plumbing.
- `requests_per_sec`: the float division `total / interval * 1000` is not
  evaluated; the field carries its two operands (`RateField`).
- `strconv.ParseFloat` and the `>= 6.4` comparison: float arithmetic,
  replaced by the `VersionTest` parameter applied to the version prefix.
- The free-form `statuses` member of the status record: the plugin never reads it.
- `GoStrings.Lower`: lowers the ASCII letters and the two non-ASCII runes whose
  Go lower case is ASCII (U+0130 to `i`, U+212A to `k`) and keeps every other
  rune; Go lowers further non-ASCII letters, but to non-ASCII runes, so no
  comparison with the ASCII words above can differ.
- `KibanaFields.Truncate`: Go's conversion of an out-of-range, infinite or NaN
  float to `int64` is implementation-defined and is not modelled; the model
  gives the exact truncated integer.
