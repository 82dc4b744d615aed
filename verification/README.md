# Proxy scrape client of the serving autoscaler, in Dafny

This project models the proxy scrape client of the serving autoscaler
(`pkg/autoscaler/envoy_scrape_client.go`). The client measures one workload by
reading the metrics page of the service-mesh sidecar of one of its replicas.
Each call of `Scrape` does the following:

- It lists the workload's pods and keeps the running ones, de-duplicated by
  name. Their number is the replica count. It picks one of them arbitrarily.
- It builds the sidecar's metrics URL and two literal match patterns. For
  `envoy` these come from the pod IP and a resolved port. For `linkerd` they
  are fixed. Any other proxy type gives empty strings.
- It fetches the page and scans it line by line for the last "total
  requests" and "active requests" samples.
- It scales both samples by the replica count. It reports the active
  requests, and the total minus the total stored at the previous scrape. It
  then stores the new scaled total under `namespace/name`.

The model follows the code, including its Go semantics:

- `strings.Contains` is true for an empty pattern.
- `strings.Split` on `" "` gives one more piece than there are spaces.
- `strconv.Atoi` returns 0 on a syntax error and saturates on overflow. It
  detects overflow on the digit prefix before it looks at later characters.
- int64 multiplication wraps, and the final `int32(...)` conversion
  truncates.
- A missing map key reads as 0 or "".

Modules:

| module | file | contents |
|---|---|---|
| `Results` | results.dfy | `Option`, `Result` |
| `GoInt` | go_int.dfy | int32/int64 ranges, `Wrap32`, `Wrap64`, `Clamp64` |
| `GoStrconv` | go_strconv.dfy | `Itoa`, `Atoi` |
| `GoStrings` | go_strings.dfy | `Contains`, `Split`, `Join` |
| `Workload` | workload.dfy | the workload's `Metric`, label lookup, the state key |
| `Replicas` | replicas.dfy | pods, the running index, the replica count, the pick |
| `Endpoint` | endpoint.dfy | proxy flavour, port resolution, URL and patterns |
| `Exposition` | exposition.dfy | the line scanner |
| `DeltaTracker` | delta_tracker.dfy | scaling, the stored totals, request-count deltas |
| `ScrapeClient` | scrape_client.dfy | `NewClient`, `Step` (one scrape as a pure function), `Scrape` (the same scrape as the source's sequence of loops) |
| `Scenarios` | scenarios.dfy | worked instances: one envoy metrics line, and two scrape cycles of a two-replica workload |

Some things are inputs to the model rather than computed by it:

- The pod lister's answer is an input: a selector error, a listing error, or
  the pods.
- The HTTP side is an input: a function from the requested URL to a request
  error, a transport failure, or the body as lines.
- The arbitrary pick is an input to `Step`, constrained by
  `Replicas.ValidChoice`. `Scrape` makes the pick with `:|` and is proved to
  agree with `Step` for the pod it picked.

## Model

| member | source | states |
|---|---|---|
| ScrapeClient.NewClient | pkg/autoscaler/envoy_scrape_client.go:26-37 | Construction fails iff the HTTP client is nil. Otherwise the client keeps the given client, workload and proxy type, and starts with an empty store of totals. |
| Replicas.RunningIndexSpec | pkg/autoscaler/envoy_scrape_client.go:63-68 | The name-indexed map holds exactly the names of running pods. Under each name it holds the last running pod of that name in the list. |
| Replicas.PodCountIsDistinctRunningNames | pkg/autoscaler/envoy_scrape_client.go:69 | The replica count is the number of distinct names among running pods. It is 0 iff no pod is running. |
| Replicas.ChoiceIsRunningReplica | pkg/autoscaler/envoy_scrape_client.go:62-72 | Any pick the loop can end with is the empty pod when nothing runs. Otherwise it is a running pod of the list, the last running one with its name. |
| Replicas.SelectReplica | pkg/autoscaler/envoy_scrape_client.go:62-72 | The selection loop returns the distinct running-name count and a valid pick. The pick is a running pod of the list whenever the count is positive, and the empty pod otherwise. |
| Endpoint.FlavourOf | pkg/autoscaler/envoy_scrape_client.go:78-96 | The flavour is Envoy iff the proxy type is "envoy", Linkerd iff it is "linkerd", and Unrecognized for anything else. |
| Endpoint.LastDeclaredPortSpec | pkg/autoscaler/envoy_scrape_client.go:82-88 | The container walk finds no port iff no container named after the workload declares one. Otherwise it finds the first port of the last such container. |
| Endpoint.ResolvePort | pkg/autoscaler/envoy_scrape_client.go:80-92 | The resolved port is never empty. |
| Endpoint.ResolvePortLoop | pkg/autoscaler/envoy_scrape_client.go:80-92 | The port is the non-empty `container-port` label if there is one. Otherwise it is the first port of the last container named after the workload that declares a port. Otherwise it is "80". |
| Endpoint.BuildEndpoint | pkg/autoscaler/envoy_scrape_client.go:77-100 | An unrecognised flavour gives an empty URL and empty patterns. Linkerd gives the two fixed inbound patterns. |
| Endpoint.MakeEndpoint | pkg/autoscaler/envoy_scrape_client.go:77-100 | The flavour branch as written agrees with `BuildEndpoint`, and a recognised flavour's URL is plain http. |
| Endpoint.EnvoyPatternEmbedsPrefix | pkg/autoscaler/envoy_scrape_client.go:94-95 | An envoy pattern starts with its metric name and contains "ip_port" verbatim. |
| Endpoint.LinkerdEndpoint | pkg/autoscaler/envoy_scrape_client.go:96-99 | For linkerd the URL is "http://" + ip + ":4191/metrics", and the patterns are the fixed inbound request-count and open-connection names, whatever the metric. |
| Endpoint.EnvoyEndpointPatterns | pkg/autoscaler/envoy_scrape_client.go:79-95 | For envoy the URL is "http://" + ip + ":15090/stats/prometheus". The total and active patterns start with their metric names, and both embed the pod IP and the resolved port. |
| Endpoint.EndpointUrlHost | pkg/autoscaler/envoy_scrape_client.go:79-97 | For envoy and linkerd the URL starts with "http://", followed by the pod IP and a colon. |
| Endpoint.UrlDeterminesPodIp | pkg/autoscaler/envoy_scrape_client.go:79-97 | Under a recognised flavour, two pods get the same URL only if they have the same IP. |
| GoStrconv.Itoa | pkg/autoscaler/envoy_scrape_client.go:85 | The rendering of a port is never empty. |
| GoStrconv.Atoi | pkg/autoscaler/envoy_scrape_client.go:117-124 | The value read always fits int64. A token that is empty after its sign reads as 0. |
| GoStrconv.AtoiItoa | pkg/autoscaler/envoy_scrape_client.go:85-117 | Atoi reads back every int64 that Itoa wrote. |
| GoStrconv.AtoiRejectsMalformed | pkg/autoscaler/envoy_scrape_client.go:117-124 | A token of at most 20 characters that is not an optionally signed run of digits reads as 0 (the ignored parse error). |
| GoStrconv.AtoiWellFormed | pkg/autoscaler/envoy_scrape_client.go:117-124 | A well-formed numeral reads as its signed value, saturated into the int64 range. |
| GoStrings.ContainsIffOccurs | pkg/autoscaler/envoy_scrape_client.go:114-121 | The substring test holds iff the pattern occurs at some index. |
| GoStrings.ContainsEmpty | pkg/autoscaler/envoy_scrape_client.go:114-121 | Every line contains the empty pattern. |
| GoStrings.Split | pkg/autoscaler/envoy_scrape_client.go:115-122 | Splitting on a character gives one more piece than the separator count, and no piece contains the separator. |
| GoStrings.JoinSplit | pkg/autoscaler/envoy_scrape_client.go:115-122 | Joining the pieces of a split restores the line. |
| GoStrings.SplitJoin | pkg/autoscaler/envoy_scrape_client.go:115-122 | Splitting a join of separator-free pieces gives back the pieces. |
| GoStrings.SplitInTwo | pkg/autoscaler/envoy_scrape_client.go:115-116 | A line splits into exactly two tokens iff it has exactly one space. The tokens are then the parts before and after that space. |
| GoStrings.SplitPieces | pkg/autoscaler/envoy_scrape_client.go:115-117 | "head tail" with no other space splits into [head, tail]. |
| Workload.Label | pkg/autoscaler/envoy_scrape_client.go:80 | A missing label reads as "", and a present label reads as its value. |
| Workload.MetricKey | pkg/autoscaler/envoy_scrape_client.go:57 | The state key is the namespace, a slash, then the name. |
| Exposition.LineSample | pkg/autoscaler/envoy_scrape_client.go:114-126 | A line contributes a sample iff it contains the pattern and has exactly one space. The sample fits int64. |
| Exposition.LineSampleValue | pkg/autoscaler/envoy_scrape_client.go:114-118 | A qualifying line "head tail" contributes Atoi(tail). |
| Exposition.EmptyPatternMatchesEveryLine | pkg/autoscaler/envoy_scrape_client.go:100-121 | Under the empty pattern of an unrecognised flavour, a line qualifies iff it has exactly one space. |
| Exposition.LastSampleSpec | pkg/autoscaler/envoy_scrape_client.go:113-128 | A counter stays 0 when no line qualifies. Otherwise it equals the sample of the last qualifying line. It always fits int64. |
| Exposition.ScanBody | pkg/autoscaler/envoy_scrape_client.go:55-128 | The one-pass loop leaves each counter at the last-qualifying-line value for its own pattern, independently of the other pattern. |
| GoInt.Wrap32 | pkg/autoscaler/envoy_scrape_client.go:130 | `int32(x)` lies in the int32 range, is congruent to x modulo 2^32, and is x when x already fits. |
| GoInt.Wrap64 | pkg/autoscaler/envoy_scrape_client.go:129-131 | An int64 operation's value lies in the int64 range, is congruent to the exact value modulo 2^64, and is exact when that fits. |
| GoInt.Wrap32OfWrap64 | pkg/autoscaler/envoy_scrape_client.go:130 | Truncating the wrapped int64 difference to int32 equals truncating the exact difference. |
| DeltaTracker.Previous | pkg/autoscaler/envoy_scrape_client.go:130 | An unseen key reads as a stored total of 0. |
| DeltaTracker.Extrapolate | pkg/autoscaler/envoy_scrape_client.go:129-131 | A scaled sample fits int64, and it is 0 when no replica runs. |
| DeltaTracker.ExtrapolateExact | pkg/autoscaler/envoy_scrape_client.go:129-131 | Without overflow the scaled sample is the exact product. |
| DeltaTracker.Track | pkg/autoscaler/envoy_scrape_client.go:130-131 | The store gains the key and holds the new total there; every other key is unchanged. The count fits int32, and previous + count is congruent to the new total modulo 2^32. The count is exactly new - previous when that fits. |
| DeltaTracker.TrackedCountAddsUp | pkg/autoscaler/envoy_scrape_client.go:130 | The truncated delta added back to the previous total is congruent to the new total modulo 2^32. |
| DeltaTracker.TrackKeepsInt64 | pkg/autoscaler/envoy_scrape_client.go:131 | Every stored value keeps fitting int64. |
| DeltaTracker.ReplayShape | pkg/autoscaler/envoy_scrape_client.go:130-131 | A run of scrapes reports one count per total and leaves the last total stored. |
| DeltaTracker.ReplayCount | pkg/autoscaler/envoy_scrape_client.go:130-131 | The i-th count of a run is the i-th total minus the total stored before it, truncated to int32. |
| DeltaTracker.ReplayDeltas | pkg/autoscaler/envoy_scrape_client.go:130-131 | A run reports successive differences, each truncated to int32: the first against the stored total, each later one against the total before it. The store ends with the last total. |
| DeltaTracker.ThreeCycles | pkg/autoscaler/envoy_scrape_client.go:130-131 | From an unseen key, scaled totals s1, s2, s3 report s1, s2-s1, s3-s2 when each of these fits int32, and leave s3 stored. Outside int32 the counts are the truncations that `DeltaTracker.ReplayDeltas` gives. |
| DeltaTracker.DistinctKeysCommute | pkg/autoscaler/envoy_scrape_client.go:130-131 | Updates under two different keys commute, and neither changes the other's count. |
| ScrapeClient.Assemble | pkg/autoscaler/envoy_scrape_client.go:129-131 | After a fetch the result is Ok. Its active figure is the scaled active sample, and its count fits int32, congruent to scaled total minus stored total. The client changes only by storing the scaled total under its key. |
| ScrapeClient.AssembleCount | pkg/autoscaler/envoy_scrape_client.go:130 | The reported count is the scaled total minus the stored one, truncated to int32. |
| ScrapeClient.ScanAndAssemble | pkg/autoscaler/envoy_scrape_client.go:113-131 | The scan-then-assemble code as written agrees with `Assemble`. |
| ScrapeClient.Step | pkg/autoscaler/envoy_scrape_client.go:40-132 | Selector, listing and request errors fail with the client unchanged. A transport failure gives an Ok zero stat with the client unchanged. A fetched body gives the assembly for the distinct-running-name count and the picked pod's endpoint. |
| ScrapeClient.StepFetched | pkg/autoscaler/envoy_scrape_client.go:106-131 | A scrape whose fetch returned a body is the assembly of that body. |
| ScrapeClient.StepKeepsConsistent | pkg/autoscaler/envoy_scrape_client.go:130-131 | A scrape keeps the store holding at most the client's own key with an int64 value. It changes nothing in the client but the store. |
| ScrapeClient.ScrapeReportsDelta | pkg/autoscaler/envoy_scrape_client.go:130 | A fetched scrape reports its scaled total minus the stored total, truncated to int32. |
| ScrapeClient.SuccessiveScrapes | pkg/autoscaler/envoy_scrape_client.go:130-131 | Of two successive fetched scrapes, the second reports its scaled total minus the first one's, truncated to int32, whatever was stored before the first. |
| ScrapeClient.Scrape | pkg/autoscaler/envoy_scrape_client.go:40-133 | The scrape as the source sequences it picks a valid replica, a running one when any runs. Its outcome equals `Step` for that pick. |
| ScrapeClient.StepWithoutReplicas | pkg/autoscaler/envoy_scrape_client.go:62-131 | As written, a listing with no running pod still fetches. If the fetch returns a body, the count is minus the stored total (truncated) and the stored total is reset to 0. |
| ScrapeClient.ZeroReplicasReportNegativeCount | pkg/autoscaler/envoy_scrape_client.go:62-131 | With 100 stored and no running pod, a scrape whose fetch returns a body reports -100 and stores 0. |
| ScrapeClient.StepGuarded | pkg/autoscaler/envoy_scrape_client.go:73-75 | With the intended guard, no running pod gives an Ok zero stat and an unchanged client. In every other case it is the scrape as written. |
| ScrapeClient.GuardedStepKeepsStoreWithoutReplicas | pkg/autoscaler/envoy_scrape_client.go:73-75 | With the guard, a scrape that saw no running pod leaves the client untouched and reports zero. |
| Scenarios.TotalLineIsNotActive | pkg/autoscaler/envoy_scrape_client.go:94-121 | For an IP and port without spaces, an envoy total-requests line contains the active pattern of the same prefix only when its numeral does. The active pattern is one character longer than the total one, so it cannot fit before the space, and it has no space, so it cannot cross it. |
| Scenarios.TotalLineSample | pkg/autoscaler/envoy_scrape_client.go:94-126 | For an IP, port and numeral without spaces, where the numeral does not contain the active pattern, an envoy total line samples `Atoi` of its numeral for the total pattern and nothing for the active pattern. |
| Scenarios.ParserExample | pkg/autoscaler/envoy_scrape_client.go:55-128 | A body with one envoy total line of 42 gives total 42 and active 0, for any IP without spaces. |
| Scenarios.SvcCycle | pkg/autoscaler/envoy_scrape_client.go:57-131 | For svc with two running replicas, where the picked one's only container is svc declaring port 8080, a two-digit sample and a stored total between 0 and 1000, one envoy scrape reports twice the sample minus the stored total, and stores twice the sample. |
| Scenarios.FirstCycle | pkg/autoscaler/envoy_scrape_client.go:26-131 | A new client scraping a sample of 42 from two replicas reports 84 requests and 0 concurrency, and stores 84. |
| Scenarios.SecondCycle | pkg/autoscaler/envoy_scrape_client.go:62-131 | With 84 stored, a sample of 50 from two replicas reports 16 and stores 100. |

## Left out

- `time.Now()` and the `scraperPodName` tag of the stat (:56-61) are opaque values, so `Stat` holds only the two numbers.
- The `float64` conversion of the active figure (:129) is left out. The model keeps the scaled int64 value.
- Building the label selector and calling the pod lister (:41-53) are foreign library calls. Their outcome is the `Listing` input.
- The HTTP request, the transport and `bufio.Scanner` (:102-112) are I/O. Their outcome is the `Fetch` input, with the body already cut into lines. The Scanner's token-size limit and its `\r` stripping are not modelled.
- The empty URL that an unrecognised flavour produces is not given a fixed outcome. What the HTTP side does with it is part of the `respond` input.
- The store has no lock in the source (:22, :130-131). Concurrent scrapes are not modelled. `DeltaTracker.DistinctKeysCommute` covers only the sequential interleavings of two keys. It is a property of the store map alone: one client keeps a map of its own (:35) and only ever stores its own key (`ScrapeClient.StepKeepsConsistent`), so no single client reaches a store holding two keys.
- `Scrape`'s `url` parameter (:40) is never read by the source, so the model has no such input.
- SvcCycle: fixes a two-digit sample and a stored total between 0 and 1000, so the count is the plain difference with no int32 truncation. `ScrapeClient.ScrapeReportsDelta` states the general case, truncation included, for any body and stored total.
- Go strings are byte strings, and the model uses Dafny character sequences. Every pattern, the `' '` separator and the digits are ASCII, so `Contains`, `Split` and `Atoi` give the same results on either. Lengths count characters, not bytes, including the 20-character bound of `GoStrconv.AtoiRejectsMalformed`.
- The `Atoi` lemmas cover well-formed numerals exactly. They cover malformed tokens only up to 20 characters, since a longer token can overflow before its first non-digit. `Atoi` itself models every length.

## Findings

| source | as written | input that shows it | evidently intended | confidence | as-written member | corrected member |
|---|---|---|---|---|---|---|
| pkg/autoscaler/envoy_scrape_client.go:62-75 | `pod` starts as a non-nil empty pod, so `pod == nil` never holds. A listing with no running pod scrapes the empty IP with a replica count of 0. When that fetch returns a body, it reports minus the stored total as the request count and resets the stored total to 0. | Stored total 100 for default/svc, listing with no running pod, any fetched body: RequestCount -100, stored total 0 | A listing with no running pod returns a zero stat without touching the stored total | not executed | ScrapeClient.StepWithoutReplicas | ScrapeClient.StepGuarded |

`ScrapeClient.ZeroReplicasReportNegativeCount` is the concrete instance of the as-written behaviour. `ScrapeClient.GuardedStepKeepsStoreWithoutReplicas` proves the intended property of the corrected step.

The source's own `pod == nil` test at :73 shows that a zero-replica short circuit was meant: it returns the zero stat before any request or store update. It can never fire because `pod` is initialised to a non-nil empty pod at :62. The model follows the code in `Step` and `Scrape`.
