/**
 The proxy scrape client: construction, and one scrape as a step function
 that threads the client's stored totals. The pod lister's answer and the
 HTTP exchange are inputs: the listing is either an error or a list of pods,
 and `respond` maps the URL the client asks for to what the transport
 returned (a request-construction error, a transport failure, or the body as
 lines).
 */
module ScrapeClient {
  import opened Results
  import opened GoInt
  import opened Workload
  import opened Replicas
  import opened Endpoint
  import opened Exposition
  import opened DeltaTracker

  /** A configured HTTP client; only its presence matters to the model. */
  datatype HttpClient = HttpClient

  datatype Client = Client(http: HttpClient, metric: Metric, proxyType: string, lastScrapedRequest: map<string, int>)

  /** The client only ever stores the total of its own workload, as an int64. */
  predicate Consistent(c: Client)
  {
    && c.lastScrapedRequest.Keys <= {MetricKey(c.metric)}
    && StoredInt64(c.lastScrapedRequest)
  }

  /** `newProxyScrapeClient`: refuses a nil HTTP client, otherwise starts with no stored totals. */
  function NewClient(httpClient: Option<HttpClient>, metric: Metric, proxyType: string): (r: Result<Client, string>)
    ensures r.Err? <==> httpClient.None?
    ensures r.Ok? ==>
              && Some(r.value.http) == httpClient
              && r.value.metric == metric
              && r.value.proxyType == proxyType
              && r.value.lastScrapedRequest == map[]
              && Consistent(r.value)
  {
    match httpClient
    case None => Err("HTTP client must not be nil")
    case Some(h) => Ok(Client(h, metric, proxyType, map[]))
  }

  /** What the pod lister answered: a selector that could not be built, a failed listing, or the pods. */
  datatype Listing = SelectorRejected(error: string) | ListFailed(error: string) | Listed(pods: seq<Pod>)

  /** What the HTTP side answered for a URL. */
  datatype Fetch = RequestRejected(error: string) | TransportFailed | Fetched(lines: seq<string>)

  /** The two numbers of a `Stat`; the timestamp and the scraper's pod name are left out. */
  datatype Stat = Stat(averageConcurrentRequests: int, requestCount: int)

  const ZeroStat: Stat := Stat(0, 0)

  datatype Scraped = Scraped(result: Result<Stat, string>, client: Client)

  /** The endpoint a client builds for the picked pod. */
  function EndpointFor(c: Client, pod: Pod): Endpoint
  {
    BuildEndpoint(FlavourOf(c.proxyType), c.metric, pod)
  }

  /**
   The stat for a fetched body: both counters scaled by the replica count,
   the request count taken against the stored total, which the scaled total
   replaces.
   */
  function Assemble(c: Client, podCount: nat, e: Endpoint, lines: seq<string>): (s: Scraped)
    ensures var key := MetricKey(c.metric);
            var stored := Extrapolate(LastSample(lines, e.totalPattern), podCount);
            && s.result.Ok?
            && s.result.value.averageConcurrentRequests == Extrapolate(LastSample(lines, e.activePattern), podCount)
            && InInt32(s.result.value.requestCount)
            && Wrap32(Previous(c.lastScrapedRequest, key) + s.result.value.requestCount) == Wrap32(stored)
            && s.client == c.(lastScrapedRequest := c.lastScrapedRequest[key := stored])
  {
    var key := MetricKey(c.metric);
    var t := Track(c.lastScrapedRequest, key, Extrapolate(LastSample(lines, e.totalPattern), podCount));
    Scraped(Ok(Stat(Extrapolate(LastSample(lines, e.activePattern), podCount), t.requestCount)),
            c.(lastScrapedRequest := t.last))
  }

  /** The int64 wrap of the subtraction never shows: the count is the scaled total minus the stored one, truncated to int32. */
  lemma AssembleCount(c: Client, podCount: nat, e: Endpoint, lines: seq<string>)
    ensures Assemble(c, podCount, e, lines).result.value.requestCount
              == Wrap32(Extrapolate(LastSample(lines, e.totalPattern), podCount) - Previous(c.lastScrapedRequest, MetricKey(c.metric)))
  {
    var key := MetricKey(c.metric);
    var stored := Extrapolate(LastSample(lines, e.totalPattern), podCount);
    var prev := Previous(c.lastScrapedRequest, key);
    var t := Track(c.lastScrapedRequest, key, stored);
    assert Assemble(c, podCount, e, lines).result.value.requestCount == t.requestCount;
    assert t.requestCount == Wrap32(Wrap64(stored - prev));
    Wrap32OfWrap64(stored - prev);
  }

  /** The assembly as the source performs it, after one scanning pass over the body. */
  method ScanAndAssemble(c: Client, podCount: nat, e: Endpoint, lines: seq<string>) returns (s: Scraped)
    ensures s == Assemble(c, podCount, e, lines)
  {
    var total, active := ScanBody(lines, e.totalPattern, e.activePattern);
    var key := MetricKey(c.metric);
    var extrapolated := Extrapolate(total, podCount);
    var previous := if key in c.lastScrapedRequest then c.lastScrapedRequest[key] else 0;
    var requestCount := Wrap32(Wrap64(extrapolated - previous));
    s := Scraped(Ok(Stat(Extrapolate(active, podCount), requestCount)),
                 c.(lastScrapedRequest := c.lastScrapedRequest[key := extrapolated]));
  }

  /**
   One call of `Scrape`, with the arbitrary pod pick made by the caller.
   Listing and request errors fail without touching the store, a transport
   failure yields a zero stat without touching it, and a fetched body yields
   the scaled active sample and the request count against the stored total,
   which it then replaces.
   */
  function Step(c: Client, listing: Listing, pod: Pod, respond: string -> Fetch): (s: Scraped)
    requires listing.Listed? ==> ValidChoice(listing.pods, pod)
    ensures !listing.Listed? ==> s.result.Err? && s.client == c
    ensures listing.Listed? && respond(EndpointFor(c, pod).url).RequestRejected? ==>
              s.result.Err? && s.client == c
    ensures listing.Listed? && respond(EndpointFor(c, pod).url).TransportFailed? ==>
              s.result == Ok(ZeroStat) && s.client == c
    ensures listing.Listed? && respond(EndpointFor(c, pod).url).Fetched? ==>
              s == Assemble(c, |RunningNames(listing.pods)|, EndpointFor(c, pod), respond(EndpointFor(c, pod).url).lines)
  {
    match listing
    case SelectorRejected(err) => Scraped(Err(err), c)
    case ListFailed(err) => Scraped(Err(err), c)
    case Listed(pods) =>
      PodCountIsDistinctRunningNames(pods);
      var n := PodCount(pods);
      var e := EndpointFor(c, pod);
      match respond(e.url)
      case RequestRejected(err) => Scraped(Err(err), c)
      case TransportFailed => Scraped(Ok(ZeroStat), c)
      case Fetched(lines) => Assemble(c, n, e, lines)
  }

  /** A scrape whose fetch returned a body is the assembly of that body. */
  lemma StepFetched(c: Client, pods: seq<Pod>, pod: Pod, respond: string -> Fetch, lines: seq<string>)
    requires ValidChoice(pods, pod)
    requires respond(EndpointFor(c, pod).url) == Fetched(lines)
    ensures Step(c, Listed(pods), pod, respond) == Assemble(c, |RunningNames(pods)|, EndpointFor(c, pod), lines)
  {
  }

  /** A scrape keeps the client consistent, and changes nothing but its stored totals. */
  lemma StepKeepsConsistent(c: Client, listing: Listing, pod: Pod, respond: string -> Fetch)
    requires Consistent(c)
    requires listing.Listed? ==> ValidChoice(listing.pods, pod)
    ensures Consistent(Step(c, listing, pod, respond).client)
    ensures Step(c, listing, pod, respond).client.(lastScrapedRequest := c.lastScrapedRequest) == c
  {
  }

  /** A scrape that fetches a body reports its scaled total x2 minus the stored total x1, truncated to int32. */
  lemma ScrapeReportsDelta(c: Client, pods: seq<Pod>, p: Pod, r: string -> Fetch, lines: seq<string>, x1: int, x2: int)
    requires ValidChoice(pods, p)
    requires r(EndpointFor(c, p).url) == Fetched(lines)
    requires Previous(c.lastScrapedRequest, MetricKey(c.metric)) == x1
    requires x2 == Extrapolate(LastSample(lines, EndpointFor(c, p).totalPattern), |RunningNames(pods)|)
    ensures Step(c, Listed(pods), p, r).result.value.requestCount == Wrap32(x2 - x1)
  {
    var e := EndpointFor(c, p);
    var n := |RunningNames(pods)|;
    StepFetched(c, pods, p, r, lines);
    AssembleCount(c, n, e, lines);
  }

  /**
   Two successive scrapes that both fetch a body: the second reports its
   scaled total minus the first one's, truncated to int32, whatever was
   stored before the first.
   */
  lemma SuccessiveScrapes(c: Client, pods1: seq<Pod>, p1: Pod, r1: string -> Fetch, lines1: seq<string>, x1: int,
                          pods2: seq<Pod>, p2: Pod, r2: string -> Fetch, lines2: seq<string>, x2: int)
    requires ValidChoice(pods1, p1) && ValidChoice(pods2, p2)
    requires r1(EndpointFor(c, p1).url) == Fetched(lines1)
    requires r2(EndpointFor(c, p2).url) == Fetched(lines2)
    requires x1 == Extrapolate(LastSample(lines1, EndpointFor(c, p1).totalPattern), |RunningNames(pods1)|)
    requires x2 == Extrapolate(LastSample(lines2, EndpointFor(c, p2).totalPattern), |RunningNames(pods2)|)
    ensures Step(Step(c, Listed(pods1), p1, r1).client, Listed(pods2), p2, r2).result.value.requestCount == Wrap32(x2 - x1)
  {
    StepFetched(c, pods1, p1, r1, lines1);
    var c1 := Step(c, Listed(pods1), p1, r1).client;
    assert EndpointFor(c1, p2) == EndpointFor(c, p2);
    ScrapeReportsDelta(c1, pods2, p2, r2, lines2, x1, x2);
  }

  /**
   The scrape as the source performs it: select a replica, resolve the port
   and build the endpoint, fetch, scan both counters in one pass, then scale,
   track and assemble. It agrees with Step for the pod it picked.
   */
  method Scrape(c: Client, listing: Listing, respond: string -> Fetch) returns (s: Scraped, picked: Pod)
    ensures listing.Listed? ==> ValidChoice(listing.pods, picked)
    ensures listing.Listed? && PodCount(listing.pods) > 0 ==> picked in listing.pods && picked.phase == Running
    ensures s == Step(c, listing, picked, respond)
  {
    picked := EmptyPod;
    if !listing.Listed? {
      s := Scraped(Err(listing.error), c);
      return;
    }
    var podCount, pod := SelectReplica(listing.pods);
    PodCountIsDistinctRunningNames(listing.pods);
    picked := pod;
    var e := MakeEndpoint(FlavourOf(c.proxyType), c.metric, pod);
    assert e == EndpointFor(c, pod);
    var fetched := respond(e.url);
    match fetched {
      case RequestRejected(err) =>
        s := Scraped(Err(err), c);
      case TransportFailed =>
        s := Scraped(Ok(ZeroStat), c);
      case Fetched(lines) =>
        s := ScanAndAssemble(c, podCount, e, lines);
    }
  }

  /**
   As written, a listing with no running pod still scrapes (the pick stays
   the empty pod): the stat is zero-scaled, the request count is minus the
   stored total, and the stored total is reset to 0.
   */
  lemma StepWithoutReplicas(c: Client, pods: seq<Pod>, respond: string -> Fetch)
    requires Consistent(c)
    requires forall i | 0 <= i < |pods| :: pods[i].phase != Running
    requires respond(EndpointFor(c, EmptyPod).url).Fetched?
    ensures ValidChoice(pods, EmptyPod)
    ensures var s := Step(c, Listed(pods), EmptyPod, respond);
            && s.result == Ok(Stat(0, Wrap32(-Previous(c.lastScrapedRequest, MetricKey(c.metric)))))
            && s.client.lastScrapedRequest == c.lastScrapedRequest[MetricKey(c.metric) := 0]
  {
    PodCountIsDistinctRunningNames(pods);
    var e := EndpointFor(c, EmptyPod);
    var key := MetricKey(c.metric);
    var prev := Previous(c.lastScrapedRequest, key);
    assert Step(c, Listed(pods), EmptyPod, respond) == Assemble(c, 0, e, respond(e.url).lines);
    assert Extrapolate(LastSample(respond(e.url).lines, e.totalPattern), 0) == 0;
    assert Track(c.lastScrapedRequest, key, 0).requestCount == Wrap32(Wrap64(0 - prev));
    Wrap32OfWrap64(0 - prev);
  }

  /** A concrete instance: a stored total of 100 and no running pod give a request count of -100 and a stored 0. */
  lemma ZeroReplicasReportNegativeCount()
    ensures var c := Client(HttpClient, Metric("default", "svc", map[]), "envoy", map["default/svc" := 100]);
            var s := Step(c, Listed([]), EmptyPod, (u: string) => Fetched([]));
            s.result == Ok(Stat(0, -100)) && s.client.lastScrapedRequest == map["default/svc" := 0]
  {
    var c := Client(HttpClient, Metric("default", "svc", map[]), "envoy", map["default/svc" := 100]);
    assert MetricKey(c.metric) == "default/svc";
    StepWithoutReplicas(c, [], (u: string) => Fetched([]));
  }

  /**
   The scrape with the short-circuit the `pod == nil` test was meant to
   provide: no running pod means a zero stat and an untouched store.
   */
  function StepGuarded(c: Client, listing: Listing, pod: Pod, respond: string -> Fetch): (s: Scraped)
    requires listing.Listed? ==> ValidChoice(listing.pods, pod)
    ensures listing.Listed? && RunningNames(listing.pods) == {} ==> s == Scraped(Ok(ZeroStat), c)
    ensures !(listing.Listed? && RunningNames(listing.pods) == {}) ==> s == Step(c, listing, pod, respond)
  {
    if listing.Listed? && PodCount(listing.pods) == 0 then
      PodCountIsDistinctRunningNames(listing.pods);
      Scraped(Ok(ZeroStat), c)
    else
      PodCountIsDistinctRunningNames(if listing.Listed? then listing.pods else []);
      Step(c, listing, pod, respond)
  }

  /** With the guard, the store never changes on a scrape that saw no running pod. */
  lemma GuardedStepKeepsStoreWithoutReplicas(c: Client, pods: seq<Pod>, pod: Pod, respond: string -> Fetch)
    requires ValidChoice(pods, pod)
    requires forall i | 0 <= i < |pods| :: pods[i].phase != Running
    ensures StepGuarded(c, Listed(pods), pod, respond).client == c
    ensures StepGuarded(c, Listed(pods), pod, respond).result == Ok(ZeroStat)
  {
    PodCountIsDistinctRunningNames(pods);
  }
}
