/**
 Worked instances of the pipeline, for any replica IP without spaces: one
 envoy metrics line, and two scrape cycles of a two-replica workload.
 */
module Scenarios {
  import opened Results
  import opened GoStrconv
  import opened GoStrings
  import opened Workload
  import opened Replicas
  import opened Endpoint
  import opened Exposition
  import opened DeltaTracker
  import opened ScrapeClient

  /** The envoy total-requests line for prefix ip_port, carrying the given numeral. */
  function TotalLine(ip: string, port: string, numeral: string): string
  {
    EnvoyPattern(EnvoyTotalMetric, ip, port) + " " + numeral
  }

  /** The active pattern is one character longer than the total pattern of the same prefix. */
  lemma ActiveLongerThanTotal(ip: string, port: string)
    ensures |EnvoyPattern(EnvoyActiveMetric, ip, port)| == |EnvoyPattern(EnvoyTotalMetric, ip, port)| + 1
  {
    assert |EnvoyActiveMetric| == |EnvoyTotalMetric| + 1;
  }

  /** Neither envoy metric name contains a space. */
  lemma MetricNamesHaveNoSpace()
    ensures ' ' !in EnvoyTotalMetric && ' ' !in EnvoyActiveMetric
  {
  }

  lemma NoSpaceInPattern(metricName: string, ip: string, port: string)
    requires ' ' !in metricName && ' ' !in ip && ' ' !in port
    ensures ' ' !in EnvoyPattern(metricName, ip, port)
  {
  }

  /**
   A space-free pattern one character longer than head occurs in
   head + " " + tail only inside tail: an occurrence that starts within
   head reaches the space.
   */
  lemma PastTheSpace(head: string, tail: string, p: string, i: int)
    requires |p| == |head| + 1 && ' ' !in p
    requires !Contains(tail, p)
    ensures !OccursAt(head + " " + tail, p, i)
  {
    var line := head + " " + tail;
    ContainsIffOccurs(tail, p);
    if 0 <= i && i + |p| <= |line| {
      if i <= |head| {
        assert line[i..i + |p|][|head| - i] == line[|head|] == ' ';
      } else {
        var j := i - |head| - 1;
        assert line[|head| + 1..] == tail;
        assert line[i..i + |p|] == tail[j..j + |p|];
        assert !OccursAt(tail, p, j);
      }
    }
  }

  /** A total line contains the active pattern of the same prefix only through its numeral. */
  lemma TotalLineIsNotActive(ip: string, port: string, numeral: string)
    requires ' ' !in ip && ' ' !in port
    requires !Contains(numeral, EnvoyPattern(EnvoyActiveMetric, ip, port))
    ensures !Contains(TotalLine(ip, port, numeral), EnvoyPattern(EnvoyActiveMetric, ip, port))
  {
    var tp := EnvoyPattern(EnvoyTotalMetric, ip, port);
    var ap := EnvoyPattern(EnvoyActiveMetric, ip, port);
    ActiveLongerThanTotal(ip, port);
    MetricNamesHaveNoSpace();
    NoSpaceInPattern(EnvoyActiveMetric, ip, port);
    ContainsIffOccurs(tp + " " + numeral, ap);
    forall i | 0 <= i <= |tp + " " + numeral|
      ensures !OccursAt(tp + " " + numeral, ap, i)
    {
      PastTheSpace(tp, numeral, ap, i);
    }
  }

  /** A line "head tail" qualifies for its own head as pattern and samples its tail. */
  lemma OwnHeadSample(head: string, tail: string)
    requires ' ' !in head && ' ' !in tail
    ensures LineSample(head + " " + tail, head) == Some(Atoi(tail))
  {
    assert (head + " " + tail)[..|head|] == head;
    ContainsAt(head + " " + tail, head, 0);
    LineSampleValue(head, tail, head);
  }

  /** A total line samples its numeral for the total pattern and nothing for the active one. */
  lemma TotalLineSample(ip: string, port: string, numeral: string)
    requires ' ' !in ip && ' ' !in port && ' ' !in numeral
    requires !Contains(numeral, EnvoyPattern(EnvoyActiveMetric, ip, port))
    ensures LineSample(TotalLine(ip, port, numeral), EnvoyPattern(EnvoyTotalMetric, ip, port)) == Some(Atoi(numeral))
    ensures LineSample(TotalLine(ip, port, numeral), EnvoyPattern(EnvoyActiveMetric, ip, port)).None?
  {
    MetricNamesHaveNoSpace();
    NoSpaceInPattern(EnvoyTotalMetric, ip, port);
    OwnHeadSample(EnvoyPattern(EnvoyTotalMetric, ip, port), numeral);
    TotalLineIsNotActive(ip, port, numeral);
  }

  /** A pattern longer than the text never occurs in it. */
  lemma LongPatternMisses(s: string, p: string)
    requires |p| > |s|
    ensures !Contains(s, p)
  {
    ContainsIffOccurs(s, p);
  }

  /** A numeral shorter than the active pattern cannot contain it. */
  lemma ShortNumeral(ip: string, port: string, numeral: string)
    requires |numeral| <= 2
    ensures !Contains(numeral, EnvoyPattern(EnvoyActiveMetric, ip, port))
  {
    ActiveLongerThanTotal(ip, port);
    LongPatternMisses(numeral, EnvoyPattern(EnvoyActiveMetric, ip, port));
  }

  lemma AtoiTwoDigits(numeral: string)
    requires |numeral| == 2 && IsDigit(numeral[0]) && IsDigit(numeral[1])
    ensures Atoi(numeral) == DigitValue(numeral[0]) * 10 + DigitValue(numeral[1])
  {
    AtoiWellFormed(numeral);
    assert Unsigned(numeral) == numeral;
    var first := numeral[..1];
    assert first[..0] == [] && first[0] == numeral[0];
    assert DigitsValue(first) == DigitValue(numeral[0]);
    assert numeral[..|numeral| - 1] == first;
  }

  /** A body whose only line is the envoy total line of 42 for ip_8080 gives total 42 and active 0, for any IP without spaces. */
  lemma ParserExample(ip: string)
    requires ' ' !in ip
    ensures LastSample([TotalLine(ip, "8080", "42")], EnvoyPattern(EnvoyTotalMetric, ip, "8080")) == 42
    ensures LastSample([TotalLine(ip, "8080", "42")], EnvoyPattern(EnvoyActiveMetric, ip, "8080")) == 0
  {
    ShortNumeral(ip, "8080", "42");
    TotalLineSample(ip, "8080", "42");
    AtoiTwoDigits("42");
  }

  const Svc: Metric := Metric("default", "svc", map["app" := "svc", "version" := "v1"])

  /** Two running replicas of svc under distinct names; the first declares port 8080 on its "svc" container. */
  predicate TwoReplicas(a: Pod, b: Pod)
  {
    && a.phase == Running && b.phase == Running && a.name != b.name
    && a.containers == [Container("svc", [8080])]
    && ' ' !in a.podIP
  }

  lemma ItoaPort()
    ensures Itoa(8080) == "8080"
  {
    assert NatDigits(8) == "8";
    assert NatDigits(80) == "80";
    assert NatDigits(808) == "808";
  }

  /** Two running replicas under distinct names: the count is 2 and the first is a pick the loop can end with. */
  lemma TwoReplicaChoice(a: Pod, b: Pod)
    requires a.phase == Running && b.phase == Running && a.name != b.name
    ensures ValidChoice([a, b], a)
    ensures |RunningNames([a, b])| == 2
  {
    var pods := [a, b];
    assert RunningIndex([a]) == map[a.name := a] by {
      assert [a][..0] == [];
    }
    assert RunningIndex(pods) == RunningIndex([a])[b.name := b] by {
      assert pods[..1] == [a];
    }
    assert a == RunningIndex(pods)[a.name];
    assert |RunningIndex(pods).Keys| == 2;
    PodCountIsDistinctRunningNames(pods);
  }

  /** The replica declares 8080 on the container named after the workload, so an envoy client scrapes ip_8080. */
  lemma SvcEndpoint(c: Client, a: Pod)
    requires c.metric == Svc && c.proxyType == "envoy"
    requires a.containers == [Container("svc", [8080])]
    ensures EndpointFor(c, a).totalPattern == EnvoyPattern(EnvoyTotalMetric, a.podIP, "8080")
    ensures EndpointFor(c, a).activePattern == EnvoyPattern(EnvoyActiveMetric, a.podIP, "8080")
  {
    ItoaPort();
    assert Label(Svc.labels, PortLabel) == "";
    assert a.containers[..0] == [];
    assert LastDeclaredPort(a.containers, "svc") == Some(8080);
    assert ResolvePort(Svc, a) == "8080";
  }

  /** The proxy answers every URL with one total line carrying the given numeral. */
  function Page(ip: string, numeral: string): string -> Fetch
  {
    (u: string) => Fetched([TotalLine(ip, "8080", numeral)])
  }

  /** Assembling a body whose samples are `total` and 0, with two replicas and a small stored total. */
  lemma AssembleTwoReplicas(c: Client, e: Endpoint, lines: seq<string>, total: int)
    requires LastSample(lines, e.totalPattern) == total && LastSample(lines, e.activePattern) == 0
    requires 0 <= total <= 99
    requires MetricKey(c.metric) == "default/svc"
    requires 0 <= Previous(c.lastScrapedRequest, "default/svc") <= 1000
    ensures Assemble(c, 2, e, lines)
              == Scraped(Ok(Stat(0, 2 * total - Previous(c.lastScrapedRequest, "default/svc"))),
                         c.(lastScrapedRequest := c.lastScrapedRequest["default/svc" := 2 * total]))
  {
    ExtrapolateExact(total, 2);
    ExtrapolateExact(0, 2);
  }

  lemma SvcKey()
    ensures MetricKey(Svc) == "default/svc"
  {
  }

  /** The svc client scrapes the first replica's page, and the page's samples are the numeral and 0. */
  lemma SvcSamples(c: Client, a: Pod, numeral: string)
    requires c.metric == Svc && c.proxyType == "envoy"
    requires a.containers == [Container("svc", [8080])] && ' ' !in a.podIP
    requires |numeral| == 2 && IsDigit(numeral[0]) && IsDigit(numeral[1])
    ensures var e := EndpointFor(c, a);
            var lines := [TotalLine(a.podIP, "8080", numeral)];
            && LastSample(lines, e.totalPattern) == DigitValue(numeral[0]) * 10 + DigitValue(numeral[1])
            && LastSample(lines, e.activePattern) == 0
  {
    SvcEndpoint(c, a);
    ShortNumeral(a.podIP, "8080", numeral);
    TotalLineSample(a.podIP, "8080", numeral);
    AtoiTwoDigits(numeral);
    var lines := [TotalLine(a.podIP, "8080", numeral)];
    assert lines[..0] == [];
  }

  /** A svc cycle that picks the first of two replicas is the assembly of that replica's page with a count of 2. */
  lemma SvcStep(c: Client, a: Pod, b: Pod, numeral: string)
    requires TwoReplicas(a, b)
    ensures ValidChoice([a, b], a)
    ensures Step(c, Listed([a, b]), a, Page(a.podIP, numeral))
              == Assemble(c, 2, EndpointFor(c, a), [TotalLine(a.podIP, "8080", numeral)])
  {
    TwoReplicaChoice(a, b);
    var e := EndpointFor(c, a);
    var lines := [TotalLine(a.podIP, "8080", numeral)];
    assert Page(a.podIP, numeral)(e.url) == Fetched(lines);
    StepFetched(c, [a, b], a, Page(a.podIP, numeral), lines);
  }

  /** One cycle of the svc envoy client picking the first of two replicas: it reports twice the sample minus the stored total. */
  lemma SvcCycle(c: Client, a: Pod, b: Pod, numeral: string, n: int)
    requires c.metric == Svc && c.proxyType == "envoy"
    requires TwoReplicas(a, b)
    requires |numeral| == 2 && IsDigit(numeral[0]) && IsDigit(numeral[1])
    requires n == DigitValue(numeral[0]) * 10 + DigitValue(numeral[1])
    requires 0 <= Previous(c.lastScrapedRequest, "default/svc") <= 1000
    ensures ValidChoice([a, b], a)
    ensures Step(c, Listed([a, b]), a, Page(a.podIP, numeral))
              == Scraped(Ok(Stat(0, 2 * n - Previous(c.lastScrapedRequest, "default/svc"))),
                         c.(lastScrapedRequest := c.lastScrapedRequest["default/svc" := 2 * n]))
  {
    SvcStep(c, a, b, numeral);
    SvcSamples(c, a, numeral);
    SvcKey();
    var e := EndpointFor(c, a);
    var lines := [TotalLine(a.podIP, "8080", numeral)];
    AssembleTwoReplicas(c, e, lines, n);
  }

  /**
   First cycle of a new envoy client of a two-replica workload: a sample of
   42 reports 84 requests and stores 84; no active line means 0 concurrency.
   */
  lemma FirstCycle(http: HttpClient, a: Pod, b: Pod)
    requires TwoReplicas(a, b)
    ensures NewClient(Some(http), Svc, "envoy") == Ok(Client(http, Svc, "envoy", map[]))
    ensures ValidChoice([a, b], a)
    ensures Step(Client(http, Svc, "envoy", map[]), Listed([a, b]), a, Page(a.podIP, "42"))
              == Scraped(Ok(Stat(0, 84)), Client(http, Svc, "envoy", map["default/svc" := 84]))
  {
    var c := Client(http, Svc, "envoy", map[]);
    assert Previous(c.lastScrapedRequest, "default/svc") == 0;
    assert DigitValue('4') * 10 + DigitValue('2') == 42;
    SvcCycle(c, a, b, "42", 42);
    assert c.lastScrapedRequest["default/svc" := 84] == map["default/svc" := 84];
  }

  /** Second cycle: with 84 stored, a sample of 50 reports only the increase, 16, and stores 100. */
  lemma SecondCycle(http: HttpClient, a: Pod, b: Pod)
    requires TwoReplicas(a, b)
    ensures ValidChoice([a, b], a)
    ensures Step(Client(http, Svc, "envoy", map["default/svc" := 84]), Listed([a, b]), a, Page(a.podIP, "50"))
              == Scraped(Ok(Stat(0, 16)), Client(http, Svc, "envoy", map["default/svc" := 100]))
  {
    var c := Client(http, Svc, "envoy", map["default/svc" := 84]);
    var stored := c.lastScrapedRequest;
    assert Previous(stored, "default/svc") == 84;
    assert stored["default/svc" := 100] == map["default/svc" := 100];
    assert DigitValue('5') * 10 + DigitValue('0') == 50;
    SvcCycle(c, a, b, "50", 50);
    assert 2 * 50 - Previous(stored, "default/svc") == 16;
  }
}
