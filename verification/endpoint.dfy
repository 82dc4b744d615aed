/**
 Endpoint building: from the picked pod and the proxy flavour, the URL of the
 proxy's metrics page and the two literal patterns that identify the
 total-requests line and the active-requests line on that page.
 */
module Endpoint {
  import opened Results
  import opened GoStrconv
  import opened GoStrings
  import opened Workload
  import opened Replicas

  /** The proxy flavours the client recognises; any other proxy type is Unrecognized. */
  datatype Flavour = Envoy | Linkerd | Unrecognized

  function FlavourOf(proxyType: string): (f: Flavour)
    ensures f == Envoy <==> proxyType == "envoy"
    ensures f == Linkerd <==> proxyType == "linkerd"
  {
    if proxyType == "envoy" then Envoy
    else if proxyType == "linkerd" then Linkerd
    else Unrecognized
  }

  datatype Endpoint = Endpoint(url: string, totalPattern: string, activePattern: string)

  const PortLabel: string := "container-port"
  const DefaultPort: string := "80"
  const EnvoyTotalMetric: string := "envoy_http_downstream_rq_total"
  const EnvoyActiveMetric: string := "envoy_http_downstream_rq_active"
  const EnvoyPrefixOpen: string := "{http_conn_manager_prefix=\""
  const EnvoyPrefixClose: string := "\"}"
  const LinkerdTotalPattern: string := "request_handle_us_count{direction=\"inbound\"}"
  const LinkerdActivePattern: string :=
    "tcp_open_connections{direction=\"inbound\",peer=\"src\",tls=\"no_identity\",no_tls_reason=\"not_provided_by_remote\"}"

  /**
   The first declared port of the last container named `name` that declares
   any port: the container loop overwrites its pick on every such container.
   */
  function LastDeclaredPort(containers: seq<Container>, name: string): Option<int>
  {
    if |containers| == 0 then None
    else
      var c := containers[|containers| - 1];
      if c.name == name && |c.ports| > 0 then Some(c.ports[0])
      else LastDeclaredPort(containers[..|containers| - 1], name)
  }

  /** containers[j] is named `name`, declares a port, and no later container does both. */
  predicate LastPortedContainer(containers: seq<Container>, name: string, j: int)
  {
    && 0 <= j < |containers|
    && containers[j].name == name && |containers[j].ports| > 0
    && forall l | j < l < |containers| :: !(containers[l].name == name && |containers[l].ports| > 0)
  }

  /** LastDeclaredPort finds a port iff some container of that name declares one, and it is the last such container's first port. */
  lemma {:induction false} LastDeclaredPortSpec(containers: seq<Container>, name: string)
    ensures LastDeclaredPort(containers, name).None? <==>
              forall j | 0 <= j < |containers| :: !(containers[j].name == name && |containers[j].ports| > 0)
    ensures forall j | LastPortedContainer(containers, name, j) ::
              LastDeclaredPort(containers, name) == Some(containers[j].ports[0])
  {
    if |containers| > 0 {
      var init := containers[..|containers| - 1];
      LastDeclaredPortSpec(init, name);
      assert forall j | 0 <= j < |init| :: init[j] == containers[j];
      forall j | LastPortedContainer(containers, name, j)
        ensures LastDeclaredPort(containers, name) == Some(containers[j].ports[0])
      {
        if j < |containers| - 1 {
          assert LastPortedContainer(init, name, j);
        }
      }
    }
  }

  /** The port in the envoy connection-manager prefix: label, else a declared container port, else 80. */
  function ResolvePort(metric: Metric, pod: Pod): (port: string)
    ensures port != ""
  {
    var labelled := Label(metric.labels, PortLabel);
    if labelled != "" then labelled
    else match LastDeclaredPort(pod.containers, metric.name)
      case Some(p) => Itoa(p)
      case None => DefaultPort
  }

  /**
   The port resolution as the source writes it: start from the label, walk
   every container when it is empty, and fall back to 80.
   */
  method ResolvePortLoop(metric: Metric, pod: Pod) returns (port: string)
    ensures port == ResolvePort(metric, pod)
    ensures Label(metric.labels, PortLabel) != "" ==> port == Label(metric.labels, PortLabel)
    ensures Label(metric.labels, PortLabel) == "" ==>
              (forall j | 0 <= j < |pod.containers| ::
                 !(pod.containers[j].name == metric.name && |pod.containers[j].ports| > 0)) ==>
              port == DefaultPort
    ensures Label(metric.labels, PortLabel) == "" ==>
              forall j | LastPortedContainer(pod.containers, metric.name, j) :: port == Itoa(pod.containers[j].ports[0])
  {
    port := Label(metric.labels, PortLabel);
    if port == "" {
      var i := 0;
      while i < |pod.containers|
        invariant 0 <= i <= |pod.containers|
        invariant port == match LastDeclaredPort(pod.containers[..i], metric.name)
                           case Some(p) => Itoa(p)
                           case None => ""
      {
        assert pod.containers[..i + 1][..i] == pod.containers[..i];
        var con := pod.containers[i];
        if con.name == metric.name {
          if |con.ports| > 0 {
            port := Itoa(con.ports[0]);
          }
        }
        i := i + 1;
      }
      assert pod.containers[..|pod.containers|] == pod.containers;
    }
    if port == "" {
      port := DefaultPort;
    }
    LastDeclaredPortSpec(pod.containers, metric.name);
  }

  /** The envoy pattern for one metric name and one "ip_port" connection-manager prefix. */
  function EnvoyPattern(metricName: string, ip: string, port: string): string
  {
    metricName + EnvoyPrefixOpen + (ip + "_" + port) + EnvoyPrefixClose
  }

  /** The scrape endpoint for a flavour, a workload and the picked pod. */
  function BuildEndpoint(flavour: Flavour, metric: Metric, pod: Pod): (e: Endpoint)
    ensures flavour == Unrecognized ==> e == Endpoint("", "", "")
    ensures flavour == Linkerd ==>
              e.totalPattern == LinkerdTotalPattern && e.activePattern == LinkerdActivePattern
  {
    match flavour
    case Envoy =>
      var port := ResolvePort(metric, pod);
      Endpoint("http://" + pod.podIP + ":15090/stats/prometheus",
               EnvoyPattern(EnvoyTotalMetric, pod.podIP, port),
               EnvoyPattern(EnvoyActiveMetric, pod.podIP, port))
    case Linkerd =>
      Endpoint("http://" + pod.podIP + ":4191/metrics", LinkerdTotalPattern, LinkerdActivePattern)
    case Unrecognized =>
      Endpoint("", "", "")
  }

  /** The flavour branch as the source writes it, resolving the envoy port with the container loop. */
  method MakeEndpoint(flavour: Flavour, metric: Metric, pod: Pod) returns (e: Endpoint)
    ensures e == BuildEndpoint(flavour, metric, pod)
    ensures flavour != Unrecognized ==> HasPrefix(e.url, "http://")
  {
    if flavour == Envoy {
      var port := ResolvePortLoop(metric, pod);
      e := Endpoint("http://" + pod.podIP + ":15090/stats/prometheus",
                    EnvoyPattern(EnvoyTotalMetric, pod.podIP, port),
                    EnvoyPattern(EnvoyActiveMetric, pod.podIP, port));
    } else if flavour == Linkerd {
      e := Endpoint("http://" + pod.podIP + ":4191/metrics", LinkerdTotalPattern, LinkerdActivePattern);
    } else {
      e := Endpoint("", "", "");
    }
  }

  /** An envoy pattern names its metric and embeds the "ip_port" prefix verbatim. */
  lemma EnvoyPatternEmbedsPrefix(metricName: string, ip: string, port: string)
    ensures HasPrefix(EnvoyPattern(metricName, ip, port), metricName)
    ensures Contains(EnvoyPattern(metricName, ip, port), ip + "_" + port)
  {
    ContainsMiddle(metricName, EnvoyPrefixOpen, ip + "_" + port, EnvoyPrefixClose);
  }

  /** For envoy both patterns name their metric and embed the picked pod's IP and the resolved port. */
  lemma EnvoyEndpointPatterns(metric: Metric, pod: Pod)
    ensures var e := BuildEndpoint(Envoy, metric, pod);
            var prefix := pod.podIP + "_" + ResolvePort(metric, pod);
            && e.url == "http://" + pod.podIP + ":15090/stats/prometheus"
            && HasPrefix(e.totalPattern, EnvoyTotalMetric)
            && HasPrefix(e.activePattern, EnvoyActiveMetric)
            && Contains(e.totalPattern, prefix)
            && Contains(e.activePattern, prefix)
  {
    var port := ResolvePort(metric, pod);
    EnvoyPatternEmbedsPrefix(EnvoyTotalMetric, pod.podIP, port);
    EnvoyPatternEmbedsPrefix(EnvoyActiveMetric, pod.podIP, port);
  }

  /** For linkerd the URL is the pod IP on the proxy's admin port 4191 and the patterns are the fixed linkerd names. */
  lemma LinkerdEndpoint(metric: Metric, pod: Pod)
    ensures BuildEndpoint(Linkerd, metric, pod).url == "http://" + pod.podIP + ":4191/metrics"
    ensures BuildEndpoint(Linkerd, metric, pod).totalPattern == LinkerdTotalPattern
    ensures BuildEndpoint(Linkerd, metric, pod).activePattern == LinkerdActivePattern
  {
  }

  /** An http URL built as "http://" + ip + rest, with rest opening on the port colon, has host ip. */
  lemma HostAt(ip: string, rest: string)
    requires |rest| > 0 && rest[0] == ':'
    ensures HasPrefix("http://" + ip + rest, "http://")
    ensures OccursAt("http://" + ip + rest, ip + ":", 7)
  {
    var url := "http://" + ip + rest;
    assert url[..7] == "http://";
    assert url[7..7 + |ip| + 1] == ip + ":";
  }

  /** For both recognised flavours the URL is plain http and its host is the pod IP. */
  lemma EndpointUrlHost(flavour: Flavour, metric: Metric, pod: Pod)
    requires flavour != Unrecognized
    ensures var url := BuildEndpoint(flavour, metric, pod).url;
            HasPrefix(url, "http://") && OccursAt(url, pod.podIP + ":", 7)
  {
    if flavour == Envoy {
      HostAt(pod.podIP, ":15090/stats/prometheus");
    } else {
      HostAt(pod.podIP, ":4191/metrics");
    }
  }

  /** Two pods get the same URL from a recognised flavour only if they have the same IP. */
  lemma UrlDeterminesPodIp(flavour: Flavour, metric: Metric, p: Pod, q: Pod)
    requires flavour != Unrecognized
    requires BuildEndpoint(flavour, metric, p).url == BuildEndpoint(flavour, metric, q).url
    ensures p.podIP == q.podIP
  {
    var u := BuildEndpoint(flavour, metric, p).url;
    var tail := if flavour == Envoy then ":15090/stats/prometheus" else ":4191/metrics";
    assert u == "http://" + p.podIP + tail;
    assert u == "http://" + q.podIP + tail;
    assert |p.podIP| == |q.podIP|;
    assert p.podIP == u[7..7 + |p.podIP|];
  }
}
