/** The caller's description of the workload a scrape client measures. */
module Workload {

  /** Namespace, name and labels of the workload (the source's `Metric`). */
  datatype Metric = Metric(namespace: string, name: string, labels: map<string, string>)

  /** A Go map lookup: a missing label reads as the empty string. */
  function Label(labels: map<string, string>, key: string): (v: string)
    ensures key !in labels ==> v == ""
    ensures key in labels ==> v == labels[key]
  {
    if key in labels then labels[key] else ""
  }

  /** The key "namespace/name" under which the client remembers the last cumulative count. */
  function MetricKey(m: Metric): (key: string)
    ensures |key| == |m.namespace| + 1 + |m.name|
    ensures key[..|m.namespace|] == m.namespace && key[|m.namespace|] == '/' && key[|m.namespace| + 1..] == m.name
  {
    m.namespace + "/" + m.name
  }
}
