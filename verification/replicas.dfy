/**
 Replica selection: the pods the lister returned are indexed by name, keeping
 only those in the Running phase (a later pod with the same name replaces an
 earlier one), the replica count is the number of distinct names, and one
 indexed pod is picked arbitrarily. The pick starts out as an empty pod and
 is only replaced when the index is non-empty.
 */
module Replicas {

  datatype Phase = Unset | Pending | Running | Succeeded | Failed | Unknown

  /** A container with its declared container ports, in declaration order. */
  datatype Container = Container(name: string, ports: seq<int>)

  datatype Pod = Pod(name: string, phase: Phase, podIP: string, containers: seq<Container>)

  /** Go's `&corev1.Pod{}`: no name, no phase, no IP, no containers. */
  const EmptyPod: Pod := Pod("", Unset, "", [])

  /** The name-indexed map of running pods, built by one pass over the list. */
  function RunningIndex(pods: seq<Pod>): map<string, Pod>
  {
    if |pods| == 0 then map[]
    else
      var m := RunningIndex(pods[..|pods| - 1]);
      var p := pods[|pods| - 1];
      if p.phase == Running then m[p.name := p] else m
  }

  /** The names of the running pods in the list. */
  function RunningNames(pods: seq<Pod>): set<string>
  {
    set i | 0 <= i < |pods| && pods[i].phase == Running :: pods[i].name
  }

  /** pods[j] is running, is named k, and no later running pod is named k. */
  predicate LastRunningNamed(pods: seq<Pod>, k: string, j: int)
  {
    && 0 <= j < |pods|
    && pods[j].phase == Running
    && pods[j].name == k
    && forall l | j < l < |pods| :: !(pods[l].phase == Running && pods[l].name == k)
  }

  /**
   The index holds exactly the names of running pods, and under each name
   the last running pod of that name in the list.
   */
  lemma {:induction false} RunningIndexSpec(pods: seq<Pod>)
    ensures RunningIndex(pods).Keys == RunningNames(pods)
    ensures forall k | k in RunningIndex(pods) ::
              exists j :: LastRunningNamed(pods, k, j) && RunningIndex(pods)[k] == pods[j]
  {
    if |pods| > 0 {
      var init := pods[..|pods| - 1];
      var p := pods[|pods| - 1];
      RunningIndexSpec(init);
      var m := RunningIndex(pods);
      assert forall i | 0 <= i < |init| :: init[i] == pods[i];
      if p.phase == Running {
        assert RunningNames(pods) == RunningNames(init) + {p.name};
        assert LastRunningNamed(pods, p.name, |pods| - 1);
      } else {
        assert RunningNames(pods) == RunningNames(init);
      }
      forall k | k in m
        ensures exists j :: LastRunningNamed(pods, k, j) && m[k] == pods[j]
      {
        if p.phase == Running && k == p.name {
          assert LastRunningNamed(pods, k, |pods| - 1);
        } else {
          var j :| LastRunningNamed(init, k, j) && RunningIndex(init)[k] == init[j];
          assert LastRunningNamed(pods, k, j);
        }
      }
    }
  }

  /** `podCount`: the size of the running index. */
  function PodCount(pods: seq<Pod>): nat
  {
    |RunningIndex(pods)|
  }

  /** The replica count is the number of distinct names among the running pods. */
  lemma PodCountIsDistinctRunningNames(pods: seq<Pod>)
    ensures PodCount(pods) == |RunningNames(pods)|
    ensures PodCount(pods) == 0 <==> forall i | 0 <= i < |pods| :: pods[i].phase != Running
  {
    RunningIndexSpec(pods);
    var m := RunningIndex(pods);
    assert |m| == |m.Keys|;
    if exists i :: 0 <= i < |pods| && pods[i].phase == Running {
      var i :| 0 <= i < |pods| && pods[i].phase == Running;
      assert pods[i].name in RunningNames(pods);
    }
  }

  /** A pick the selection loop can end with: the empty pod when nothing runs, else any indexed pod. */
  predicate ValidChoice(pods: seq<Pod>, pod: Pod)
  {
    var m := RunningIndex(pods);
    if |m| == 0 then pod == EmptyPod else pod in m.Values
  }

  /** When some replica runs, the pick is a running pod of the list, the last running one of its name. */
  lemma ChoiceIsRunningReplica(pods: seq<Pod>, pod: Pod)
    requires ValidChoice(pods, pod)
    ensures PodCount(pods) == 0 ==> pod == EmptyPod
    ensures PodCount(pods) > 0 ==> exists j :: LastRunningNamed(pods, pod.name, j) && pods[j] == pod
  {
    RunningIndexSpec(pods);
    var m := RunningIndex(pods);
    if |m| > 0 {
      var k :| k in m && m[k] == pod;
      var j :| LastRunningNamed(pods, k, j) && m[k] == pods[j];
      assert LastRunningNamed(pods, pod.name, j);
    }
  }

  /**
   The selection loop: index the running pods by name, count them, and pick
   one arbitrarily (Go ranges over a map in an unspecified order).
   */
  method SelectReplica(pods: seq<Pod>) returns (podCount: nat, pod: Pod)
    ensures podCount == |RunningNames(pods)|
    ensures ValidChoice(pods, pod)
    ensures podCount == 0 ==> pod == EmptyPod
    ensures podCount > 0 ==> pod in pods && pod.phase == Running
  {
    var podMap: map<string, Pod> := map[];
    var i := 0;
    while i < |pods|
      invariant 0 <= i <= |pods|
      invariant podMap == RunningIndex(pods[..i])
    {
      assert pods[..i + 1][..i] == pods[..i];
      if pods[i].phase == Running {
        podMap := podMap[pods[i].name := pods[i]];
      }
      i := i + 1;
    }
    assert pods[..|pods|] == pods;
    podCount := |podMap|;
    PodCountIsDistinctRunningNames(pods);
    pod := EmptyPod;
    if podCount > 0 {
      assert podMap.Keys != {};
      var k :| k in podMap;
      assert podMap[k] in podMap.Values;
      pod :| pod in podMap.Values;
    }
    ChoiceIsRunningReplica(pods, pod);
  }
}
