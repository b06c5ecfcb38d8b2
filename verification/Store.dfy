/** The scheduler's snapshot: nodes with their pods and a generation that changes with them. */
module Store {
  import opened Pods

  class SchedulerSnapshot {
    var nodes: Cluster
    var generations: map<NodeName, nat>
    var clock: nat

    ghost predicate Valid()
      reads this
    {
      generations.Keys == nodes.Keys
    }

    constructor (nodes: Cluster, generations: map<NodeName, nat>, clock: nat)
      requires generations.Keys == nodes.Keys
      ensures Valid() && this.nodes == nodes && this.generations == generations && this.clock == clock
    {
      this.nodes, this.generations, this.clock := nodes, generations, clock;
    }

    /** Adds a pod to a known node, whether or not it is already there. */
    method AddPodInfo(v: PodVal, n: NodeName)
      requires Valid() && n in nodes
      modifies this
      ensures Valid() && nodes == Add(old(nodes), v, n)
      ensures clock == old(clock) + 1 && generations == old(generations)[n := clock]
    {
      clock := clock + 1;
      nodes := Add(nodes, v, n);
      generations := generations[n := clock];
    }

    /** Removes the pod with the given UID from a known node; fails when there is none. */
    method RemovePodInfo(v: PodVal, n: NodeName) returns (ok: bool)
      requires Valid() && n in nodes
      modifies this
      ensures Valid() && (ok <==> Removable(old(nodes), v, n))
      ensures ok ==> nodes == Remove(old(nodes), v, n)
      ensures ok ==> clock == old(clock) + 1 && generations == old(generations)[n := clock]
      ensures !ok ==> unchanged(this)
    {
      ok := v.uid != "" && HasUid(nodes[n], v.uid);
      if ok {
        clock := clock + 1;
        nodes := Remove(nodes, v, n);
        generations := generations[n := clock];
      }
    }

    /** Assuming and forgetting a scheduled pod leave the generation of its node alone. */
    method AssumePod(v: PodVal, n: NodeName) returns (ok: bool)
      requires Valid()
      modifies this`nodes
      ensures Valid() && (ok <==> Addable(old(nodes), v, n))
      ensures nodes == if ok then Add(old(nodes), v, n) else old(nodes)
    {
      ok := v.uid != "" && n in nodes;
      if ok {
        nodes := Add(nodes, v, n);
      }
    }

    method ForgetPod(v: PodVal, n: NodeName) returns (ok: bool)
      requires Valid()
      modifies this`nodes
      ensures Valid() && (ok <==> Removable(old(nodes), v, n))
      ensures nodes == if ok then Remove(old(nodes), v, n) else old(nodes)
    {
      ok := v.uid != "" && n in nodes && HasUid(nodes[n], v.uid);
      if ok {
        nodes := Remove(nodes, v, n);
      }
    }
  }
}
