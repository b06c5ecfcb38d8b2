/** Scheduling copies of one pod until the first failure places as many as can be placed at all. */
module Template {
  import opened Arithmetic
  import opened Pods
  import opened Undo
  import opened Operations
  import opened Safety

  /** What a node can hold: a total of requests, and a number of pods. */
  datatype Limit = Limit(amount: nat, pods: nat)

  type Limits = map<NodeName, Limit>

  ghost function Pick(ms: multiset<PodVal>): (v: PodVal)
    requires |ms| > 0
    ensures v in ms
  {
    var v :| v in ms;
    v
  }

  ghost function Load(ms: multiset<PodVal>): nat
    decreases |ms|
  {
    if |ms| == 0 then 0 else Pick(ms).request + Load(ms - multiset{Pick(ms)})
  }

  lemma SwapTaken(ms: multiset<PodVal>, u: PodVal, v: PodVal)
    requires u in ms && v in ms && u != v
    ensures u in ms - multiset{v} && v in ms - multiset{u}
    ensures ms - multiset{v} - multiset{u} == ms - multiset{u} - multiset{v}
  {}

  lemma {:induction false} LoadTake(ms: multiset<PodVal>, u: PodVal)
    requires u in ms
    ensures Load(ms) == u.request + Load(ms - multiset{u})
    decreases |ms|
  {
    var v := Pick(ms);
    if v != u {
      SwapTaken(ms, u, v);
      LoadTake(ms - multiset{v}, u);
      LoadTake(ms - multiset{u}, v);
    }
  }

  lemma LoadAdd(ms: multiset<PodVal>, v: PodVal)
    ensures Load(ms + multiset{v}) == Load(ms) + v.request
  {
    LoadTake(ms + multiset{v}, v);
    assert ms + multiset{v} - multiset{v} == ms;
  }

  lemma {:induction false} LoadWithin(a: multiset<PodVal>, b: multiset<PodVal>)
    requires a <= b
    ensures Load(a) <= Load(b)
    decreases |a|
  {
    if |a| > 0 {
      var v :| v in a;
      LoadTake(a, v);
      LoadTake(b, v);
      LoadWithin(a - multiset{v}, b - multiset{v});
    }
  }

  ghost predicate Holds(limits: Limits, n: NodeName, ms: multiset<PodVal>) {
    n in limits && Load(ms) <= limits[n].amount && |ms| <= limits[n].pods
  }

  ghost function AsCapacity(limits: Limits): Capacity {
    (n: NodeName, ms: multiset<PodVal>) => Holds(limits, n, ms)
  }

  /** Such limits are a capacity in the sense of whole-run safety. */
  lemma LimitsAreDownClosed(limits: Limits)
    ensures DownClosed(AsCapacity(limits))
  {
    var fits := AsCapacity(limits);
    forall n, a, b | fits(n, b) && a <= b ensures fits(n, a) {
      LoadWithin(a, b);
      assert b == a + (b - a);
    }
  }

  /** How many copies of a pod with request `r` still go onto node `n`. */
  ghost function Free(limits: Limits, n: NodeName, ms: multiset<PodVal>, r: nat): nat {
    if !Holds(limits, n, ms) then 0
    else
      var slots := limits[n].pods - |ms|;
      var room := limits[n].amount - Load(ms);
      if r == 0 || slots <= room / r then slots else room / r
  }

  /** One copy more takes exactly one place, and there is a place exactly when one copy more fits. */
  lemma FreeStep(limits: Limits, n: NodeName, ms: multiset<PodVal>, v: PodVal)
    ensures Free(limits, n, ms, v.request) > 0 <==> Holds(limits, n, ms + multiset{v})
    ensures Holds(limits, n, ms + multiset{v}) ==>
      Free(limits, n, ms + multiset{v}, v.request) == Free(limits, n, ms, v.request) - 1
  {
    LoadAdd(ms, v);
    if Holds(limits, n, ms) && v.request > 0 {
      DivOnce(limits[n].amount - Load(ms), v.request);
    }
  }

  ghost function TotalFree(limits: Limits, c: Cluster, placement: seq<NodeName>, r: nat): nat
    requires forall n :: n in placement ==> n in c
  {
    if placement == [] then 0
    else TotalFree(limits, c, placement[1..], r) + Free(limits, placement[0], c[placement[0]], r)
  }

  lemma {:induction false} TotalOthers(limits: Limits, c: Cluster, placement: seq<NodeName>, v: PodVal, n: NodeName)
    requires (forall m :: m in placement ==> m in c) && n in c && n !in placement
    ensures TotalFree(limits, Add(c, v, n), placement, v.request) == TotalFree(limits, c, placement, v.request)
  {
    if placement != [] {
      TotalOthers(limits, c, placement[1..], v, n);
    }
  }

  lemma {:induction false} TotalStep(limits: Limits, c: Cluster, placement: seq<NodeName>, v: PodVal, n: NodeName)
    requires (forall m :: m in placement ==> m in c) && Distinct(placement)
    requires n in placement && Holds(limits, n, c[n] + multiset{v})
    ensures TotalFree(limits, Add(c, v, n), placement, v.request) == TotalFree(limits, c, placement, v.request) - 1
  {
    FreeStep(limits, n, c[n], v);
    if placement[0] == n {
      assert n !in placement[1..];
      TotalOthers(limits, c, placement[1..], v, n);
    } else {
      TotalStep(limits, c, placement[1..], v, n);
    }
  }

  lemma {:induction false} TotalNone(limits: Limits, c: Cluster, placement: seq<NodeName>, v: PodVal)
    requires forall m :: m in placement ==> m in c && !Holds(limits, m, c[m] + multiset{v})
    ensures TotalFree(limits, c, placement, v.request) == 0
  {
    if placement != [] {
      FreeStep(limits, placement[0], c[placement[0]], v);
      TotalNone(limits, c, placement[1..], v);
    }
  }

  /** A scheduling cycle that finds some node of the placement the pod fits on, whichever, and reports
      failure only when there is none. */
  ghost predicate Exhaustive(sched: Scheduler, limits: Limits, placement: seq<NodeName>) {
    forall c, v, k :: DecidesByRoom(sched(c, v, k), c, v, limits, placement)
  }

  ghost predicate DecidesByRoom(d: Decision, c: Cluster, v: PodVal, limits: Limits, placement: seq<NodeName>) {
    match d
    case NoFramework => false
    case NoHost(_) => forall n :: n in placement && n in c ==> !Holds(limits, n, c[n] + multiset{v})
    case Host(n, reserve) => reserve.Success? && n in placement && (n in c ==> Holds(limits, n, c[n] + multiset{v}))
  }

  ghost predicate Copies(pods: seq<Pod>, r: nat) {
    forall p :: p in pods ==> p.uid != "" && p.request == r
  }

  /** While the loop goes on each pod took one place; once it stopped none was left. */
  ghost predicate OnePlaceEach(limits: Limits, start: Cluster, b: Batch, placement: seq<NodeName>, r: nat, tried: nat)
    requires forall n :: n in placement ==> n in start
  {
    && b.cluster.Keys == start.Keys && !b.phase.Failed?
    && (b.phase.Going? ==> Successes(b.results) == tried)
    && TotalFree(limits, start, placement, r) == TotalFree(limits, b.cluster, placement, r) + Successes(b.results)
    && (b.phase.Stopped? ==> TotalFree(limits, b.cluster, placement, r) == 0 && Successes(b.results) < tried)
  }

  lemma CopyPlaced(limits: Limits, start: Cluster, b: Batch, placement: seq<NodeName>, tried: nat, p: Pod, d: Decision)
    requires (forall n :: n in placement ==> n in start) && Distinct(placement) && p.uid != ""
    requires b.phase.Going? && OnePlaceEach(limits, start, b, placement, p.request, tried)
    requires DecidesByRoom(d, b.cluster, p.Val(), limits, placement)
    ensures OnePlaceEach(limits, start, BatchStep(b, p, d, true), placement, p.request, tried + 1)
  {
    var e := BatchStep(b, p, d, true);
    assert e.results[..|e.results| - 1] == b.results;
    if d.Host? {
      TotalStep(limits, b.cluster, placement, p.Val(), d.node);
    } else {
      TotalNone(limits, b.cluster, placement, p.Val());
    }
  }

  lemma {:induction false} CopiesPlaced(s: Core, pods: seq<Pod>, placement: seq<NodeName>, sched: Scheduler,
                                        limits: Limits, r: nat)
    requires (forall n :: n in placement ==> n in s.cluster) && Distinct(placement)
    requires Copies(pods, r) && Exhaustive(sched, limits, placement)
    ensures OnePlaceEach(limits, s.cluster, ScheduleAll(s, pods, sched, true), placement, r, |pods|)
  {
    if pods != [] {
      var k := |pods| - 1;
      CopiesPlaced(s, pods[..k], placement, sched, limits, r);
      var b := ScheduleAll(s, pods[..k], sched, true);
      assert pods[k] in pods;
      if b.phase.Going? {
        CopyPlaced(limits, s.cluster, b, placement, k, pods[k], sched(b.cluster, pods[k].Val(), k));
      }
    }
  }

  /** Scheduling copies of one pod with StopOnFailure schedules exactly as many as were asked for or as
      there is room for on the nodes of the placement, whichever is less and whichever node is picked
      each time. */
  lemma TemplateSchedulesMost(s: Core, pods: seq<Pod>, placement: seq<NodeName>, sched: Scheduler, limits: Limits,
                              r: nat, dryRun: bool)
    requires placement != [] && (forall n :: n in placement ==> n in s.cluster) && Distinct(placement)
    requires Copies(pods, r) && Exhaustive(sched, limits, placement)
    ensures var total := TotalFree(limits, s.cluster, placement, r);
      var result := Schedule(s, pods, placement, true, sched, Options(dryRun, true)).1;
      result.Ok? && Successes(result.value) == if |pods| <= total then |pods| else total
  {
    CopiesPlaced(s, pods, placement, sched, limits, r);
  }
}
