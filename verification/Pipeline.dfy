/** The two ends put together: scheduling attempts whose filters check only capacity are the schedulers that
    whole-run safety and optimal scheduling of copies ask for. */
module Pipeline {
  import opened FilterEngine
  import opened FilterSearch
  import opened Extenders
  import opened Feasibility
  import opened FitPod
  import opened Pods
  import C = Choosing
  import O = Operations
  import S = Safety
  import T = Template

  /** An attempt over the whole placement in which a node passes the filters exactly when it has room, with
      no extender that is interested and no plugin that fails. */
  ghost predicate CapacityOnly(a: C.Attempt, c: Cluster, v: PodVal, limits: T.Limits, placement: seq<NodeName>) {
    && C.Complete(a) && a.all == placement && placement != [] && a.wanted > 0
    && a.f.pre.AllNodes? && a.f.hasFilters && NoneInterested(a.f.extenders) && a.reserve.Success?
    && (forall n :: !a.f.filter(n).Fail?)
    && (forall n :: n in c ==> (a.f.filter(n) == Pass <==> T.Holds(limits, n, c[n] + multiset{v})))
    && (forall nodes :: !C.ScoringFails(a, nodes))
  }

  lemma AttemptEnds(a: C.Attempt)
    requires C.Complete(a) && a.all != [] && a.f.pre.AllNodes? && a.f.hasFilters && NoneInterested(a.f.extenders)
    requires forall n :: !a.f.filter(n).Fail?
    ensures C.Found(a).Fit?
  {
    NoneInterestedBreaks(a.f.extenders, Passing(a.f, a.all, a.listing, a.start, C.LimitOf(a), a.picks).feasible);
    AttemptFailsExactly(a.f, a.all, a.listing, a.start, a.wanted, false, a.nominee, a.picks);
  }

  lemma OnlyUnschedulable(a: C.Attempt, d: O.Decision, c: Cluster, v: PodVal, limits: T.Limits,
                          placement: seq<NodeName>)
    requires CapacityOnly(a, c, v, limits, placement) && C.Decides(a, d)
    ensures d == O.NoHost(O.For(Unschedulable)) || (d.Host? && d.reserve.Success?)
  {
    AttemptEnds(a);
    assert !C.ScoringFails(a, C.Found(a).feasible);
  }

  lemma NoRoomAnywhere(a: C.Attempt, c: Cluster, v: PodVal, limits: T.Limits, placement: seq<NodeName>, n: NodeName)
    requires CapacityOnly(a, c, v, limits, placement) && C.Decides(a, O.NoHost(O.For(Unschedulable)))
    requires n in placement && n in c
    ensures !T.Holds(limits, n, c[n] + multiset{v})
  {
    C.UnschedulableIsFinal(a, n);
    NoneInterestedRejectsNone(a.f.extenders, Passing(a.f, a.all, a.listing, a.start, C.LimitOf(a), a.picks).feasible,
        n);
  }

  /** Such an attempt finds a node with room, whichever, and fails only when there is none. */
  lemma AttemptFindsRoom(a: C.Attempt, d: O.Decision, c: Cluster, v: PodVal, limits: T.Limits, placement: seq<NodeName>)
    requires CapacityOnly(a, c, v, limits, placement) && C.Decides(a, d)
    ensures T.DecidesByRoom(d, c, v, limits, placement)
  {
    OnlyUnschedulable(a, d, c, v, limits, placement);
    if d.Host? {
      C.HostPassedEverything(a, d);
    } else {
      forall n | n in placement && n in c ensures !T.Holds(limits, n, c[n] + multiset{v}) {
        NoRoomAnywhere(a, c, v, limits, placement, n);
      }
    }
  }

  /** Every decision of the scheduler is one that such an attempt may come to. */
  ghost predicate Serves(sched: O.Scheduler, attempts: (Cluster, PodVal, nat) -> C.Attempt, limits: T.Limits,
                         placement: seq<NodeName>) {
    forall c, v, k :: Served(sched(c, v, k), attempts(c, v, k), c, v, limits, placement)
  }

  ghost predicate Served(d: O.Decision, a: C.Attempt, c: Cluster, v: PodVal, limits: T.Limits,
                         placement: seq<NodeName>) {
    CapacityOnly(a, c, v, limits, placement) && C.Decides(a, d)
  }

  /** So neither the interleaving of the workers, nor the start of the rotation, nor how ties are broken can
      make a run overfill a node or template scheduling place fewer copies than there is room for. */
  lemma PipelineServesBoth(sched: O.Scheduler, attempts: (Cluster, PodVal, nat) -> C.Attempt, limits: T.Limits,
                           placement: seq<NodeName>)
    requires Serves(sched, attempts, limits, placement)
    ensures S.Sane(sched, T.AsCapacity(limits)) && T.Exhaustive(sched, limits, placement)
  {
    forall c, v, k
      ensures T.DecidesByRoom(sched(c, v, k), c, v, limits, placement)
    {
      assert Served(sched(c, v, k), attempts(c, v, k), c, v, limits, placement);
      AttemptFindsRoom(attempts(c, v, k), sched(c, v, k), c, v, limits, placement);
    }
  }
}
