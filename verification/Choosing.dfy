/** One scheduling attempt: find the nodes that fit, score them if there is more than one, take the best. */
module Choosing {
  import opened FilterEngine
  import opened FilterSearch
  import opened Extenders
  import opened Feasibility
  import opened FitPod
  import opened Scores
  import opened Pods
  import O = Operations

  /** Everything an attempt depends on. `listing`, `picks` and `order` are the three things left to chance:
      the order of a set of names, the interleaving of the filter workers and the finishing order of the
      scoring extenders. `plugins` is what the score plugins return for a list of nodes. */
  datatype Attempt = Attempt(
    f: Framework,
    all: seq<NodeName>,
    listing: seq<NodeName>,
    picks: seq<nat>,
    start: nat,
    wanted: nat,
    nominee: Nomination,
    plugins: seq<NodeName> -> Option<seq<NodeScore>>,
    order: seq<nat>,
    reserve: O.Status)

  function LimitOf(a: Attempt): nat {
    Asked(a.f, a.all, a.listing, a.wanted, false)
  }

  /** The extenders as they score a list of nodes. */
  function Prioritizers(extenders: seq<Extender>, nodes: seq<NodeName>): (r: seq<Prioritizer>)
    ensures |r| == |extenders|
  {
    seq(|extenders|, i requires 0 <= i < |extenders| =>
      Prioritizer(extenders[i].name, extenders[i].interested, extenders[i].weight, extenders[i].prioritize(nodes)))
  }

  /** Score plugins answer for the nodes they are given, in their order. */
  ghost predicate Scoring(plugins: seq<NodeName> -> Option<seq<NodeScore>>) {
    forall nodes :: plugins(nodes).Some? ==>
      |plugins(nodes).value| == |nodes| && forall i :: 0 <= i < |nodes| ==> plugins(nodes).value[i].name == nodes[i]
  }

  ghost predicate Complete(a: Attempt) {
    && Distinct(a.all) && Lists(a.listing, a.f.pre)
    && (a.all != [] ==> Ready(a.f, a.all, a.listing, a.start, LimitOf(a), a.picks))
    && NomineeReady(a.f, a.start, a.wanted, a.nominee)
    && Scoring(a.plugins) && FinishingOrder(a.order, Prioritizers(a.f.extenders, []))
  }

  ghost function Found(a: Attempt): Fit
    requires Complete(a) && a.all != []
  {
    FitWith(a.f, a.all, a.listing, a.start, a.wanted, false, a.nominee, a.picks)
  }

  predicate ScoresOnlyConstant(a: Attempt) {
    a.f.extenders == [] && !a.f.hasScorePlugins
  }

  predicate ScoringFails(a: Attempt, feasible: seq<NodeName>) {
    !ScoresOnlyConstant(a) && a.plugins(feasible).None?
  }

  /** The final score of the `i`-th feasible node. */
  ghost function FinalScore(a: Attempt, feasible: seq<NodeName>, i: nat): int
    requires Scoring(a.plugins) && !ScoringFails(a, feasible) && i < |feasible|
  {
    if ScoresOnlyConstant(a) then 1
    else
      var prioritizers := Prioritizers(a.f.extenders, feasible);
      a.plugins(feasible).value[i].tally.total + Total(prioritizers, |prioritizers|, feasible[i]).total
  }

  ghost predicate Best(a: Attempt, feasible: seq<NodeName>, k: nat)
    requires Scoring(a.plugins) && !ScoringFails(a, feasible)
  {
    k < |feasible| && forall i :: 0 <= i < |feasible| ==> FinalScore(a, feasible, i) <= FinalScore(a, feasible, k)
  }

  /** The attempt ends in a division by zero instead of a decision. */
  ghost predicate Panics(a: Attempt)
    requires Complete(a)
  {
    a.all != [] && Found(a).FitPanic?
  }

  /** The decisions an attempt may come to: how equal best scores are told apart is left open. */
  ghost predicate Decides(a: Attempt, d: O.Decision)
    requires Complete(a)
  {
    if a.all == [] then d == O.NoHost(O.For(Unresolvable))
    else
      match Found(a)
      case FitPanic => false
      case FitError(_) => d == O.NoHost(O.Internal)
      case Fit(feasible, _) =>
        if |feasible| == 0 then d == O.NoHost(O.For(Unschedulable))
        else if |feasible| == 1 then d == O.Host(feasible[0], a.reserve)
        else if ScoringFails(a, feasible) then d == O.NoHost(O.Internal)
        else exists k: nat :: Best(a, feasible, k) && d == O.Host(feasible[k], a.reserve)
  }

  /** The chosen host is a node of the placement that the filters and the extenders let through, and one of the
      pre-filters' names unless the pod was nominated to it. */
  lemma HostPassedEverything(a: Attempt, d: O.Decision)
    requires Complete(a) && AllHonest(a.f.extenders) && NoRepeats(a.f, a.all, a.listing, a.wanted, a.nominee)
    requires Decides(a, d) && d.Host?
    ensures LetThrough(a.f, a.all, GivenToExtenders(a.f, a.all, a.listing, a.start, a.wanted, a.nominee, a.picks),
        a.nominee, d.node)
    ensures !a.f.pre.PreReject?
  {
    var fit := Found(a);
    assert fit.Fit? && d.node in fit.feasible;
    ReturnedAreLetThrough(a.f, a.all, a.listing, a.start, a.wanted, a.nominee, a.picks, d.node);
  }

  /** If the filters pass a pod only where it fits, the host fits: what whole-run safety asks of a scheduler. */
  lemma HostFits(a: Attempt, d: O.Decision, c: Cluster, v: PodVal, fits: (NodeName, multiset<PodVal>) -> bool)
    requires Complete(a) && AllHonest(a.f.extenders) && a.f.hasFilters
    requires forall n :: n in c && a.f.filter(n) == Pass ==> fits(n, c[n] + multiset{v})
    requires Decides(a, d) && d.Host? && d.node in c
    ensures fits(d.node, c[d.node] + multiset{v})
  {
    HostPassedEverything(a, d);
  }

  /** "Unschedulable" is final for the whole placement, if the attempt looked for all nodes or no extender is
      interested: what optimal scheduling of copies asks of a scheduler. */
  lemma UnschedulableIsFinal(a: Attempt, x: NodeName)
    requires Complete(a) && AllHonest(a.f.extenders) && ShortcutSafe(a.f, a.all, a.listing, LimitOf(a))
    requires LimitOf(a) > 0
    requires LimitOf(a) >= |Candidates(a.f.pre, a.all, a.listing)| || NoneInterested(a.f.extenders)
    requires Decides(a, O.NoHost(O.For(Unschedulable))) && x in a.all
    ensures FateOf(a.f, Passing(a.f, a.all, a.listing, a.start, LimitOf(a), a.picks).feasible, x) != Feasible
  {
    TurnedDownChangesNothing(a.f, a.all, a.listing, a.start, a.wanted, false, a.nominee, a.picks);
    EmptyFitIsFinal(a.f, a.all, a.listing, a.start, LimitOf(a), a.picks, x);
  }

  /** Attempts that look for one node only, as those of SchedulePods do: with filter extenders "unschedulable"
      is final for all honest ones exactly when at most one node passes the filters. */
  lemma OneNodeFinalExactly(f: Framework, all: seq<NodeName>, listing: seq<NodeName>, start: nat, picks: seq<nat>)
    requires Distinct(all) && Lists(listing, f.pre) && !Stops(f.pre) && Candidates(f.pre, all, listing) != []
    requires Ready(f, all, listing, start, 1, picks) && !Passing(f, all, listing, start, 1, picks).failed
    ensures (forall extenders :: AllHonest(extenders) && HasExtenderFilters(extenders) ==>
              FinalWith(f, extenders, all, listing, start, 1, picks)) <==>
            var passers := Passers(f, Candidates(f.pre, all, listing));
            forall x, y :: x in passers && y in passers ==> x == y
  {
    var nodes := Candidates(f.pre, all, listing);
    FinalExactly(f, all, listing, start, 1, picks);
    AtMostOne(Passers(f, nodes));
  }

  lemma AtMostOne(s: set<NodeName>)
    ensures |s| <= 1 <==> forall x, y :: x in s && y in s ==> x == y
  {
    if s != {} {
      var x :| x in s;
      assert |s - {x}| == |s| - 1;
      if |s| <= 1 {
        assert s - {x} == {};
      } else {
        var y :| y in s - {x};
      }
    }
  }

  /** Scoring fails for some list of several nodes. */
  ghost predicate ScoringMayFail(a: Attempt) {
    exists nodes :: |nodes| > 1 && ScoringFails(a, nodes)
  }

  /** The plugins or an extender fail in the search over the placement. */
  ghost predicate SearchGoesWrong(a: Attempt) {
    GoesWrong(a.f, Candidates(a.f.pre, a.all, a.listing),
              Passing(a.f, a.all, a.listing, a.start, LimitOf(a), a.picks).feasible)
  }

  /** The verdict of an attempt that comes to one. An empty placement is unresolvable. What the pre-filters reject is
      unschedulable, and what makes them fail is an internal error. In every other case an attempt without a
      host is unschedulable unless something fails; if it is asked for as many nodes as pass, and no nominated
      node settles it, a failure of the plugins or the extenders is always reported as internal error. */
  lemma VerdictExact(a: Attempt, d: O.Decision)
    requires Complete(a) && Decides(a, d)
    ensures !d.NoFramework? && (d.Host? ==> d.reserve == a.reserve)
    ensures d == O.NoHost(O.For(Unresolvable)) <==> a.all == []
    ensures a.all != [] && a.f.pre.PreReject? ==> d == O.NoHost(O.For(Unschedulable))
    ensures a.all != [] && a.f.pre.PreError? ==> d == O.NoHost(O.Internal)
    ensures d == O.NoHost(O.For(Unschedulable)) <==> a.all != [] && Found(a).Fit? && Found(a).feasible == []
    ensures d == O.NoHost(O.Internal) ==> SearchGoesWrong(a) || ScoringMayFail(a)
    ensures a.all != [] && d.NoHost? && !SearchGoesWrong(a) && !ScoringMayFail(a) ==>
              d == O.NoHost(O.For(Unschedulable))
    ensures a.all != [] && SearchGoesWrong(a) && SearchedAll(a.f, a.all, a.listing, LimitOf(a)) ==>
              NomineeTaken(a.f, a.all, a.start, a.wanted, false, a.nominee) || d == O.NoHost(O.Internal)
  {
    if a.all != [] {
      AttemptFailsExactly(a.f, a.all, a.listing, a.start, a.wanted, false, a.nominee, a.picks);
    }
  }

  ghost predicate NomineePasses(a: Attempt) {
    a.nominee.Nominee? && a.nominee.node in a.all && Ruled(a.f, a.nominee.node) == Pass
  }

  /** Where no extender is interested and nothing fails, an attempt has a host exactly when some node passes: one that
      the pre-filters left, or the nominated node. */
  lemma HostExactly(a: Attempt, d: O.Decision)
    requires Complete(a) && NoneInterested(a.f.extenders) && NoRepeats(a.f, a.all, a.listing, a.wanted, a.nominee)
    requires a.all != [] && (Scored(a.f) ==> a.wanted > 0) && !SearchGoesWrong(a) && !ScoringMayFail(a) && Decides(a, d)
    ensures d.Host? <==>
            !a.f.pre.PreReject? && (NomineePasses(a) || Passers(a.f, Candidates(a.f.pre, a.all, a.listing)) != {})
  {
    VerdictExact(a, d);
    NomineeSettlesExactly(a.f, a.all, a.listing, a.start, a.wanted, false, a.nominee, a.picks);
    if NomineePasses(a) {
      NoneInterestedRejectsNone(a.f.extenders, [a.nominee.node], a.nominee.node);
      NoneInterestedBreaks(a.f.extenders, [a.nominee.node]);
    } else if !Stops(a.f.pre) {
      AsManyAsAsked(a.f, a.all, a.listing, a.start, a.wanted, false, a.nominee, a.picks);
    }
  }

  /** What one extender gives to a node of the list: the sum of the scores it returns for it, times its weight, on
      the scheduler's scale. */
  ghost function Points(x: Extender, nodes: seq<NodeName>, host: NodeName): int {
    if !x.interested || x.prioritize(nodes).None? then 0
    else RawSum(x.prioritize(nodes).value, |x.prioritize(nodes).value|, host) * x.weight * 10
  }

  ghost function PointsOfAll(extenders: seq<Extender>, n: nat, nodes: seq<NodeName>, host: NodeName): int
    requires n <= |extenders|
  {
    if n == 0 then 0 else PointsOfAll(extenders, n - 1, nodes, host) + Points(extenders[n - 1], nodes, host)
  }

  lemma {:induction false} TotalIsPoints(extenders: seq<Extender>, n: nat, nodes: seq<NodeName>, host: NodeName)
    requires n <= |extenders|
    ensures Total(Prioritizers(extenders, nodes), n, host).total == PointsOfAll(extenders, n, nodes, host)
  {
    if n > 0 {
      TotalIsPoints(extenders, n - 1, nodes, host);
      var x := Prioritizers(extenders, nodes)[n - 1];
      if x.list.Some? { GivenIsScaledSum(x, x.list.value, |x.list.value|, host); }
    }
  }

  /** What the plugins and the extenders together give to the `i`-th node is no more than for the `k`-th. */
  ghost predicate ScoresAtMost(a: Attempt, nodes: seq<NodeName>, i: nat, k: nat)
    requires Scoring(a.plugins) && a.plugins(nodes).Some? && i < |nodes| && k < |nodes|
  {
    var plugins, extenders := a.plugins(nodes).value, a.f.extenders;
    plugins[i].tally.total + PointsOfAll(extenders, |extenders|, nodes, nodes[i])
    <= plugins[k].tally.total + PointsOfAll(extenders, |extenders|, nodes, nodes[k])
  }

  /** Among several nodes the host is one to which the plugins and the extenders together give the most. */
  lemma HostIsBest(a: Attempt, d: O.Decision)
    requires Complete(a) && a.all != [] && Decides(a, d) && d.Host?
    ensures Found(a).Fit? && d.node in Found(a).feasible
    ensures var nodes := Found(a).feasible;
      |nodes| > 1 && (a.f.extenders != [] || a.f.hasScorePlugins) ==>
        && a.plugins(nodes).Some?
        && exists k :: 0 <= k < |nodes| && nodes[k] == d.node &&
             forall i :: 0 <= i < |nodes| ==> ScoresAtMost(a, nodes, i, k)
  {
    var nodes := Found(a).feasible;
    if |nodes| > 1 {
      var k: nat :| Best(a, nodes, k) && d == O.Host(nodes[k], a.reserve);
      if !ScoresOnlyConstant(a) {
        forall i | 0 <= i < |nodes| ensures ScoresAtMost(a, nodes, i, k) {
          assert FinalScore(a, nodes, i) <= FinalScore(a, nodes, k);
          TotalIsPoints(a.f.extenders, |a.f.extenders|, nodes, nodes[i]);
          TotalIsPoints(a.f.extenders, |a.f.extenders|, nodes, nodes[k]);
        }
      }
    }
  }

  /** Attempts that are asked for one node, as those of SchedulePods are, never depend on scores. */
  lemma OneNodeNeedsNoScores(a: Attempt, d: O.Decision, plugins: seq<NodeName> -> Option<seq<NodeScore>>)
    requires Complete(a) && AllHonest(a.f.extenders) && NoRepeats(a.f, a.all, a.listing, a.wanted, a.nominee)
    requires a.wanted <= 1 && Scoring(plugins)
    ensures Decides(a, d) <==> Decides(a.(plugins := plugins), d)
    ensures d == O.NoHost(O.Internal) && Decides(a, d) ==> SearchGoesWrong(a)
  {
    if a.all != [] {
      AtMostAsked(a.f, a.all, a.listing, a.start, a.wanted, a.nominee, a.picks);
      AttemptFailsExactly(a.f, a.all, a.listing, a.start, a.wanted, false, a.nominee, a.picks);
    }
  }

  // ---- The attempt ----

  /** Takes one of the nodes with the highest score. */
  method TakeBest(scores: seq<NodeScore>) returns (k: nat)
    requires scores != []
    ensures k < |scores| && forall i :: 0 <= i < |scores| ==> scores[i].tally.total <= scores[k].tally.total
  {
    k := 0;
    var i := 1;
    while i < |scores|
      invariant k < i <= |scores|
      invariant forall j :: 0 <= j < i ==> scores[j].tally.total <= scores[k].tally.total
    {
      if scores[i].tally.total > scores[k].tally.total {
        k := i;
      }
      i := i + 1;
    }
  }

  datatype Attempted = Decided(decision: O.Decision) | Panicked

  method SchedulePod(sched: Scheduler, a: Attempt) returns (r: Attempted)
    requires Complete(a) && sched.nextStartNodeIndex == a.start && sched.numNodesToFind == a.wanted
    modifies sched
    ensures r.Panicked? <==> Panics(a)
    ensures r.Decided? ==> Decides(a, r.decision)
  {
    if a.all == [] {
      return Decided(O.NoHost(O.For(Unresolvable)));
    }
    var fit := sched.FindNodesThatFitPod(a.f, a.all, a.listing, false, a.nominee, a.picks);
    match fit {
      case FitPanic => return Panicked;
      case FitError(_) => return Decided(O.NoHost(O.Internal));
      case Fit(feasible, _) =>
        if |feasible| == 0 {
          return Decided(O.NoHost(O.For(Unschedulable)));
        }
        if |feasible| == 1 {
          return Decided(O.Host(feasible[0], a.reserve));
        }
        var best := ChooseBest(a, feasible);
        r := Decided(if best.None? then O.NoHost(O.Internal) else O.Host(feasible[best.value], a.reserve));
    }
  }

  /** Scores the feasible nodes and takes a best one, unless scoring fails. */
  method ChooseBest(a: Attempt, feasible: seq<NodeName>) returns (k: Option<nat>)
    requires Scoring(a.plugins) && FinishingOrder(a.order, Prioritizers(a.f.extenders, [])) && feasible != []
    ensures k.None? <==> ScoringFails(a, feasible)
    ensures k.Some? ==> Best(a, feasible, k.value)
  {
    var prioritizers := Prioritizers(a.f.extenders, feasible);
    assert FinishingOrder(a.order, prioritizers);
    var ranking := PrioritizeNodes(prioritizers, a.f.hasScorePlugins, feasible, a.plugins(feasible), a.order);
    if ranking.ScoringError? {
      return None;
    }
    assert forall i :: 0 <= i < |feasible| ==> ranking.scores[i].tally.total == FinalScore(a, feasible, i);
    var best := TakeBest(ranking.scores);
    k := Some(best);
  }
}
