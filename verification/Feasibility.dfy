/** Which nodes of a placement fit a pod: pre-filter plugins, the parallel filters and the extender chain,
    one after the other, and the diagnosis that explains every other node. */
module Feasibility {
  import opened FilterEngine
  import opened FilterSearch
  import opened Extenders
  import opened Pods

  /** What the pre-filter plugins decide. */
  datatype PreFilter = PreError | PreReject(why: Why) | AllNodes | Only(names: set<NodeName>)

  /** The plugins and extenders as functions of the node, for one pod and one state of the snapshot. */
  datatype Framework = Framework(
    pre: PreFilter,
    hasFilters: bool,
    filter: NodeName -> Verdict,
    hasScorePlugins: bool,
    extenders: seq<Extender>)

  predicate HasExtenderFilters(extenders: seq<Extender>) {
    exists i :: 0 <= i < |extenders| && extenders[i].isFilter
  }

  predicate HasScoring(f: Framework) {
    f.hasScorePlugins || exists i :: 0 <= i < |f.extenders| && f.extenders[i].isPrioritizer
  }

  /** More than one node is of use only if extenders filter or something scores. */
  predicate Scored(f: Framework) {
    HasExtenderFilters(f.extenders) || HasScoring(f)
  }

  /** The explanation: nodes with a status of their own, and the status of absent nodes when it was set. */
  datatype Diagnosis = Diagnosis(statuses: Statuses, absent: Option<Why>)

  /** `FitPanic` is a division by zero in the search. */
  datatype Fit = Fit(feasible: seq<NodeName>, diagnosis: Diagnosis) | FitError(diagnosis: Diagnosis) | FitPanic

  /** The listed names that are in the placement, in the order of the list. */
  function Within(names: seq<NodeName>, placement: seq<NodeName>): (r: seq<NodeName>) {
    if names == [] then []
    else
      Within(names[..|names| - 1], placement)
      + if names[|names| - 1] in placement then [names[|names| - 1]] else []
  }

  lemma {:induction false} WithinExact(names: seq<NodeName>, placement: seq<NodeName>)
    requires Distinct(names)
    ensures Distinct(Within(names, placement))
    ensures forall x :: x in Within(names, placement) <==> x in names && x in placement
  {
    if names != [] {
      var front, last := names[..|names| - 1], names[|names| - 1];
      WithinExact(front, placement);
      assert last !in front;
      forall x ensures x in Within(names, placement) <==> x in names && x in placement {
        assert x in names <==> x in front || x == last;
      }
    }
  }

  /** The nodes to search: the whole placement, or what the pre-filters left of it. `listing` is the order
      in which their set of names is gone through. */
  function Candidates(pre: PreFilter, all: seq<NodeName>, listing: seq<NodeName>): seq<NodeName> {
    if pre.Only? then Within(listing, all) else all
  }

  function AbsentStatus(pre: PreFilter): Option<Why> {
    match pre
    case PreReject(why) => Some(why)
    case Only(_) => Some(Unresolvable)
    case _ => None
  }

  /** How many nodes the search is asked for. */
  function Asked(f: Framework, all: seq<NodeName>, listing: seq<NodeName>, wanted: nat, findAll: bool): nat {
    Limit(|Candidates(f.pre, all, listing)|, wanted, findAll, Scored(f))
  }

  /** What the filter search returns, with or without filter plugins. */
  ghost function Searched(f: Framework, nodes: seq<NodeName>, start: nat, limit: nat, picks: seq<nat>): Filtered
    requires !DividesByZero(f.hasFilters, |nodes|, limit)
  {
    if f.hasFilters then Outcome(nodes, start, limit, f.filter, picks)
        else Filtered(Shortcut(nodes, start, limit), map[], false)
  }

  /** The filter search, if there is one, ran to its end. */
  ghost predicate Searchable(f: Framework, nodes: seq<NodeName>, start: nat, limit: nat, picks: seq<nat>) {
    f.hasFilters ==> Terminal(Interleaved(limit, picks, Verdicts(nodes, start, f.filter)))
  }

  function Ruled(f: Framework, x: NodeName): Verdict {
    if f.hasFilters then f.filter(x) else Pass
  }

  /** The nodes that pass the filters. */
  ghost function Passers(f: Framework, nodes: seq<NodeName>): set<NodeName> {
    set x | x in nodes && Ruled(f, x) == Pass
  }

  lemma PassersFew(f: Framework, nodes: seq<NodeName>)
    requires Distinct(nodes)
    ensures |Passers(f, nodes)| <= |nodes|
    ensures !f.hasFilters ==> |Passers(f, nodes)| == |nodes|
  {
    SizeOfDistinct(nodes, Elements(nodes));
    SubsetSmaller(Passers(f, nodes), Elements(nodes));
    if !f.hasFilters {
      assert Passers(f, nodes) == Elements(nodes);
    }
  }

  lemma SearchedIsRight(f: Framework, nodes: seq<NodeName>, start: nat, limit: nat, picks: seq<nat>)
    requires Distinct(nodes) && Searchable(f, nodes, start, limit, picks) && (!f.hasFilters ==> limit <= |nodes|)
    requires !Searched(f, nodes, start, limit, picks).failed
    ensures var found := Searched(f, nodes, start, limit, picks);
      && Distinct(found.feasible)
      && |found.feasible| == (if |Passers(f, nodes)| <= limit then |Passers(f, nodes)| else limit)
      && (forall x :: x in found.feasible ==> x in nodes && Ruled(f, x) == Pass)
      && (forall x :: x in found.statuses ==> x in nodes && Ruled(f, x) == Reject(found.statuses[x]))
      && (|Passers(f, nodes)| <= limit ==> forall x :: x in nodes ==> Settled(found, x, Ruled(f, x)))
  {
    PassersFew(f, nodes);
    if f.hasFilters {
      assert Passers(f, nodes) == WouldPass(nodes, f.filter);
      SearchIsRight(nodes, start, limit, f.filter, picks);
    } else if |nodes| > 0 {
      ShortcutExact(nodes, start, limit);
    }
  }

  // ---- The whole pipeline ----

  /** The pre-filters end the attempt before any node is searched. */
  predicate Stops(pre: PreFilter) {
    pre.PreError? || pre.PreReject?
  }

  ghost predicate Ready(f: Framework, all: seq<NodeName>, listing: seq<NodeName>, start: nat, limit: nat,
                        picks: seq<nat>) {
    Stops(f.pre) || Searchable(f, Candidates(f.pre, all, listing), start, limit, picks)
  }

  /** The attempt ends before the search has a result. */
  predicate Ends(f: Framework, all: seq<NodeName>, listing: seq<NodeName>, limit: nat) {
    Stops(f.pre) || DividesByZero(f.hasFilters, |Candidates(f.pre, all, listing)|, limit)
  }

  /** What comes out of the filters, if they run. */
  ghost function Passing(f: Framework, all: seq<NodeName>, listing: seq<NodeName>, start: nat, limit: nat,
                         picks: seq<nat>): Filtered {
    if Ends(f, all, listing, limit) then Filtered([], map[], false)
    else Searched(f, Candidates(f.pre, all, listing), start, limit, picks)
  }

  ghost function FitOutcome(f: Framework, all: seq<NodeName>, listing: seq<NodeName>, start: nat, limit: nat,
                            picks: seq<nat>): Fit {
    if f.pre.PreError? then FitError(Diagnosis(map[], None))
    else if f.pre.PreReject? then Fit([], Diagnosis(map[], Some(f.pre.why)))
    else if Ends(f, all, listing, limit) then FitPanic
    else Extended(f, Passing(f, all, listing, start, limit, picks))
  }

  /** What the extenders make of the result of the filters. */
  function Extended(f: Framework, found: Filtered): Fit {
    if found.failed then FitError(Diagnosis(found.statuses, AbsentStatus(f.pre)))
    else
      match Chain(f.extenders, found.feasible, found.statuses)
      case ChainError(statuses) => FitError(Diagnosis(statuses, AbsentStatus(f.pre)))
      case Survivors(feasible, statuses) => Fit(feasible, Diagnosis(statuses, AbsentStatus(f.pre)))
  }

  /** The three ways in which a node of the placement can end. */
  datatype Fate = Feasible | Explained(why: Why) | Excluded(why: Why)

  /** The fate of a node: the pre-filters speak first, then the filters, then the first extender that drops
      it; only a node none of them rejects is feasible. `passed` is the list the extenders are given. */
  ghost function FateOf(f: Framework, passed: seq<NodeName>, x: NodeName): Fate {
    if f.pre.PreReject? then Excluded(f.pre.why)
    else if f.pre.Only? && x !in f.pre.names then Excluded(Unresolvable)
    else if Ruled(f, x).Reject? then Explained(Ruled(f, x).why)
    else
      match DroppedFor(f.extenders, passed, x)
      case None => Feasible
      case Some(why) => Explained(why)
  }

  /** The answer shows the fate of a node: feasible nodes have no status of their own, explained ones have
      exactly theirs, and excluded ones have none of their own but the status of absent nodes is set. */
  ghost predicate Shows(fit: Fit, x: NodeName, fate: Fate) {
    && fit.Fit?
    && match fate
       case Feasible => x in fit.feasible && x !in fit.diagnosis.statuses
       case Explained(why) =>
         x !in fit.feasible && x in fit.diagnosis.statuses && fit.diagnosis.statuses[x] == why
       case Excluded(why) =>
         x !in fit.feasible && x !in fit.diagnosis.statuses && fit.diagnosis.absent == Some(why)
  }

  /** The names the pre-filters leave are gone through once each. */
  ghost predicate Lists(listing: seq<NodeName>, pre: PreFilter) {
    Distinct(listing) && (pre.Only? ==> forall x :: x in listing <==> x in pre.names)
  }

  /** The search is asked for at least as many nodes as pass the filters, so that it leaves none out. */
  ghost predicate SearchedAll(f: Framework, all: seq<NodeName>, listing: seq<NodeName>, limit: nat) {
    Stops(f.pre) || |Passers(f, Candidates(f.pre, all, listing))| <= limit
  }

  /** The shortcut without filter plugins is not asked for more nodes than there are. */
  predicate ShortcutSafe(f: Framework, all: seq<NodeName>, listing: seq<NodeName>, limit: nat) {
    Stops(f.pre) || f.hasFilters || limit <= |Candidates(f.pre, all, listing)|
  }

  /** Every node of the placement ends in exactly one of three ways and the answer says which, in every
      interleaving of the filter workers, from every start and for every order of the pre-filters' names:
      feasible after passing everything, explained by its own status, or excluded by the pre-filters. No
      other node is returned or explained. */
  lemma PlacementPartitioned(f: Framework, all: seq<NodeName>, listing: seq<NodeName>, start: nat, limit: nat,
                             picks: seq<nat>)
    requires Distinct(all) && Lists(listing, f.pre) && AllHonest(f.extenders)
    requires Ready(f, all, listing, start, limit, picks) && ShortcutSafe(f, all, listing, limit)
    requires SearchedAll(f, all, listing, limit)
    requires FitOutcome(f, all, listing, start, limit, picks).Fit?
    ensures var fit := FitOutcome(f, all, listing, start, limit, picks);
      var passed := Passing(f, all, listing, start, limit, picks).feasible;
      && Distinct(fit.feasible)
      && (forall x :: x in fit.feasible ==> x in all)
      && (forall x :: x in fit.diagnosis.statuses ==> x in all)
      && (forall x :: x in all ==> Shows(fit, x, FateOf(f, passed, x)))
  {
    if !f.pre.PreReject? {
      var nodes := Candidates(f.pre, all, listing);
      var found := Passing(f, all, listing, start, limit, picks);
      WithinExact(listing, all);
      SearchedIsRight(f, nodes, start, limit, picks);
      forall x | x in found.feasible ensures x !in found.statuses {
        assert Settled(found, x, Ruled(f, x));
      }
      ChainPartitions(f.extenders, found.feasible, found.statuses);
      forall x | x in all ensures Shows(Extended(f, found), x, FateOf(f, found.feasible, x)) {
        FateShown(f, nodes, found, x);
      }
    }
  }

  lemma FateShown(f: Framework, nodes: seq<NodeName>, found: Filtered, x: NodeName)
    requires !Stops(f.pre) && Extended(f, found).Fit?
    requires if f.pre.Only? then x in nodes <==> x in f.pre.names else x in nodes
    requires x in nodes ==> Settled(found, x, Ruled(f, x))
    requires x !in nodes ==> x !in found.feasible && x !in found.statuses
    requires Partitioned(f.extenders, found.feasible, found.statuses,
        Chain(f.extenders, found.feasible, found.statuses))
    ensures Shows(Extended(f, found), x, FateOf(f, found.feasible, x))
  {
    var r := Chain(f.extenders, found.feasible, found.statuses);
    assert r.Survivors?;
    if x in found.feasible {
      assert Decided(r, x, DroppedFor(f.extenders, found.feasible, x));
    }
  }

  /** No false "unschedulable": when a search for at least one node comes back empty and without an error,
      every node of the placement was rejected, if the search was asked for all nodes or no extender is
      interested in the pod. */
  lemma EmptyFitIsFinal(f: Framework, all: seq<NodeName>, listing: seq<NodeName>, start: nat, limit: nat,
                        picks: seq<nat>, x: NodeName)
    requires Distinct(all) && Lists(listing, f.pre) && AllHonest(f.extenders) && limit > 0 && x in all
    requires Ready(f, all, listing, start, limit, picks) && ShortcutSafe(f, all, listing, limit)
    requires limit >= |Candidates(f.pre, all, listing)| || NoneInterested(f.extenders)
    requires FitOutcome(f, all, listing, start, limit, picks).Fit?
    requires FitOutcome(f, all, listing, start, limit, picks).feasible == []
    ensures FateOf(f, Passing(f, all, listing, start, limit, picks).feasible, x) != Feasible
  {
    if NoneInterested(f.extenders) {
      var found := Passing(f, all, listing, start, limit, picks);
      NoneInterestedKeepsAll(f.extenders, found.feasible, found.statuses);
    }
    if !f.pre.PreReject? {
      var nodes := Candidates(f.pre, all, listing);
      WithinExact(listing, all);
      PassersFew(f, nodes);
      SearchedIsRight(f, nodes, start, limit, picks);
    }
    PlacementPartitioned(f, all, listing, start, limit, picks);
    assert Shows(FitOutcome(f, all, listing, start, limit, picks), x,
                 FateOf(f, Passing(f, all, listing, start, limit, picks).feasible, x));
  }

  // ---- When a search fails ----

  ghost predicate FiltersFail(f: Framework, nodes: seq<NodeName>) {
    exists x :: x in nodes && Ruled(f, x).Fail?
  }

  /** What can go wrong: the pre-filters fail, or the filters of a candidate, or an interested extender that may
      not be ignored on the nodes that reach it. `passed` is the list the extenders are given. */
  ghost predicate GoesWrong(f: Framework, nodes: seq<NodeName>, passed: seq<NodeName>) {
    f.pre.PreError? || (!f.pre.PreReject? && (FiltersFail(f, nodes) || SomeBreaks(f.extenders, passed)))
  }

  /** A search fails only when something goes wrong, and certainly then if it is asked for at least as many nodes as
      pass. A rejection, of whatever node or of all of them, is no failure. */
  lemma FitFailsExactly(f: Framework, all: seq<NodeName>, listing: seq<NodeName>, start: nat, limit: nat,
                        picks: seq<nat>)
    requires Distinct(all) && Lists(listing, f.pre) && Ready(f, all, listing, start, limit, picks)
    ensures var nodes := Candidates(f.pre, all, listing);
      var passed := Passing(f, all, listing, start, limit, picks).feasible;
      var fails := FitOutcome(f, all, listing, start, limit, picks).FitError?;
      && (fails ==> GoesWrong(f, nodes, passed))
      && (SearchedAll(f, all, listing, limit) && GoesWrong(f, nodes, passed) ==> fails)
  {
    if !Stops(f.pre) {
      var nodes, found := Candidates(f.pre, all, listing), Passing(f, all, listing, start, limit, picks);
      WithinExact(listing, all);
      ChainFailsExactly(f.extenders, found.feasible, found.statuses);
      if Ends(f, all, listing, limit) {
        assert Reaching(f.extenders, found.feasible, 0) == [];
      } else {
        SearchedFailsExactly(f, nodes, start, limit, picks);
      }
    }
  }

  lemma SearchedFailsExactly(f: Framework, nodes: seq<NodeName>, start: nat, limit: nat, picks: seq<nat>)
    requires Distinct(nodes) && Searchable(f, nodes, start, limit, picks)
    requires !DividesByZero(f.hasFilters, |nodes|, limit)
    ensures Searched(f, nodes, start, limit, picks).failed ==> FiltersFail(f, nodes)
    ensures |Passers(f, nodes)| <= limit && FiltersFail(f, nodes) ==> Searched(f, nodes, start, limit, picks).failed
  {
    if f.hasFilters {
      assert Passers(f, nodes) == WouldPass(nodes, f.filter);
      SearchFailsExactly(nodes, start, limit, f.filter, picks);
      if Searched(f, nodes, start, limit, picks).failed {
        var x :| x in nodes && f.filter(x).Fail?;
        assert Ruled(f, x).Fail?;
      }
      if FiltersFail(f, nodes) {
        var x :| x in nodes && Ruled(f, x).Fail?;
        assert f.filter(x).Fail?;
      }
    }
  }

  /** The statuses beside an error are right as far as they go: those the filters found and those of the
      extenders before the one that broke. */
  lemma FailureExplains(f: Framework, all: seq<NodeName>, listing: seq<NodeName>, start: nat, limit: nat,
                        picks: seq<nat>, x: NodeName)
    requires Distinct(all) && Lists(listing, f.pre) && AllHonest(f.extenders)
    requires Ready(f, all, listing, start, limit, picks) && ShortcutSafe(f, all, listing, limit)
    requires FitOutcome(f, all, listing, start, limit, picks).FitError?
    ensures var fit := FitOutcome(f, all, listing, start, limit, picks);
      var found := Passing(f, all, listing, start, limit, picks);
      && fit.diagnosis.absent == AbsentStatus(f.pre)
      && (x in found.statuses ==> x in fit.diagnosis.statuses && fit.diagnosis.statuses[x] == found.statuses[x])
      && (x in fit.diagnosis.statuses ==>
            && x in Candidates(f.pre, all, listing)
            && FateOf(f, found.feasible, x) == Explained(fit.diagnosis.statuses[x]))
  {
    if !Stops(f.pre) {
      var nodes, found := Candidates(f.pre, all, listing), Passing(f, all, listing, start, limit, picks);
      WithinExact(listing, all);
      if found.failed {
        StatusesAreTrue(nodes, start, limit, f.filter, picks);
      } else {
        SearchedIsRight(f, nodes, start, limit, picks);
        ChainPartitions(f.extenders, found.feasible, found.statuses);
      }
    }
  }

  // ---- When an empty answer is final ----

  /** An empty answer is final: each node that passes the filters has the status of an extender that dropped it. */
  ghost predicate Final(f: Framework, nodes: seq<NodeName>, fit: Fit) {
    fit.Fit? && fit.feasible == [] ==> forall x :: x in nodes && Ruled(f, x) == Pass ==> x in fit.diagnosis.statuses
  }

  /** A search for fewer nodes misses one of them. */
  lemma MissesPasser(f: Framework, nodes: seq<NodeName>, start: nat, limit: nat, picks: seq<nat>) returns (x: NodeName)
    requires Distinct(nodes) && Searchable(f, nodes, start, limit, picks) && (!f.hasFilters ==> limit <= |nodes|)
    requires !Searched(f, nodes, start, limit, picks).failed
    requires limit < |Passers(f, nodes)|
    ensures x in nodes && Ruled(f, x) == Pass
    ensures x !in Searched(f, nodes, start, limit, picks).feasible
        && x !in Searched(f, nodes, start, limit, picks).statuses
  {
    var found := Searched(f, nodes, start, limit, picks);
    SearchedIsRight(f, nodes, start, limit, picks);
    var elements := Elements(found.feasible);
    SizeOfDistinct(found.feasible, elements);
    assert !(Passers(f, nodes) <= elements) by {
      if Passers(f, nodes) <= elements { SubsetSmaller(Passers(f, nodes), elements); }
    }
    x :| x in Passers(f, nodes) && x !in elements;
  }

  /** An extender that drops the given list and keeps any other. */
  ghost function Drops(given: seq<NodeName>): Extender {
    Filterer(nodes => if nodes == given then Answer([], set x | x in given, {}) else Answer(nodes, {}, {}))
  }

  lemma DropsIsHonest(given: seq<NodeName>)
    ensures AllHonest([Drops(given)]) && HasExtenderFilters([Drops(given)])
  {
    assert [Drops(given)][0].isFilter;
    forall nodes | Distinct(nodes) ensures Accounts(nodes, Drops(given).filter(nodes)) {}
    assert Honest(Drops(given));
  }

  lemma DropsAll(given: seq<NodeName>, statuses: Statuses)
    ensures var r := Chain([Drops(given)], given, statuses);
      r.Survivors? && r.feasible == [] && forall x :: x in r.statuses ==> x in statuses || x in given
  {
    if given != [] {
      assert Chain([Drops(given)], given, statuses)
          == Chain([Drops(given)][1..], [], Noted(statuses, set x | x in given, {}));
    }
  }

  lemma ExtendedFinal(f: Framework, nodes: seq<NodeName>, start: nat, limit: nat, picks: seq<nat>)
    requires Distinct(nodes) && Searchable(f, nodes, start, limit, picks) && (!f.hasFilters ==> limit <= |nodes|)
    requires !Searched(f, nodes, start, limit, picks).failed
    requires limit >= |Passers(f, nodes)| && AllHonest(f.extenders)
    ensures Final(f, nodes, Extended(f, Searched(f, nodes, start, limit, picks)))
  {
    var found := Searched(f, nodes, start, limit, picks);
    var r := Chain(f.extenders, found.feasible, found.statuses);
    SearchedIsRight(f, nodes, start, limit, picks);
    ChainPartitions(f.extenders, found.feasible, found.statuses);
    if r.Survivors? && r.feasible == [] {
      forall x | x in nodes && Ruled(f, x) == Pass ensures x in r.statuses {
        assert Settled(found, x, Ruled(f, x));
        assert Decided(r, x, DroppedFor(f.extenders, found.feasible, x));
      }
    }
  }

  /** In every interleaving, empty answers are final for all honest filter extenders exactly when the search
      is asked for at least as many nodes as pass the filters. With fewer, an extender that drops just what
      was found leaves a node that nobody rejects without an answer. */
  lemma FinalExactly(f: Framework, all: seq<NodeName>, listing: seq<NodeName>, start: nat, wanted: nat, picks: seq<nat>)
    requires Distinct(all) && Lists(listing, f.pre) && !Stops(f.pre)
    requires Ready(f, all, listing, start, wanted, picks) && ShortcutSafe(f, all, listing, wanted)
    requires !Passing(f, all, listing, start, wanted, picks).failed
    ensures var nodes := Candidates(f.pre, all, listing);
      (forall extenders :: AllHonest(extenders) && HasExtenderFilters(extenders) ==>
        FinalWith(f, extenders, all, listing, start, wanted, picks)) <==> wanted >= |Passers(f, nodes)|
  {
    var nodes := Candidates(f.pre, all, listing);
    WithinExact(listing, all);
    if wanted >= |Passers(f, nodes)| {
      forall extenders | AllHonest(extenders) && HasExtenderFilters(extenders)
        ensures FinalWith(f, extenders, all, listing, start, wanted, picks)
      {
        var g := f.(extenders := extenders);
        assert Passers(g, nodes) == Passers(f, nodes);
        ExtendedFinal(g, nodes, start, wanted, picks);
      }
    } else {
      var found := Searched(f, nodes, start, wanted, picks);
      var x := MissesPasser(f, nodes, start, wanted, picks);
      DropsIsHonest(found.feasible);
      DropsAll(found.feasible, found.statuses);
      assert !FinalWith(f, [Drops(found.feasible)], all, listing, start, wanted, picks);
    }
  }

  /** The answer with the given extenders is final. Since some extender filters, `wanted` nodes are asked for. */
  ghost predicate FinalWith(f: Framework, extenders: seq<Extender>, all: seq<NodeName>, listing: seq<NodeName>,
                            start: nat, wanted: nat, picks: seq<nat>) {
    var g := f.(extenders := extenders);
    Final(g, Candidates(f.pre, all, listing),
        FitOutcome(g, all, listing, start, Asked(g, all, listing, wanted, false), picks))
  }

  /** The search divides by zero exactly when it is asked for nodes without filter plugins although the
      pre-filters only name nodes outside the placement. */
  lemma SearchPanicsExactly(f: Framework, all: seq<NodeName>, listing: seq<NodeName>, start: nat, wanted: nat,
                            findAll: bool, picks: seq<nat>)
    requires all != [] && Lists(listing, f.pre)
    ensures FitOutcome(f, all, listing, start, Asked(f, all, listing, wanted, findAll), picks).FitPanic? <==>
            && f.pre.Only? && (forall x :: x in f.pre.names ==> x !in all)
            && !f.hasFilters && !findAll && (Scored(f) ==> wanted > 0)
  {
    WithinExact(listing, all);
    if f.pre.Only? && |Within(listing, all)| > 0 {
      assert Within(listing, all)[0] in f.pre.names && Within(listing, all)[0] in all;
    }
  }
}
