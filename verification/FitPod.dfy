/** Finding the nodes that fit a pod, with the shortcut for a nominated or hinted node, and the feasibility check. */
module FitPod {
  import opened Arithmetic
  import opened FilterEngine
  import opened FilterSearch
  import opened Extenders
  import opened Feasibility
  import opened Pods

  const MAX_INT32: nat := 0x7FFF_FFFF

  /** The node the pod is nominated to, or else hinted at, with the interleaving of the search that looks at
      it alone. */
  datatype Nomination = Nobody | Nominee(node: NodeName, picks: seq<nat>)

  // ---- The nominated node ----

  function NomineeLimit(f: Framework, wanted: nat): nat {
    Limit(1, wanted, false, Scored(f))
  }

  ghost predicate NomineeReady(f: Framework, start: nat, wanted: nat, nominee: Nomination) {
    nominee.Nominee? ==> Searchable(f, [nominee.node], start, NomineeLimit(f, wanted), nominee.picks)
  }

  /** What the filters say about the nominated node, if it is in the placement. */
  ghost function NomineeSearched(f: Framework, all: seq<NodeName>, start: nat, wanted: nat,
                                 nominee: Nomination): Filtered {
    if nominee.Nominee? && nominee.node in all then
      Searched(f, [nominee.node], start, NomineeLimit(f, wanted), nominee.picks)
    else Filtered([], map[], false)
  }

  /** What is left of it after the extenders, with the statuses noted on the way. An error only means that
      nothing is left. */
  function NomineeExtended(f: Framework, found: Filtered): (seq<NodeName>, Statuses) {
    if found.failed then ([], found.statuses)
    else
      match Chain(f.extenders, found.feasible, found.statuses)
      case ChainError(statuses) => ([], statuses)
      case Survivors(feasible, statuses) => (feasible, statuses)
  }

  ghost function Evaluated(f: Framework, all: seq<NodeName>, start: nat, wanted: nat,
                           nominee: Nomination): (seq<NodeName>, Statuses) {
    NomineeExtended(f, NomineeSearched(f, all, start, wanted, nominee))
  }

  // ---- The whole attempt ----

  /** A later result written over statuses noted before. */
  function WrittenOver(before: Statuses, found: Filtered): Filtered {
    found.(statuses := before + found.statuses)
  }

  /** The search over the placement when statuses have been noted before. */
  ghost function FitAfter(f: Framework, before: Statuses, all: seq<NodeName>, listing: seq<NodeName>, start: nat,
                          limit: nat, picks: seq<nat>): Fit {
    if Ends(f, all, listing, limit) then FitOutcome(f, all, listing, start, limit, picks)
    else Extended(f, WrittenOver(before, Passing(f, all, listing, start, limit, picks)))
  }

  /** The nominated node is tried first, unless all nodes are asked for or the pre-filters have ended the
      attempt, and if it fits nothing else is looked at. */
  ghost function FitWith(f: Framework, all: seq<NodeName>, listing: seq<NodeName>, start: nat, wanted: nat,
                         findAll: bool, nominee: Nomination, picks: seq<nat>): Fit {
    var limit := Asked(f, all, listing, wanted, findAll);
    if Stops(f.pre) || findAll || nominee.Nobody? then FitOutcome(f, all, listing, start, limit, picks)
    else
      var (feasible, statuses) := Evaluated(f, all, start, wanted, nominee);
      if feasible != [] then Fit(feasible, Diagnosis(statuses, None))
      else FitAfter(f, statuses, all, listing, start, limit, picks)
  }

  /** The nominated node settles the attempt. */
  ghost predicate NomineeTaken(f: Framework, all: seq<NodeName>, start: nat, wanted: nat, findAll: bool,
                               nominee: Nomination) {
    !Stops(f.pre) && !findAll && nominee.Nominee? && Evaluated(f, all, start, wanted, nominee).0 != []
  }

  lemma {:induction false} ChainIgnoresStatuses(extenders: seq<Extender>, feasible: seq<NodeName>, a: Statuses,
                                                b: Statuses)
    ensures var r, q := Chain(extenders, feasible, a), Chain(extenders, feasible, b);
      (r.Survivors? <==> q.Survivors?) && (r.Survivors? ==> r.feasible == q.feasible)
  {
    if extenders != [] && feasible != [] {
      ChainIgnoresStatuses(extenders[1..], feasible, a, b);
      match extenders[0].filter(feasible)
      case Broken =>
      case Answer(kept, failed, unresolvable) =>
        ChainIgnoresStatuses(extenders[1..], kept, Noted(a, failed, unresolvable), Noted(b, failed, unresolvable));
    }
  }

  /** The same kind of answer with the same nodes. */
  ghost predicate SameAnswer(a: Fit, b: Fit) {
    (a.Fit? <==> b.Fit?) && (a.FitPanic? <==> b.FitPanic?) && (a.Fit? ==> a.feasible == b.feasible)
  }

  /** A nominated node that is turned down leaves no trace but statuses. */
  lemma TurnedDownChangesNothing(f: Framework, all: seq<NodeName>, listing: seq<NodeName>, start: nat, wanted: nat,
                                 findAll: bool, nominee: Nomination, picks: seq<nat>)
    requires !NomineeTaken(f, all, start, wanted, findAll, nominee)
    ensures SameAnswer(FitWith(f, all, listing, start, wanted, findAll, nominee, picks),
                      FitOutcome(f, all, listing, start, Asked(f, all, listing, wanted, findAll), picks))
  {
    var found := Passing(f, all, listing, start, Asked(f, all, listing, wanted, findAll), picks);
    var before := Evaluated(f, all, start, wanted, nominee).1;
    ChainIgnoresStatuses(f.extenders, found.feasible, found.statuses, before + found.statuses);
  }

  /** A node is returned only if it is in the placement, passed the filters and was kept by every extender that
      was asked about `given`, the list it was in. The pre-filters' names hold for it unless it was nominated. */
  ghost predicate LetThrough(f: Framework, all: seq<NodeName>, given: seq<NodeName>, nominee: Nomination, x: NodeName) {
    && x in all && Ruled(f, x) == Pass
    && x in given && DroppedFor(f.extenders, given, x) == None
    && (f.pre.Only? ==> x in f.pre.names || (nominee.Nominee? && x == nominee.node))
  }

  /** The list the extenders were given in the end. */
  ghost function GivenToExtenders(f: Framework, all: seq<NodeName>, listing: seq<NodeName>, start: nat, wanted: nat,
                                  nominee: Nomination, picks: seq<nat>): seq<NodeName> {
    if NomineeTaken(f, all, start, wanted, false, nominee) then NomineeSearched(f, all, start, wanted, nominee).feasible
    else Passing(f, all, listing, start, Asked(f, all, listing, wanted, false), picks).feasible
  }

  /** A survivor of the chain was given to it and kept by everyone. */
  lemma {:induction false} SurvivorsAreKept(extenders: seq<Extender>, feasible: seq<NodeName>, statuses: Statuses,
                                            x: NodeName)
    requires AllHonest(extenders) && Distinct(feasible)
    requires Chain(extenders, feasible, statuses).Survivors? && x in Chain(extenders, feasible, statuses).feasible
    ensures x in feasible && DroppedFor(extenders, feasible, x) == None
  {
    if extenders != [] && feasible != [] {
      assert AllHonest(extenders[1..]);
      match extenders[0].filter(feasible)
      case Broken => SurvivorsAreKept(extenders[1..], feasible, statuses, x);
      case Answer(kept, failed, unresolvable) =>
        if extenders[0].interested {
          assert Honest(extenders[0]) && Accounts(feasible, extenders[0].filter(feasible));
          SurvivorsAreKept(extenders[1..], kept, Noted(statuses, failed, unresolvable), x);
        } else {
          SurvivorsAreKept(extenders[1..], feasible, statuses, x);
        }
    }
  }

  /** The shortcut without filter plugins, on the nominated node alone, names it at most once. */
  predicate NomineeOnce(f: Framework, wanted: nat, nominee: Nomination) {
    nominee.Nominee? && !f.hasFilters ==> NomineeLimit(f, wanted) <= 1
  }

  /** The shortcut without filter plugins names nobody twice. */
  predicate NoRepeats(f: Framework, all: seq<NodeName>, listing: seq<NodeName>, wanted: nat, nominee: Nomination) {
    ShortcutSafe(f, all, listing, Asked(f, all, listing, wanted, false)) && NomineeOnce(f, wanted, nominee)
  }

  lemma NomineeLetThrough(f: Framework, all: seq<NodeName>, start: nat, wanted: nat, nominee: Nomination, x: NodeName)
    requires AllHonest(f.extenders) && NomineeReady(f, start, wanted, nominee)
    requires NomineeOnce(f, wanted, nominee)
    requires NomineeTaken(f, all, start, wanted, false, nominee) && x in Evaluated(f, all, start, wanted, nominee).0
    ensures LetThrough(f, all, NomineeSearched(f, all, start, wanted, nominee).feasible, nominee, x)
        && x == nominee.node
  {
    var found := NomineeSearched(f, all, start, wanted, nominee);
    assert nominee.node in all;
    SearchedIsRight(f, [nominee.node], start, NomineeLimit(f, wanted), nominee.picks);
    SurvivorsAreKept(f.extenders, found.feasible, found.statuses, x);
  }

  /** Whatever is returned was let through, with the nominated node as the one exception to the names. */
  lemma ReturnedAreLetThrough(f: Framework, all: seq<NodeName>, listing: seq<NodeName>, start: nat, wanted: nat,
                              nominee: Nomination, picks: seq<nat>, x: NodeName)
    requires Distinct(all) && Lists(listing, f.pre) && AllHonest(f.extenders) && !Stops(f.pre)
    requires Ready(f, all, listing, start, Asked(f, all, listing, wanted, false), picks)
    requires NomineeReady(f, start, wanted, nominee) && NoRepeats(f, all, listing, wanted, nominee)
    requires var fit := FitWith(f, all, listing, start, wanted, false, nominee, picks); fit.Fit? && x in fit.feasible
    ensures LetThrough(f, all, GivenToExtenders(f, all, listing, start, wanted, nominee, picks), nominee, x)
  {
    if NomineeTaken(f, all, start, wanted, false, nominee) {
      NomineeLetThrough(f, all, start, wanted, nominee, x);
    } else {
      TurnedDownChangesNothing(f, all, listing, start, wanted, false, nominee, picks);
      SearchedLetThrough(f, all, listing, start, Asked(f, all, listing, wanted, false), nominee, picks, x);
    }
  }

  lemma SearchedLetThrough(f: Framework, all: seq<NodeName>, listing: seq<NodeName>, start: nat, limit: nat,
                           nominee: Nomination, picks: seq<nat>, x: NodeName)
    requires Distinct(all) && Lists(listing, f.pre) && AllHonest(f.extenders) && !Stops(f.pre)
    requires Ready(f, all, listing, start, limit, picks) && ShortcutSafe(f, all, listing, limit)
    requires var fit := FitOutcome(f, all, listing, start, limit, picks); fit.Fit? && x in fit.feasible
    ensures LetThrough(f, all, Passing(f, all, listing, start, limit, picks).feasible, nominee, x)
  {
    var found := Passing(f, all, listing, start, limit, picks);
    WithinExact(listing, all);
    SearchedIsRight(f, Candidates(f.pre, all, listing), start, limit, picks);
    SurvivorsAreKept(f.extenders, found.feasible, found.statuses, x);
  }

  /** The exception is real. A nominated node settles the attempt exactly when it is in the placement, passes the
      filters and is kept by the extenders, whatever names the pre-filters left; then it is returned alone,
      without any explanation. */
  lemma NomineeSettlesExactly(f: Framework, all: seq<NodeName>, listing: seq<NodeName>, start: nat, wanted: nat,
                              findAll: bool, nominee: Nomination, picks: seq<nat>)
    requires AllHonest(f.extenders) && NomineeReady(f, start, wanted, nominee) && NomineeOnce(f, wanted, nominee)
    ensures NomineeTaken(f, all, start, wanted, findAll, nominee) <==>
            && !Stops(f.pre) && !findAll && (Scored(f) ==> wanted > 0)
            && nominee.Nominee? && nominee.node in all && Ruled(f, nominee.node) == Pass
            && !SomeBreaks(f.extenders, [nominee.node]) && DroppedFor(f.extenders, [nominee.node], nominee.node) == None
    ensures NomineeTaken(f, all, start, wanted, findAll, nominee) ==>
              FitWith(f, all, listing, start, wanted, findAll, nominee, picks)
              == Fit([nominee.node], Diagnosis(map[], None))
  {
    if nominee.Nominee? && nominee.node in all {
      NomineeFiltered(f, all, start, wanted, nominee);
      if Ruled(f, nominee.node) == Pass && NomineeLimit(f, wanted) > 0 {
        assert NomineeSearched(f, all, start, wanted, nominee) == Filtered([nominee.node], map[], false);
        KeptAlone(f.extenders, nominee.node);
      }
    }
  }

  /** What the filters leave of the nominated node. */
  lemma NomineeFiltered(f: Framework, all: seq<NodeName>, start: nat, wanted: nat, nominee: Nomination)
    requires nominee.Nominee? && nominee.node in all && NomineeReady(f, start, wanted, nominee)
    requires NomineeOnce(f, wanted, nominee)
    ensures var found, limit := NomineeSearched(f, all, start, wanted, nominee), NomineeLimit(f, wanted);
      if Ruled(f, nominee.node) == Pass && limit > 0 then found == Filtered([nominee.node], map[], false)
      else found.failed || found.feasible == []
  {
    var found := NomineeSearched(f, all, start, wanted, nominee);
    var nodes, limit := [nominee.node], NomineeLimit(f, wanted);
    if f.hasFilters { SearchFailsExactly(nodes, start, limit, f.filter, nominee.picks); }
    PassersFew(f, nodes);
    if !found.failed {
      SearchedIsRight(f, nodes, start, limit, nominee.picks);
      assert nodes[0] in nodes;
      if Ruled(f, nominee.node) == Pass && limit > 0 {
        assert Settled(found, nominee.node, Ruled(f, nominee.node));
        assert found.feasible == [nominee.node] && found.statuses == map[];
      }
    }
  }

  lemma KeptAlone(extenders: seq<Extender>, x: NodeName)
    requires AllHonest(extenders)
    ensures var r := Chain(extenders, [x], map[]);
      if SomeBreaks(extenders, [x]) then r.ChainError?
      else if DroppedFor(extenders, [x], x).None? then r == Survivors([x], map[])
      else r == Survivors([], r.statuses)
  {
    var r := Chain(extenders, [x], map[]);
    ChainFailsExactly(extenders, [x], map[]);
    ChainPartitions(extenders, [x], map[]);
    assert [x][0] in [x];
    if r.Survivors? {
      assert Decided(r, x, DroppedFor(extenders, [x], x));
      SizeOfDistinct(r.feasible, if x in r.feasible then {x} else {});
      assert x in r.feasible ==> r.feasible[0] in r.feasible && r.statuses == map[];
    }
  }

  /** An attempt divides by zero exactly when no nominated node settles it, there are no filter plugins, the
      pre-filters only name nodes outside the placement, and some but not all nodes are asked for. */
  lemma PanicsExactly(f: Framework, all: seq<NodeName>, listing: seq<NodeName>, start: nat, wanted: nat, findAll: bool,
                      nominee: Nomination, picks: seq<nat>)
    requires all != [] && Lists(listing, f.pre)
    ensures FitWith(f, all, listing, start, wanted, findAll, nominee, picks).FitPanic? <==>
            && !NomineeTaken(f, all, start, wanted, findAll, nominee)
            && f.pre.Only? && (forall x :: x in f.pre.names ==> x !in all)
            && !f.hasFilters && !findAll && (Scored(f) ==> wanted > 0)
  {
    if !NomineeTaken(f, all, start, wanted, findAll, nominee) {
      TurnedDownChangesNothing(f, all, listing, start, wanted, findAll, nominee, picks);
      SearchPanicsExactly(f, all, listing, start, wanted, findAll, picks);
    }
  }

  /** An attempt fails only when no nominated node settles it and something goes wrong in the search over the placement,
      and certainly then if that is asked for at least as many nodes as pass. What goes wrong on the nominated
      node alone never makes it fail. */
  lemma AttemptFailsExactly(f: Framework, all: seq<NodeName>, listing: seq<NodeName>, start: nat, wanted: nat,
                            findAll: bool, nominee: Nomination, picks: seq<nat>)
    requires Distinct(all) && Lists(listing, f.pre)
    requires Ready(f, all, listing, start, Asked(f, all, listing, wanted, findAll), picks)
    ensures var limit := Asked(f, all, listing, wanted, findAll);
      var fails := FitWith(f, all, listing, start, wanted, findAll, nominee, picks).FitError?;
      var wrong := !NomineeTaken(f, all, start, wanted, findAll, nominee)
        && GoesWrong(f, Candidates(f.pre, all, listing), Passing(f, all, listing, start, limit, picks).feasible);
      (fails ==> wrong) && (wrong && SearchedAll(f, all, listing, limit) ==> fails)
  {
    if !NomineeTaken(f, all, start, wanted, findAll, nominee) {
      TurnedDownChangesNothing(f, all, listing, start, wanted, findAll, nominee, picks);
      FitFailsExactly(f, all, listing, start, Asked(f, all, listing, wanted, findAll), picks);
    }
  }

  lemma {:induction false} FewerSurvive(extenders: seq<Extender>, feasible: seq<NodeName>, statuses: Statuses)
    requires AllHonest(extenders) && Distinct(feasible)
    ensures var r := Chain(extenders, feasible, statuses); r.Survivors? ==> |r.feasible| <= |feasible|
  {
    if extenders != [] && feasible != [] {
      assert AllHonest(extenders[1..]);
      FewerSurvive(extenders[1..], feasible, statuses);
      match extenders[0].filter(feasible)
      case Broken =>
      case Answer(kept, failed, unresolvable) =>
        if extenders[0].interested {
          assert Honest(extenders[0]) && Accounts(feasible, extenders[0].filter(feasible));
          SizeOfDistinct(kept, Elements(kept));
          SizeOfDistinct(feasible, Elements(feasible));
          SubsetSmaller(Elements(kept), Elements(feasible));
          FewerSurvive(extenders[1..], kept, Noted(statuses, failed, unresolvable));
        }
    }
  }

  lemma SearchAtMostAsked(f: Framework, all: seq<NodeName>, listing: seq<NodeName>, start: nat, limit: nat,
                          picks: seq<nat>)
    requires Distinct(all) && Lists(listing, f.pre) && AllHonest(f.extenders)
    requires Ready(f, all, listing, start, limit, picks) && ShortcutSafe(f, all, listing, limit)
    ensures var fit := FitOutcome(f, all, listing, start, limit, picks); fit.Fit? ==> |fit.feasible| <= limit
  {
    var fit, found := FitOutcome(f, all, listing, start, limit, picks), Passing(f, all, listing, start, limit, picks);
    if !Stops(f.pre) && fit.Fit? {
      WithinExact(listing, all);
      SearchedIsRight(f, Candidates(f.pre, all, listing), start, limit, picks);
      FewerSurvive(f.extenders, found.feasible, found.statuses);
    }
  }

  lemma NomineeAtMostAsked(f: Framework, all: seq<NodeName>, start: nat, wanted: nat, nominee: Nomination)
    requires AllHonest(f.extenders) && NomineeReady(f, start, wanted, nominee) && NomineeOnce(f, wanted, nominee)
    ensures |Evaluated(f, all, start, wanted, nominee).0| <= NomineeLimit(f, wanted)
  {
    var found := NomineeSearched(f, all, start, wanted, nominee);
    if nominee.Nominee? && nominee.node in all && !found.failed {
      SearchedIsRight(f, [nominee.node], start, NomineeLimit(f, wanted), nominee.picks);
    }
    if !found.failed {
      FewerSurvive(f.extenders, found.feasible, found.statuses);
    }
  }

  /** No attempt returns more nodes than it was asked for. */
  lemma AtMostAsked(f: Framework, all: seq<NodeName>, listing: seq<NodeName>, start: nat, wanted: nat,
                    nominee: Nomination, picks: seq<nat>)
    requires Distinct(all) && Lists(listing, f.pre) && AllHonest(f.extenders)
    requires Ready(f, all, listing, start, Asked(f, all, listing, wanted, false), picks)
    requires NomineeReady(f, start, wanted, nominee) && NoRepeats(f, all, listing, wanted, nominee)
    ensures var fit := FitWith(f, all, listing, start, wanted, false, nominee, picks);
      fit.Fit? ==> |fit.feasible| <= if Scored(f) then wanted else 1
  {
    if NomineeTaken(f, all, start, wanted, false, nominee) {
      NomineeAtMostAsked(f, all, start, wanted, nominee);
    } else {
      TurnedDownChangesNothing(f, all, listing, start, wanted, false, nominee, picks);
      SearchAtMostAsked(f, all, listing, start, Asked(f, all, listing, wanted, false), picks);
    }
  }

  /** Where no extender is interested, a search returns as many nodes as pass, up to the number it is asked for:
      all of them for a feasibility check, one if nothing filters further or scores. */
  lemma AsManyAsAsked(f: Framework, all: seq<NodeName>, listing: seq<NodeName>, start: nat, wanted: nat, findAll: bool,
                      nominee: Nomination, picks: seq<nat>)
    requires Distinct(all) && Lists(listing, f.pre) && NoneInterested(f.extenders) && !Stops(f.pre)
    requires var limit := Asked(f, all, listing, wanted, findAll);
      Ready(f, all, listing, start, limit, picks) && ShortcutSafe(f, all, listing, limit)
    requires !NomineeTaken(f, all, start, wanted, findAll, nominee) && !FiltersFail(f, Candidates(f.pre, all, listing))
    ensures var fit := FitWith(f, all, listing, start, wanted, findAll, nominee, picks);
      var passers := Passers(f, Candidates(f.pre, all, listing));
      var chosen := f.hasScorePlugins || exists x :: x in f.extenders && (x.isFilter || x.isPrioritizer);
      var asked := if findAll then |passers| else if chosen then wanted else 1;
      && fit.Fit? && Distinct(fit.feasible) && (forall x :: x in fit.feasible ==> x in passers)
      && |fit.feasible| == if |passers| <= asked then |passers| else asked
  {
    var nodes, limit := Candidates(f.pre, all, listing), Asked(f, all, listing, wanted, findAll);
    var found := Passing(f, all, listing, start, limit, picks);
    WithinExact(listing, all);
    PassersFew(f, nodes);
    TurnedDownChangesNothing(f, all, listing, start, wanted, findAll, nominee, picks);
    SearchedFailsExactly(f, nodes, start, limit, picks);
    SearchedIsRight(f, nodes, start, limit, picks);
    NoneInterestedKeepsAll(f.extenders, found.feasible, found.statuses);
    ScoredExactly(f);
  }

  lemma ScoredExactly(f: Framework)
    ensures Scored(f) <==> f.hasScorePlugins || exists x :: x in f.extenders && (x.isFilter || x.isPrioritizer)
  {
    if exists x :: x in f.extenders && (x.isFilter || x.isPrioritizer) {
      var i :| 0 <= i < |f.extenders| && (f.extenders[i].isFilter || f.extenders[i].isPrioritizer);
    }
  }

  lemma {:induction false} ChainKeepsKeys(extenders: seq<Extender>, feasible: seq<NodeName>, statuses: Statuses)
    ensures statuses.Keys <= Chain(extenders, feasible, statuses).statuses.Keys
  {
    if extenders != [] && feasible != [] {
      match extenders[0].filter(feasible)
      case Broken => ChainKeepsKeys(extenders[1..], feasible, statuses);
      case Answer(kept, failed, unresolvable) =>
        ChainKeepsKeys(extenders[1..], feasible, statuses);
        ChainKeepsKeys(extenders[1..], kept, Noted(statuses, failed, unresolvable));
    }
  }

  /** A nominated node that is turned down keeps its explanation to the end: whatever gave it a status, it still has one
      in the answer, and if the filters rejected it, their reason, even if the pre-filters left it out. */
  lemma NomineeReasonKept(f: Framework, all: seq<NodeName>, listing: seq<NodeName>, start: nat, wanted: nat,
                          nominee: Nomination, picks: seq<nat>)
    requires Distinct(all) && Lists(listing, f.pre) && AllHonest(f.extenders)
    requires Ready(f, all, listing, start, Asked(f, all, listing, wanted, false), picks) && !Stops(f.pre)
    requires NomineeReady(f, start, wanted, nominee) && nominee.Nominee? && nominee.node in all
    requires NoRepeats(f, all, listing, wanted, nominee)
    requires !NomineeTaken(f, all, start, wanted, false, nominee)
    requires !FitWith(f, all, listing, start, wanted, false, nominee, picks).FitPanic?
    ensures var statuses := FitWith(f, all, listing, start, wanted, false, nominee, picks).diagnosis.statuses;
      && (nominee.node in Evaluated(f, all, start, wanted, nominee).1 ==> nominee.node in statuses)
      && (Ruled(f, nominee.node).Reject? ==>
            nominee.node in statuses && statuses[nominee.node] == Ruled(f, nominee.node).why)
  {
    var limit := Asked(f, all, listing, wanted, false);
    var before := Evaluated(f, all, start, wanted, nominee).1;
    var found := WrittenOver(before, Passing(f, all, listing, start, limit, picks));
    ChainKeepsKeys(f.extenders, found.feasible, found.statuses);
    if Ruled(f, nominee.node).Reject? {
      RejectedNomineeNoted(f, all, start, wanted, nominee);
      RejectionKept(f, all, listing, start, limit, picks, nominee.node);
      if !found.failed {
        ChainPartitions(f.extenders, found.feasible, found.statuses);
      }
    }
  }

  lemma RejectedNomineeNoted(f: Framework, all: seq<NodeName>, start: nat, wanted: nat, nominee: Nomination)
    requires nominee.Nominee? && nominee.node in all && NomineeReady(f, start, wanted, nominee)
    requires Ruled(f, nominee.node).Reject?
    ensures Evaluated(f, all, start, wanted, nominee) == ([], map[nominee.node := Ruled(f, nominee.node).why])
  {
    var found := NomineeSearched(f, all, start, wanted, nominee);
    var nodes, limit := [nominee.node], NomineeLimit(f, wanted);
    SearchFailsExactly(nodes, start, limit, f.filter, nominee.picks);
    SearchedIsRight(f, nodes, start, limit, nominee.picks);
    assert nodes[0] in nodes;
    assert Passers(f, nodes) == {};
    assert Settled(found, nominee.node, Ruled(f, nominee.node));
    assert found.feasible == [] && found.statuses == map[nominee.node := Ruled(f, nominee.node).why];
  }

  /** What the search over the placement says about a node that the filters reject, and about those it found. */
  lemma RejectionKept(f: Framework, all: seq<NodeName>, listing: seq<NodeName>, start: nat, limit: nat,
                      picks: seq<nat>, x: NodeName)
    requires Distinct(all) && Lists(listing, f.pre) && !Stops(f.pre) && Ruled(f, x).Reject?
    requires Ready(f, all, listing, start, limit, picks) && ShortcutSafe(f, all, listing, limit)
    ensures var found := Passing(f, all, listing, start, limit, picks);
      var statuses := map[x := Ruled(f, x).why] + found.statuses;
      && statuses[x] == Ruled(f, x).why
      && (!found.failed ==> Distinct(found.feasible) && Unmarked(found.feasible, statuses))
  {
    var nodes := Candidates(f.pre, all, listing);
    WithinExact(listing, all);
    if !Ends(f, all, listing, limit) {
      if f.hasFilters { StatusesAreTrue(nodes, start, limit, f.filter, picks); }
      if !Passing(f, all, listing, start, limit, picks).failed {
        SearchedIsRight(f, nodes, start, limit, picks);
      }
    }
  }

  // ---- The scheduler ----

  function Advanced(start: nat, found: Filtered, n: nat): nat
    requires n > 0
  {
    (start + |found.feasible| + |found.statuses|) % n
  }

  /** Where the next search starts: moved on by the nodes found and explained, unless there was no search. */
  ghost function StartAfter(f: Framework, before: Statuses, all: seq<NodeName>, listing: seq<NodeName>, start: nat,
                            limit: nat, picks: seq<nat>): nat
    requires Stops(f.pre) || |all| > 0
  {
    if Ends(f, all, listing, limit) then start
    else
      Advanced(start, WrittenOver(before, Passing(f, all, listing, start, limit, picks)), |all|)
  }

  /** The statuses noted on the nominated node before the search. */
  ghost function NotedBefore(f: Framework, all: seq<NodeName>, start: nat, wanted: nat, findAll: bool,
                             nominee: Nomination): Statuses {
    if findAll || nominee.Nobody? then map[] else Evaluated(f, all, start, wanted, nominee).1
  }

  ghost function NextStart(f: Framework, all: seq<NodeName>, listing: seq<NodeName>, start: nat, wanted: nat,
                           findAll: bool, nominee: Nomination, picks: seq<nat>): nat
    requires Stops(f.pre) || |all| > 0
  {
    if NomineeTaken(f, all, start, wanted, findAll, nominee) then start
    else
      var before := NotedBefore(f, all, start, wanted, findAll, nominee);
      StartAfter(f, before, all, listing, start, Asked(f, all, listing, wanted, findAll), picks)
  }

  lemma AdvancedGoesOn(all: seq<NodeName>, start: nat, found: Filtered, i: nat)
    requires all != []
    ensures NodeOf(all, Advanced(start, found, |all|), i)
         == NodeOf(all, start, |found.feasible| + |found.statuses| + i)
  {
    RotateFrom(start + |found.feasible| + |found.statuses|, i, |all|);
  }

  /** The next search takes up the list where this one left it: after as many nodes as have been found or have a
      status. */
  lemma NextSearchGoesOn(f: Framework, all: seq<NodeName>, listing: seq<NodeName>, start: nat, wanted: nat,
                         findAll: bool, nominee: Nomination, picks: seq<nat>, i: nat)
    requires all != [] && !NomineeTaken(f, all, start, wanted, findAll, nominee)
    requires !Ends(f, all, listing, Asked(f, all, listing, wanted, findAll))
    ensures var before := NotedBefore(f, all, start, wanted, findAll, nominee);
      var found := Passing(f, all, listing, start, Asked(f, all, listing, wanted, findAll), picks);
      NodeOf(all, NextStart(f, all, listing, start, wanted, findAll, nominee, picks), i)
      == NodeOf(all, start, |found.feasible| + |before + found.statuses| + i)
  {
    var before := NotedBefore(f, all, start, wanted, findAll, nominee);
    var found := Passing(f, all, listing, start, Asked(f, all, listing, wanted, findAll), picks);
    AdvancedGoesOn(all, start, WrittenOver(before, found), i);
  }

  /** The nominated node passed the filters and was dropped by the extenders with a status, so that a search that
      finds it again counts it as found and as explained. */
  ghost predicate CountedTwice(f: Framework, all: seq<NodeName>, start: nat, wanted: nat, findAll: bool,
                               nominee: Nomination) {
    && !findAll && nominee.Nominee? && Ruled(f, nominee.node) == Pass
    && nominee.node in Evaluated(f, all, start, wanted, nominee).1
  }

  /** Trying the nominated node gives a status to no other node, and none to one whose filters fail. */
  lemma NomineeStatuses(f: Framework, all: seq<NodeName>, start: nat, wanted: nat, nominee: Nomination, x: NodeName)
    requires AllHonest(f.extenders) && nominee.Nominee? && NomineeReady(f, start, wanted, nominee)
    requires NomineeOnce(f, wanted, nominee)
    requires x in Evaluated(f, all, start, wanted, nominee).1
    ensures x == nominee.node && x in all && !Ruled(f, x).Fail?
  {
    var found := NomineeSearched(f, all, start, wanted, nominee);
    if nominee.node in all {
      if found.failed {
        StatusesAreTrue([nominee.node], start, NomineeLimit(f, wanted), f.filter, nominee.picks);
      } else {
        SearchedIsRight(f, [nominee.node], start, NomineeLimit(f, wanted), nominee.picks);
        ChainPartitions(f.extenders, found.feasible, found.statuses);
      }
    }
  }

  lemma AllProcessed(f: Framework, nodes: seq<NodeName>, found: Filtered)
    requires Distinct(nodes) && Distinct(found.feasible)
    requires forall x :: x in found.feasible || x in found.statuses ==> x in nodes
    requires forall x :: x in nodes ==> Settled(found, x, Ruled(f, x))
    ensures |found.feasible| + |found.statuses| == |nodes|
  {
    var feasible, explained := Elements(found.feasible), found.statuses.Keys;
    forall x ensures x in nodes <==> x in feasible + explained {
      if x in nodes { assert Settled(found, x, Ruled(f, x)); }
    }
    SizeOfDistinct(nodes, feasible + explained);
    SizeOfDistinct(found.feasible, feasible);
    forall x | x in feasible ensures x !in explained {
      assert Settled(found, x, Ruled(f, x));
    }
    assert feasible !! explained;
  }

  lemma OneKeyMore(before: Statuses, found: Statuses, x: NodeName)
    requires forall y :: y in before ==> y == x || y in found
    ensures (before + found).Keys == if x in before then found.Keys + {x} else found.Keys
  {}

  lemma SizeWithOneMore(s: set<NodeName>, x: NodeName)
    ensures |s + {x}| == |s| + if x in s then 0 else 1
  {
    if x in s {
      assert s + {x} == s;
    }
  }

  lemma CountMerged(before: Statuses, found: Statuses, x: NodeName)
    requires forall y :: y in before ==> y == x || y in found
    ensures |before + found| == |found| + if x in before && x !in found then 1 else 0
  {
    OneKeyMore(before, found, x);
    SizeWithOneMore(found.Keys, x);
    assert |before + found| == |(before + found).Keys| && |found| == |found.Keys|;
  }

  lemma AdvancedRound(start: nat, found: Filtered, n: nat, more: nat)
    requires n > 0 && |found.feasible| + |found.statuses| == n + more
    ensures Advanced(start, found, n) == (start + more) % n
  {
    ModOnce(start + more, n);
  }

  /** Once all `n` nodes are found or explained, the statuses noted before move the start on by one if they have a
      node that was found. */
  lemma ComesRound(start: nat, before: Statuses, found: Filtered, n: nat, x: NodeName)
    requires n > 0 && |found.feasible| + |found.statuses| == n
    requires forall y :: y in before ==> y == x || y in found.statuses
    ensures Advanced(start, WrittenOver(before, found), n)
         == if x in before && x !in found.statuses then (start + 1) % n else start % n
  {
    CountMerged(before, found.statuses, x);
    AdvancedRound(start, WrittenOver(before, found), n, if x in before && x !in found.statuses then 1 else 0);
  }

  /** A search over the whole placement that has an answer for every node has processed each of them once, so the next
      one starts where this one did, or one further if the nominated node counts twice. An attempt that the
      nominated node settles does not move the start. */
  lemma FullSearchComesRound(f: Framework, all: seq<NodeName>, listing: seq<NodeName>, start: nat, wanted: nat,
                             findAll: bool, nominee: Nomination, picks: seq<nat>)
    requires Distinct(all) && all != [] && f.pre.AllNodes? && AllHonest(f.extenders)
    requires NomineeReady(f, start, wanted, nominee) && NomineeOnce(f, wanted, nominee)
    requires var limit := Asked(f, all, listing, wanted, findAll);
      && Ready(f, all, listing, start, limit, picks) && ShortcutSafe(f, all, listing, limit)
      && SearchedAll(f, all, listing, limit) && !Passing(f, all, listing, start, limit, picks).failed
    ensures NextStart(f, all, listing, start, wanted, findAll, nominee, picks) ==
            if NomineeTaken(f, all, start, wanted, findAll, nominee) then start
            else if CountedTwice(f, all, start, wanted, findAll, nominee) then (start + 1) % |all| else start % |all|
  {
    if !NomineeTaken(f, all, start, wanted, findAll, nominee) {
      var limit := Asked(f, all, listing, wanted, findAll);
      SearchedIsRight(f, all, start, limit, picks);
      AllProcessed(f, all, Passing(f, all, listing, start, limit, picks));
      TurnedDownComesRound(f, all, start, wanted, findAll, nominee, Passing(f, all, listing, start, limit, picks));
    }
  }

  lemma TurnedDownComesRound(f: Framework, all: seq<NodeName>, start: nat, wanted: nat, findAll: bool,
                             nominee: Nomination, found: Filtered)
    requires all != [] && AllHonest(f.extenders)
    requires NomineeReady(f, start, wanted, nominee) && NomineeOnce(f, wanted, nominee)
    requires |found.feasible| + |found.statuses| == |all| && forall x :: x in all ==> Settled(found, x, Ruled(f, x))
    ensures var before := NotedBefore(f, all, start, wanted, findAll, nominee);
      Advanced(start, WrittenOver(before, found), |all|) ==
      if CountedTwice(f, all, start, wanted, findAll, nominee) then (start + 1) % |all| else start % |all|
  {
    if findAll || nominee.Nobody? {
      ComesRound(start, map[], found, |all|, "");
    } else {
      var before := Evaluated(f, all, start, wanted, nominee).1;
      forall x | x in before ensures x == nominee.node && Settled(found, x, Ruled(f, x)) {
        NomineeStatuses(f, all, start, wanted, nominee, x);
      }
      ComesRound(start, before, found, |all|, nominee.node);
    }
  }

  class Scheduler {
    var nextStartNodeIndex: nat
    const numNodesToFind: nat

    constructor (next: nat, wanted: nat)
      ensures nextStartNodeIndex == next && numNodesToFind == wanted
    {
      nextStartNodeIndex, numNodesToFind := next, wanted;
    }

    /** Tries the nominated node alone. Whatever goes wrong, the attempt goes on without it. */
    method EvaluateNominatedNode(f: Framework, all: seq<NodeName>, nominee: Nomination)
      returns (feasible: seq<NodeName>, statuses: Statuses)
      requires NomineeReady(f, nextStartNodeIndex, numNodesToFind, nominee)
      ensures (feasible, statuses) == Evaluated(f, all, nextStartNodeIndex, numNodesToFind, nominee)
    {
      feasible, statuses := [], map[];
      if nominee.Nominee? && nominee.node in all {
        var searched := FindNodesThatPassFilters([nominee.node], nextStartNodeIndex, numNodesToFind, false, Scored(f),
                                                 f.hasFilters, f.filter, nominee.picks);
        var found := searched.found;
        statuses := found.statuses;
        if !found.failed {
          var chained := FindNodesThatPassExtenders(f.extenders, found.feasible, found.statuses);
          statuses := chained.statuses;
          if chained.Survivors? {
            feasible := chained.feasible;
          }
        }
      } else {
        assert Chain(f.extenders, [], map[]) == Survivors([], map[]);
      }
    }

    /** The search over the placement, with statuses noted before. A panic leaves everything as it was. */
    method SearchPlacement(f: Framework, before: Statuses, all: seq<NodeName>, listing: seq<NodeName>, findAll: bool,
                           picks: seq<nat>)
      returns (fit: Fit)
      requires |all| > 0 && !Stops(f.pre)
      requires Ready(f, all, listing, nextStartNodeIndex, Asked(f, all, listing, numNodesToFind, findAll), picks)
      modifies this
      ensures var limit := Asked(f, all, listing, numNodesToFind, findAll);
        && fit == FitAfter(f, before, all, listing, old(nextStartNodeIndex), limit, picks)
        && nextStartNodeIndex == StartAfter(f, before, all, listing, old(nextStartNodeIndex), limit, picks)
    {
      var searched := SearchCandidates(f, all, listing, nextStartNodeIndex, numNodesToFind, findAll, picks);
      if searched.DivisionByZero? {
        return FitPanic;
      }
      var found := WrittenOver(before, searched.found);
      nextStartNodeIndex := Advanced(nextStartNodeIndex, found, |all|);
      fit := ExtendFound(f, found);
    }

    /** The attempt. `listing` and `picks` stand for the order in which the set of names is gone through and
        for the interleaving of the workers. */
    method FindNodesThatFitPod(f: Framework, all: seq<NodeName>, listing: seq<NodeName>, findAll: bool,
                               nominee: Nomination, picks: seq<nat>)
      returns (fit: Fit)
      requires Stops(f.pre) || |all| > 0
      requires Ready(f, all, listing, nextStartNodeIndex, Asked(f, all, listing, numNodesToFind, findAll), picks)
      requires findAll || NomineeReady(f, nextStartNodeIndex, numNodesToFind, nominee)
      modifies this
      ensures fit == FitWith(f, all, listing, old(nextStartNodeIndex), numNodesToFind, findAll, nominee, picks)
      ensures nextStartNodeIndex == NextStart(f, all, listing, old(nextStartNodeIndex), numNodesToFind, findAll,
          nominee, picks)
    {
      match f.pre {
        case PreError => return FitError(Diagnosis(map[], None));
        case PreReject(why) => return Fit([], Diagnosis(map[], Some(why)));
        case _ =>
      }
      var before := map[];
      if findAll || nominee.Nobody? {
        NothingBefore(f, all, listing, nextStartNodeIndex, Asked(f, all, listing, numNodesToFind, findAll), picks);
      } else {
        var feasible;
        feasible, before := EvaluateNominatedNode(f, all, nominee);
        if feasible != [] {
          return Fit(feasible, Diagnosis(before, None));
        }
      }
      fit := SearchPlacement(f, before, all, listing, findAll, picks);
    }
  }

  lemma NothingBefore(f: Framework, all: seq<NodeName>, listing: seq<NodeName>, start: nat, limit: nat, picks: seq<nat>)
    ensures FitAfter(f, map[], all, listing, start, limit, picks) == FitOutcome(f, all, listing, start, limit, picks)
  {
    var found := Passing(f, all, listing, start, limit, picks);
    assert map[] + found.statuses == found.statuses;
  }

  /** What the extenders make of the result of the filters. */
  method ExtendFound(f: Framework, found: Filtered) returns (fit: Fit)
    ensures fit == Extended(f, found)
  {
    var absent := AbsentStatus(f.pre);
    if found.failed {
      return FitError(Diagnosis(found.statuses, absent));
    }
    var chained := FindNodesThatPassExtenders(f.extenders, found.feasible, found.statuses);
    match chained {
      case ChainError(after) => fit := FitError(Diagnosis(after, absent));
      case Survivors(feasible, after) => fit := Fit(feasible, Diagnosis(after, absent));
    }
  }

  /** Looks up the names the pre-filters left, keeping those in the placement. */
  method ListCandidates(pre: PreFilter, all: seq<NodeName>, listing: seq<NodeName>) returns (nodes: seq<NodeName>)
    ensures nodes == Candidates(pre, all, listing)
  {
    nodes := all;
    if pre.Only? {
      nodes := [];
      var i := 0;
      while i < |listing|
        invariant i <= |listing| && nodes == Within(listing[..i], all)
      {
        assert listing[..i + 1][..i] == listing[..i] && listing[..i + 1][i] == listing[i];
        if listing[i] in all {
          nodes := nodes + [listing[i]];
        }
        i := i + 1;
      }
      assert listing[..i] == listing;
    }
  }

  /** Lists the nodes the pre-filters left and searches them. */
  method SearchCandidates(f: Framework, all: seq<NodeName>, listing: seq<NodeName>, start: nat, wanted: nat,
                          findAll: bool, picks: seq<nat>)
    returns (r: SearchResult)
    requires !Stops(f.pre) && Ready(f, all, listing, start, Asked(f, all, listing, wanted, findAll), picks)
    ensures var limit := Asked(f, all, listing, wanted, findAll);
      r == if Ends(f, all, listing, limit) then DivisionByZero else Done(Passing(f, all, listing, start, limit, picks))
  {
    var nodes := ListCandidates(f.pre, all, listing);
    r := FindNodesThatPassFilters(nodes, start, wanted, findAll, Scored(f), f.hasFilters, f.filter, picks);
  }

  // ---- The feasibility check ----

  /** What a feasibility check returns: nothing for an empty placement, one of the errors, or the nodes. */
  datatype Checked =
    | NoPlacement
    | NoFramework
    | NotAssumed
    | CheckFailed(diagnosis: Diagnosis)
    | Checked(names: seq<NodeName>, diagnosis: Diagnosis)

  /** What the search over all nodes of a placement finds. */
  ghost function AllFit(f: Framework, all: seq<NodeName>, listing: seq<NodeName>, picks: seq<nat>): Fit {
    FitOutcome(f, all, listing, 0, |Candidates(f.pre, all, listing)|, picks)
  }

  /** The nodes that pass the filters, in the order in which the search found them. */
  ghost function CheckPassed(f: Framework, all: seq<NodeName>, listing: seq<NodeName>, picks: seq<nat>): seq<NodeName> {
    Passing(f, all, listing, 0, |Candidates(f.pre, all, listing)|, picks).feasible
  }

  /** The answer names and explains only nodes of the placement, and shows the fate of each of them. */
  ghost predicate Partitions(fit: Fit, f: Framework, passed: seq<NodeName>, placement: set<NodeName>) {
    && fit.Fit? && Distinct(fit.feasible) && (forall x :: x in fit.feasible ==> x in placement)
    && (forall x :: x in fit.diagnosis.statuses ==> x in placement)
    && (forall x :: x in placement ==> Shows(fit, x, FateOf(f, passed, x)))
  }

  lemma CheckPartitions(f: Framework, all: seq<NodeName>, listing: seq<NodeName>, picks: seq<nat>,
                        placement: set<NodeName>)
    requires Distinct(all) && Lists(listing, f.pre) && forall x :: x in all <==> x in placement
    requires Ready(f, all, listing, 0, |Candidates(f.pre, all, listing)|, picks)
    ensures AllHonest(f.extenders) && AllFit(f, all, listing, picks).Fit? ==>
              Partitions(AllFit(f, all, listing, picks), f, CheckPassed(f, all, listing, picks), placement)
  {
    if AllHonest(f.extenders) && AllFit(f, all, listing, picks).Fit? {
      CheckFailsExactly(f, all, listing, picks);
      PlacementPartitioned(f, all, listing, 0, |Candidates(f.pre, all, listing)|, picks);
    }
  }

  /** What makes the check fail: the plugins or the extenders do, on one of the candidates or on those that passed. */
  ghost predicate CheckGoesWrong(f: Framework, all: seq<NodeName>, listing: seq<NodeName>, picks: seq<nat>) {
    GoesWrong(f, Candidates(f.pre, all, listing), CheckPassed(f, all, listing, picks))
  }

  /** The feasibility check fails exactly when the plugins or an extender fail. That it rejects nodes, even all of
      them, never makes it fail. */
  lemma CheckFailsExactly(f: Framework, all: seq<NodeName>, listing: seq<NodeName>, picks: seq<nat>)
    requires Distinct(all) && Lists(listing, f.pre)
    requires Ready(f, all, listing, 0, |Candidates(f.pre, all, listing)|, picks)
    ensures SearchedAll(f, all, listing, |Candidates(f.pre, all, listing)|)
    ensures AllFit(f, all, listing, picks).FitError? <==> CheckGoesWrong(f, all, listing, picks)
  {
    WithinExact(listing, all);
    PassersFew(f, Candidates(f.pre, all, listing));
    FitFailsExactly(f, all, listing, 0, |Candidates(f.pre, all, listing)|, picks);
  }

  /** The feasibility check of one pod on a placement. `f` is the pod's framework if there is one, and
      `assumed` what the snapshot lists once it has accepted the placement. It fails exactly when the plugins or
      an extender fail; otherwise the answer partitions the placement, and each node's part is decided by the
      plugins and extenders alone. */
  method CanSchedulePod(placement: set<NodeName>, f: Option<Framework>, assumed: Option<seq<NodeName>>,
                        nominee: Nomination, listing: seq<NodeName>, picks: seq<nat>)
    returns (r: Checked)
    requires assumed.Some? ==> Distinct(assumed.value) && forall x :: x in assumed.value <==> x in placement
    requires f.Some? && assumed.Some? ==>
      && Lists(listing, f.value.pre)
      && Ready(f.value, assumed.value, listing, 0, |Candidates(f.value.pre, assumed.value, listing)|, picks)
    ensures r.NoPlacement? <==> placement == {}
    ensures r.NoFramework? <==> placement != {} && f.None?
    ensures r.NotAssumed? <==> placement != {} && f.Some? && assumed.None?
    ensures placement != {} && f.Some? && assumed.Some? ==>
      match AllFit(f.value, assumed.value, listing, picks)
      case Fit(feasible, diagnosis) => r == Checked(feasible, diagnosis)
      case FitError(diagnosis) => r == CheckFailed(diagnosis)
      case FitPanic => false
    ensures r.CheckFailed? <==>
            placement != {} && f.Some? && assumed.Some? && CheckGoesWrong(f.value, assumed.value, listing, picks)
    ensures r.Checked? && AllHonest(f.value.extenders) ==>
      Partitions(Fit(r.names, r.diagnosis), f.value, CheckPassed(f.value, assumed.value, listing, picks), placement)
  {
    if placement == {} {
      return NoPlacement;
    }
    if f.None? {
      return NoFramework;
    }
    if assumed.None? {
      return NotAssumed;
    }
    assert assumed.value != [] by {
      var x :| x in placement;
      assert x in assumed.value;
    }
    CheckFailsExactly(f.value, assumed.value, listing, picks);
    CheckPartitions(f.value, assumed.value, listing, picks, placement);
    var sched := new Scheduler(0, MAX_INT32);
    var fit := sched.FindNodesThatFitPod(f.value, assumed.value, listing, true, nominee, picks);
    match fit {
      case FitError(diagnosis) => r := CheckFailed(diagnosis);
      case Fit(feasible, diagnosis) => r := Checked(feasible, diagnosis);
    }
  }
}
