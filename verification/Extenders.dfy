/** The chain of filter extenders, which narrows the list of feasible nodes one extender at a time and
    adds a status for every node it drops. */
module Extenders {
  import opened FilterEngine
  import opened Pods
  import opened Scores

  /** What an extender answers. The messages in its two maps are not modelled. */
  datatype Answer = Answer(feasible: seq<NodeName>, failed: set<NodeName>, unresolvable: set<NodeName>) | Broken

  /** An extender filters, scores or both. Its calls are functions of the nodes it is given; `prioritize` is
      `None` where it fails. */
  datatype Extender = Extender(
    name: string,
    interested: bool,
    ignorable: bool,
    isFilter: bool,
    filter: seq<NodeName> -> Answer,
    isPrioritizer: bool,
    weight: int,
    prioritize: seq<NodeName> -> Option<seq<HostScore>>)

  type Statuses = map<NodeName, Why>

  datatype Chained = Survivors(feasible: seq<NodeName>, statuses: Statuses) | ChainError(statuses: Statuses)

  function Noted(statuses: Statuses, failed: set<NodeName>, unresolvable: set<NodeName>): Statuses {
    map x | x in statuses.Keys + failed + unresolvable ::
      if x in unresolvable then Unresolvable else if x in failed then Unschedulable else statuses[x]
  }

  /** The chain, extender by extender. */
  function Chain(extenders: seq<Extender>, feasible: seq<NodeName>, statuses: Statuses): Chained {
    if extenders == [] || feasible == [] then Survivors(feasible, statuses)
    else if !extenders[0].interested then Chain(extenders[1..], feasible, statuses)
    else
      match extenders[0].filter(feasible)
      case Broken =>
        if extenders[0].ignorable then Chain(extenders[1..], feasible, statuses) else ChainError(statuses)
      case Answer(kept, failed, unresolvable) =>
        Chain(extenders[1..], kept, Noted(statuses, failed, unresolvable))
  }

  // ---- What it means for one node ----

  /** Why the chain drops node `x`: what the first extender that does not keep it says about it, or
      `None` when every extender that was asked and answered kept it. */
  function DroppedFor(extenders: seq<Extender>, feasible: seq<NodeName>, x: NodeName): Option<Why> {
    if extenders == [] || feasible == [] then None
    else if !extenders[0].interested then DroppedFor(extenders[1..], feasible, x)
    else
      match extenders[0].filter(feasible)
      case Broken => DroppedFor(extenders[1..], feasible, x)
      case Answer(kept, failed, unresolvable) =>
        if x in kept then DroppedFor(extenders[1..], kept, x)
        else Some(if x in unresolvable then Unresolvable else Unschedulable)
  }

  /** The extender keeps some of the nodes it was given, each once, and gives a reason for all others and
      for no one else. Being in both failure maps is allowed. */
  ghost predicate Accounts(feasible: seq<NodeName>, answer: Answer) {
    answer.Answer? ==>
      && Distinct(answer.feasible)
      && (forall x :: x in answer.feasible ==> x in feasible)
      && (forall x :: x in answer.failed + answer.unresolvable <==> x in feasible && x !in answer.feasible)
  }

  ghost predicate Honest(x: Extender) {
    forall feasible :: Distinct(feasible) ==> Accounts(feasible, x.filter(feasible))
  }

  /** Extenders that are not interested are never asked. */
  ghost predicate AllHonest(extenders: seq<Extender>) {
    forall i :: 0 <= i < |extenders| && extenders[i].interested ==> Honest(extenders[i])
  }

  predicate NoneInterested(extenders: seq<Extender>) {
    forall i :: 0 <= i < |extenders| ==> !extenders[i].interested
  }

  lemma {:induction false} NoneInterestedRejectsNone(extenders: seq<Extender>, feasible: seq<NodeName>, x: NodeName)
    requires NoneInterested(extenders)
    ensures DroppedFor(extenders, feasible, x) == None
  {
    if extenders != [] && feasible != [] {
      NoneInterestedRejectsNone(extenders[1..], feasible, x);
    }
  }

  lemma {:induction false} NoneInterestedKeepsAll(extenders: seq<Extender>, feasible: seq<NodeName>, statuses: Statuses)
    requires NoneInterested(extenders)
    ensures Chain(extenders, feasible, statuses) == Survivors(feasible, statuses)
  {
    if extenders != [] && feasible != [] {
      NoneInterestedKeepsAll(extenders[1..], feasible, statuses);
    }
  }

  /** No node that is still feasible has a status. */
  ghost predicate Unmarked(feasible: seq<NodeName>, statuses: Statuses) {
    forall x :: x in feasible ==> x !in statuses
  }

  /** What the chain did to the nodes it was given. */
  ghost predicate Partitioned(extenders: seq<Extender>, feasible: seq<NodeName>, statuses: Statuses, r: Chained) {
    && (forall x :: x in statuses ==> x in r.statuses && r.statuses[x] == statuses[x])
    && (forall x :: x in r.statuses ==> x in statuses || Explains(r.statuses, x, feasible, extenders))
    && (r.Survivors? ==>
          && Distinct(r.feasible)
          && (forall x :: x in r.feasible ==> x in feasible)
          && (forall x :: x in feasible ==> Decided(r, x, DroppedFor(extenders, feasible, x))))
  }

  /** The status of a node that the chain was given is that of the extender that dropped it. */
  ghost predicate Explains(statuses: Statuses, x: NodeName, feasible: seq<NodeName>, extenders: seq<Extender>) {
    x in statuses && x in feasible && DroppedFor(extenders, feasible, x) == Some(statuses[x])
  }

  /** A node survives without a status, or is dropped with the given one. */
  ghost predicate Decided(r: Chained, x: NodeName, rejection: Option<Why>)
    requires r.Survivors?
  {
    match rejection
    case None => x in r.feasible && x !in r.statuses
    case Some(why) => x !in r.feasible && x in r.statuses && r.statuses[x] == why
  }

  /** Through uninterested extenders, ignorable failures and an early end: every node the chain is given
      survives or gets exactly one status, that of the first extender that dropped it, the two never
      overlap, no earlier status is overwritten, and nothing else gets one. When the chain fails, the statuses
      so far are still right. */
  lemma {:induction false} ChainPartitions(extenders: seq<Extender>, feasible: seq<NodeName>, statuses: Statuses)
    requires AllHonest(extenders) && Distinct(feasible) && Unmarked(feasible, statuses)
    ensures Partitioned(extenders, feasible, statuses, Chain(extenders, feasible, statuses))
  {
    if extenders == [] || feasible == [] {
    } else {
      var rest := extenders[1..];
      assert AllHonest(rest);
      var answer := extenders[0].filter(feasible);
      if extenders[0].interested && answer.Answer? {
        assert Honest(extenders[0]) && Accounts(feasible, answer);
        var marked := Noted(statuses, answer.failed, answer.unresolvable);
        ChainPartitions(rest, answer.feasible, marked);
        OneMore(extenders, feasible, statuses, Chain(extenders, feasible, statuses));
      } else if !extenders[0].interested || extenders[0].ignorable {
        ChainPartitions(rest, feasible, statuses);
      }
    }
  }

  lemma OneMore(extenders: seq<Extender>, feasible: seq<NodeName>, statuses: Statuses, r: Chained)
    requires extenders != [] && feasible != [] && extenders[0].interested && extenders[0].filter(feasible).Answer?
    requires Accounts(feasible, extenders[0].filter(feasible)) && Unmarked(feasible, statuses)
    requires var answer := extenders[0].filter(feasible);
      Partitioned(extenders[1..], answer.feasible, Noted(statuses, answer.failed, answer.unresolvable), r)
    ensures Partitioned(extenders, feasible, statuses, r)
  {
    var answer := extenders[0].filter(feasible);
    var marked := Noted(statuses, answer.failed, answer.unresolvable);
    if r.Survivors? {
      forall x | x in feasible ensures Decided(r, x, DroppedFor(extenders, feasible, x)) {
        if x in answer.feasible {
          assert Decided(r, x, DroppedFor(extenders[1..], answer.feasible, x));
        } else {
          assert x in answer.failed + answer.unresolvable;
          assert x in marked;
        }
      }
    }
  }

  /** What one extender leaves for the next. */
  function Left(first: Extender, feasible: seq<NodeName>): seq<NodeName> {
    if first.interested && first.filter(feasible).Answer? then first.filter(feasible).feasible else feasible
  }

  /** The nodes that reach the `k`-th extender. */
  function Reaching(extenders: seq<Extender>, feasible: seq<NodeName>, k: nat): seq<NodeName>
    requires k <= |extenders|
  {
    if k == 0 then feasible else Reaching(extenders[1..], Left(extenders[0], feasible), k - 1)
  }

  /** The `k`-th extender is asked, breaks, and may not be ignored. */
  ghost predicate Breaks(extenders: seq<Extender>, feasible: seq<NodeName>, k: nat) {
    && k < |extenders| && extenders[k].interested && !extenders[k].ignorable
    && (forall j: nat :: j <= k ==> Reaching(extenders, feasible, j) != [])
    && extenders[k].filter(Reaching(extenders, feasible, k)).Broken?
  }

  ghost predicate SomeBreaks(extenders: seq<Extender>, feasible: seq<NodeName>) {
    exists k: nat :: Breaks(extenders, feasible, k)
  }

  lemma BreaksNext(extenders: seq<Extender>, feasible: seq<NodeName>, k: nat)
    requires extenders != [] && feasible != []
    ensures Breaks(extenders, feasible, k + 1) <==> Breaks(extenders[1..], Left(extenders[0], feasible), k)
  {
    var rest, next := extenders[1..], Left(extenders[0], feasible);
    if k < |rest| {
      assert rest[k] == extenders[k + 1];
      if Breaks(extenders, feasible, k + 1) {
        forall j: nat | j <= k ensures Reaching(rest, next, j) != [] {
          assert Reaching(extenders, feasible, j + 1) != [];
        }
      }
      if Breaks(rest, next, k) {
        forall j: nat | j <= k + 1 ensures Reaching(extenders, feasible, j) != [] {
          if j > 0 { assert Reaching(rest, next, j - 1) != []; }
        }
      }
    }
  }

  lemma SomeBreaksNext(extenders: seq<Extender>, feasible: seq<NodeName>)
    requires extenders != [] && feasible != []
    ensures SomeBreaks(extenders, feasible) <==>
            Breaks(extenders, feasible, 0) || SomeBreaks(extenders[1..], Left(extenders[0], feasible))
  {
    if SomeBreaks(extenders, feasible) {
      var k: nat :| Breaks(extenders, feasible, k);
      if k > 0 { BreaksNext(extenders, feasible, k - 1); }
    }
    if SomeBreaks(extenders[1..], Left(extenders[0], feasible)) {
      var k: nat :| Breaks(extenders[1..], Left(extenders[0], feasible), k);
      BreaksNext(extenders, feasible, k);
    }
  }

  /** The chain fails exactly when an interested extender that may not be ignored is reached and breaks. */
  lemma {:induction false} ChainFailsExactly(extenders: seq<Extender>, feasible: seq<NodeName>, statuses: Statuses)
    ensures Chain(extenders, feasible, statuses).ChainError? <==> SomeBreaks(extenders, feasible)
  {
    if extenders == [] {
    } else if feasible == [] {
      assert Reaching(extenders, feasible, 0) == [];
    } else {
      SomeBreaksNext(extenders, feasible);
      var answer := extenders[0].filter(feasible);
      if extenders[0].interested && answer.Answer? {
        ChainFailsExactly(extenders[1..], answer.feasible, Noted(statuses, answer.failed, answer.unresolvable));
      } else {
        ChainFailsExactly(extenders[1..], feasible, statuses);
      }
    }
  }

  lemma NoneInterestedBreaks(extenders: seq<Extender>, feasible: seq<NodeName>)
    requires NoneInterested(extenders)
    ensures !SomeBreaks(extenders, feasible)
  {}

  /** The `k`-th extender is asked about node `x` and puts it into both failure maps. */
  ghost predicate PutsInBoth(extenders: seq<Extender>, feasible: seq<NodeName>, k: nat, x: NodeName) {
    && k < |extenders| && extenders[k].interested && x in Reaching(extenders, feasible, k)
    && var answer := extenders[k].filter(Reaching(extenders, feasible, k));
       answer.Answer? && x in answer.failed && x in answer.unresolvable
  }

  lemma {:induction false} BothMapsReject(extenders: seq<Extender>, feasible: seq<NodeName>, k: nat, x: NodeName)
    requires AllHonest(extenders) && Distinct(feasible) && PutsInBoth(extenders, feasible, k, x)
    ensures x in feasible && DroppedFor(extenders, feasible, x) == Some(Unresolvable)
  {
    var answer := extenders[0].filter(feasible);
    if extenders[0].interested && answer.Answer? {
      assert Honest(extenders[0]) && Accounts(feasible, answer);
    }
    if k > 0 {
      var next := Left(extenders[0], feasible);
      assert Reaching(extenders, feasible, k) == Reaching(extenders[1..], next, k - 1);
      BothMapsReject(extenders[1..], next, k - 1, x);
    } else {
      assert x in answer.failed + answer.unresolvable;
    }
  }

  /** A node that any extender of the chain puts into both failure maps ends up unresolvable. */
  lemma BothMapsUnresolvable(extenders: seq<Extender>, feasible: seq<NodeName>, statuses: Statuses, k: nat, x: NodeName)
    requires AllHonest(extenders) && Distinct(feasible) && Unmarked(feasible, statuses)
    requires PutsInBoth(extenders, feasible, k, x) && Chain(extenders, feasible, statuses).Survivors?
    ensures var r := Chain(extenders, feasible, statuses);
      x !in r.feasible && x in r.statuses && r.statuses[x] == Unresolvable
  {
    BothMapsReject(extenders, feasible, k, x);
    ChainPartitions(extenders, feasible, statuses);
    assert Decided(Chain(extenders, feasible, statuses), x, DroppedFor(extenders, feasible, x));
  }

  /** An interested extender that only filters. */
  function Filterer(filter: seq<NodeName> -> Answer): Extender {
    Extender("", true, false, true, filter, false, 0, _ => None)
  }

  /** Why the extenders have to account for every node: one that drops a node and says nothing makes it
      vanish from both sides. */
  lemma SilentExtenderLosesNode(x: NodeName)
    ensures var silent := Filterer(_ => Answer([], {}, {}));
      !Honest(silent) && Chain([silent], [x], map[]) == Survivors([], map[])
  {
    var silent := Filterer(_ => Answer([], {}, {}));
    var answer := silent.filter([x]);
    assert Distinct([x]) && x in [x] && x !in answer.failed + answer.unresolvable;
    assert !Accounts([x], answer);
    assert Noted(map[], {}, {}) == map[];
    assert Chain([silent], [x], map[]) == Chain([silent][1..], [], Noted(map[], {}, {}));
  }

  // ---- The loop ----

  lemma MarkOne(statuses: Statuses, failed: set<NodeName>, unresolvable: set<NodeName>, x: NodeName)
    ensures x !in failed ==>
      Noted(statuses, failed, unresolvable + {x}) == Noted(statuses, failed, unresolvable)[x := Unresolvable]
    ensures x in unresolvable ==> Noted(statuses, failed + {x}, unresolvable) == Noted(statuses, failed, unresolvable)
    ensures x !in unresolvable ==>
      Noted(statuses, failed + {x}, unresolvable) == Noted(statuses, failed, unresolvable)[x := Unschedulable]
  {}

  /** Adds the statuses of one answer, going through each of the two maps in any order. */
  method Mark(statuses: Statuses, failed: set<NodeName>, unresolvable: set<NodeName>) returns (marked: Statuses)
    ensures marked == Noted(statuses, failed, unresolvable)
  {
    marked := statuses;
    var done := {};
    while unresolvable - done != {}
      invariant done <= unresolvable && marked == Noted(statuses, {}, done)
      decreases unresolvable - done
    {
      var x :| x in unresolvable - done;
      MarkOne(statuses, {}, done, x);
      marked := marked[x := Unresolvable];
      done := done + {x};
    }
    assert done == unresolvable;
    done := {};
    while failed - done != {}
      invariant done <= failed && marked == Noted(statuses, done, unresolvable)
      decreases failed - done
    {
      var x :| x in failed - done;
      MarkOne(statuses, done, unresolvable, x);
      if x !in unresolvable {
        marked := marked[x := Unschedulable];
      }
      done := done + {x};
    }
    assert done == failed;
  }

  method FindNodesThatPassExtenders(extenders: seq<Extender>, nodes: seq<NodeName>, before: Statuses)
    returns (r: Chained)
    ensures r == Chain(extenders, nodes, before)
  {
    var feasible, statuses := nodes, before;
    var i := 0;
    while i < |extenders| && feasible != []
      invariant i <= |extenders|
      invariant Chain(extenders[i..], feasible, statuses) == Chain(extenders, nodes, before)
    {
      assert extenders[i..][0] == extenders[i] && extenders[i..][1..] == extenders[i + 1..];
      if extenders[i].interested {
        match extenders[i].filter(feasible) {
          case Broken =>
            if !extenders[i].ignorable {
              return ChainError(statuses);
            }
          case Answer(kept, failed, unresolvable) =>
            statuses := Mark(statuses, failed, unresolvable);
            feasible := kept;
        }
      }
      i := i + 1;
    }
    r := Survivors(feasible, statuses);
  }
}
