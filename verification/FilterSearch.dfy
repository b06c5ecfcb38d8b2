/** The filter search over a list of nodes: the rotation that decides where it starts, the shortcut taken
    without filter plugins, and the shared buffers the workers write in place. */
module FilterSearch {
  import opened Arithmetic
  import opened FilterEngine
  import opened Pods

  // ---- The rotation ----

  /** The place in the node list of the `i`-th piece of work. */
  function Rotate(start: nat, i: nat, n: nat): (r: nat)
    requires n > 0
    ensures r < n
  {
    (start + i) % n
  }

  /** The piece of work that looks at place `j`. */
  function Unrotate(start: nat, j: nat, n: nat): (i: nat)
    requires j < n
    ensures i < n
  {
    (j + n - start % n) % n
  }

  /** From any start the pieces of work visit every place of the list, and each place once. */
  lemma RotationVisitsEachOnce(start: nat, i: nat, j: nat, n: nat)
    requires i < n && j < n
    ensures Rotate(start, i, n) == j <==> i == Unrotate(start, j, n)
  {
    ModSum(start, i, n);
    ModStep(start % n + i, n);
    ModStep(j + n - start % n, n);
  }

  /** The rotation begins at the start, counted around the list, and goes on from each place to the next. */
  lemma RotationInOrder(start: nat, i: nat, n: nat)
    requires n > 0
    ensures start < n ==> Rotate(start, 0, n) == start
    ensures Rotate(start + n, i, n) == Rotate(start, i, n)
    ensures Rotate(start, i + 1, n) == if Rotate(start, i, n) == n - 1 then 0 else Rotate(start, i, n) + 1
  {
    ModSum(start + i, 1, n);
    ModStep((start + i) % n + 1, n);
    ModOnce(start + i, n);
    if start < n { ModStep(start, n); }
  }

  // ---- The shortcut without filter plugins ----

  function Shortcut(nodes: seq<NodeName>, start: nat, limit: nat): seq<NodeName>
    requires limit == 0 || |nodes| > 0
  {
    seq(limit, i requires 0 <= i < limit => nodes[Rotate(start, i, |nodes|)])
  }

  lemma RotationWraps(start: nat, n: nat)
    requires n > 0
    ensures Rotate(start, n, n) == Rotate(start, 0, n)
  {
    ModOnce(start, n);
  }

  lemma RotationInjective(start: nat, i: nat, j: nat, n: nat)
    requires i < j < n
    ensures Rotate(start, i, n) != Rotate(start, j, n)
  {
    RotationVisitsEachOnce(start, i, Rotate(start, i, n), n);
    RotationVisitsEachOnce(start, j, Rotate(start, i, n), n);
  }

  /** The shortcut names no node twice exactly when it is not asked for more nodes than there are, and it
      names every node exactly when it is asked for at least as many. */
  lemma ShortcutExact(nodes: seq<NodeName>, start: nat, limit: nat)
    requires Distinct(nodes) && |nodes| > 0
    ensures Distinct(Shortcut(nodes, start, limit)) <==> limit <= |nodes|
    ensures (forall x :: x in nodes ==> x in Shortcut(nodes, start, limit)) <==> limit >= |nodes|
    ensures forall x :: x in Shortcut(nodes, start, limit) ==> x in nodes
  {
    var n := |nodes|;
    var found := Shortcut(nodes, start, limit);
    if limit <= n {
      forall i, j | 0 <= i < j < limit ensures found[i] != found[j] {
        RotationInjective(start, i, j, n);
      }
    } else {
      RotationWraps(start, n);
      assert found[0] == found[n];
    }
    if limit >= n {
      forall x | x in nodes ensures x in found {
        var j :| 0 <= j < n && nodes[j] == x;
        var i := Unrotate(start, j, n);
        RotationVisitsEachOnce(start, i, j, n);
        assert found[i] == x;
      }
    } else {
      ShortcutMisses(nodes, start, limit);
    }
  }

  /** Taken twice in a row the shortcut returns what it returns when taken once for both, and taken once for all
      nodes from the beginning of the list it returns the list. */
  lemma ShortcutsContinue(nodes: seq<NodeName>, start: nat, a: nat, b: nat)
    requires |nodes| > 0
    ensures Shortcut(nodes, start, a + b) == Shortcut(nodes, start, a) + Shortcut(nodes, (start + a) % |nodes|, b)
    ensures Shortcut(nodes, 0, |nodes|) == nodes
  {
    var both, first, second := Shortcut(nodes, start, a + b), Shortcut(nodes, start, a),
                               Shortcut(nodes, (start + a) % |nodes|, b);
    forall k | 0 <= k < a + b ensures both[k] == (first + second)[k] {
      if k >= a { RotateFrom(start + a, k - a, |nodes|); }
    }
    forall k | 0 <= k < |nodes| ensures Shortcut(nodes, 0, |nodes|)[k] == nodes[k] {
      ModStep(k, |nodes|);
    }
  }

  lemma RotateFrom(start: nat, i: nat, n: nat)
    requires n > 0
    ensures Rotate(start % n, i, n) == (start + i) % n
  {
    ModSum(start, i, n);
  }

  lemma ShortcutMisses(nodes: seq<NodeName>, start: nat, limit: nat)
    requires Distinct(nodes) && limit < |nodes|
    ensures nodes[Rotate(start, limit, |nodes|)] !in Shortcut(nodes, start, limit)
  {
    forall i | 0 <= i < limit ensures Shortcut(nodes, start, limit)[i] != nodes[Rotate(start, limit, |nodes|)] {
      RotationInjective(start, i, limit, |nodes|);
    }
  }

  // ---- What a search returns ----

  datatype Filtered = Filtered(feasible: seq<NodeName>, statuses: map<NodeName, Why>, failed: bool)

  function NodeOf(nodes: seq<NodeName>, start: nat, i: nat): (x: NodeName)
    requires |nodes| > 0
    ensures x in nodes
  {
    nodes[Rotate(start, i, |nodes|)]
  }

  function Verdicts(nodes: seq<NodeName>, start: nat, filter: NodeName -> Verdict): (r: seq<Verdict>)
    ensures |r| == |nodes|
  {
    seq(|nodes|, i requires 0 <= i < |nodes| => filter(NodeOf(nodes, start, i)))
  }

  /** The nodes of the first pieces in the buffer. */
  function Named(nodes: seq<NodeName>, start: nat, takers: seq<nat>): (r: seq<NodeName>)
    requires forall i :: i in takers ==> i < |nodes|
    ensures |r| == |takers|
  {
    seq(|takers|, k requires 0 <= k < |takers| => assert takers[k] in takers; NodeOf(nodes, start, takers[k]))
  }

  /** The statuses of the first `k` pieces, put into the map in order. */
  function Recorded(nodes: seq<NodeName>, start: nat, rejected: seq<Option<Why>>, k: nat): map<NodeName, Why>
    requires k <= |rejected| == |nodes|
  {
    if k == 0 then map[]
    else
      var before := Recorded(nodes, start, rejected, k - 1);
      if rejected[k - 1].None? then before else before[NodeOf(nodes, start, k - 1) := rejected[k - 1].value]
  }

  /** What the search returns after one interleaving. */
  ghost function Outcome(nodes: seq<NodeName>, start: nat, limit: nat, filter: NodeName -> Verdict,
                         picks: seq<nat>): Filtered {
    var e := Interleaved(limit, picks, Verdicts(nodes, start, filter));
    assert forall i :: i in e.takers ==> i < |nodes| by {
      ClaimsAreDense(limit, picks, Verdicts(nodes, start, filter));
    }
    Filtered(Named(nodes, start, e.takers), Recorded(nodes, start, e.rejected, |nodes|), e.error)
  }

  lemma NodeOfInjective(nodes: seq<NodeName>, start: nat, i: nat, j: nat)
    requires Distinct(nodes) && i < |nodes| && j < |nodes| && i != j
    ensures NodeOf(nodes, start, i) != NodeOf(nodes, start, j)
  {
    if i < j {
      RotationInjective(start, i, j, |nodes|);
    } else {
      RotationInjective(start, j, i, |nodes|);
    }
  }

  lemma {:induction false} RecordedExact(nodes: seq<NodeName>, start: nat, rejected: seq<Option<Why>>, k: nat, i: nat)
    requires Distinct(nodes) && k <= |rejected| == |nodes| && i < |nodes|
    ensures var x := NodeOf(nodes, start, i);
      && (x in Recorded(nodes, start, rejected, k) <==> i < k && rejected[i].Some?)
      && (x in Recorded(nodes, start, rejected, k) ==> Recorded(nodes, start, rejected, k)[x] == rejected[i].value)
  {
    if k > 0 {
      RecordedExact(nodes, start, rejected, k - 1, i);
      if i != k - 1 {
        NodeOfInjective(nodes, start, i, k - 1);
      }
    }
  }

  lemma {:induction false} RecordedHasCause(nodes: seq<NodeName>, start: nat, rejected: seq<Option<Why>>, k: nat,
                                            x: NodeName) returns (i: nat)
    requires k <= |rejected| == |nodes| && x in Recorded(nodes, start, rejected, k)
    ensures i < k && NodeOf(nodes, start, i) == x && rejected[i] == Some(Recorded(nodes, start, rejected, k)[x])
  {
    if rejected[k - 1].Some? && x == NodeOf(nodes, start, k - 1) {
      i := k - 1;
    } else {
      i := RecordedHasCause(nodes, start, rejected, k - 1, x);
    }
  }

  /** Only nodes the filters rejected have a status, and it is theirs. */
  ghost predicate StatusesTrue(found: Filtered, nodes: seq<NodeName>, filter: NodeName -> Verdict) {
    forall x :: x in found.statuses ==> x in nodes && filter(x) == Reject(found.statuses[x])
  }

  lemma StatusesAreTrue(nodes: seq<NodeName>, start: nat, limit: nat, filter: NodeName -> Verdict, picks: seq<nat>)
    ensures StatusesTrue(Outcome(nodes, start, limit, filter, picks), nodes, filter)
  {
    var verdicts := Verdicts(nodes, start, filter);
    var e := Interleaved(limit, picks, verdicts);
    var statuses := Outcome(nodes, start, limit, filter, picks).statuses;
    RunInv(limit, picks, verdicts);
    forall x | x in statuses ensures x in nodes && filter(x) == Reject(statuses[x]) {
      var i := RecordedHasCause(nodes, start, e.rejected, |nodes|, x);
      assert Agrees(e.pieces[i], verdicts[i], e.rejected[i]);
    }
  }

  /** What the filters say about a node and what the search says agree. */
  ghost predicate Settled(found: Filtered, x: NodeName, verdict: Verdict) {
    && (x in found.feasible <==> verdict == Pass)
    && (x in found.statuses <==> verdict.Reject?)
    && (verdict.Reject? ==> x in found.statuses && found.statuses[x] == verdict.why)
    && !verdict.Fail?
  }

  lemma SettledAt(nodes: seq<NodeName>, start: nat, limit: nat, filter: NodeName -> Verdict, picks: seq<nat>, i: nat)
    requires Distinct(nodes) && i < |nodes|
    requires Examined(Interleaved(limit, picks, Verdicts(nodes, start, filter)), i, Verdicts(nodes, start, filter))
    ensures Settled(Outcome(nodes, start, limit, filter, picks), NodeOf(nodes, start, i),
        filter(NodeOf(nodes, start, i)))
  {
    var verdicts := Verdicts(nodes, start, filter);
    var e := Interleaved(limit, picks, verdicts);
    var found := Outcome(nodes, start, limit, filter, picks);
    var x := NodeOf(nodes, start, i);
    ClaimsAreDense(limit, picks, verdicts);
    RecordedExact(nodes, start, e.rejected, |nodes|, i);
    if i in e.takers {
      var k :| 0 <= k < |e.takers| && e.takers[k] == i;
      assert found.feasible[k] == x;
    }
    if x in found.feasible {
      var k :| 0 <= k < |found.feasible| && found.feasible[k] == x;
      if e.takers[k] != i {
        NodeOfInjective(nodes, start, e.takers[k], i);
      }
    }
  }

  lemma FeasibleDistinct(nodes: seq<NodeName>, start: nat, limit: nat, filter: NodeName -> Verdict, picks: seq<nat>)
    requires Distinct(nodes)
    ensures var found := Outcome(nodes, start, limit, filter, picks);
      && Distinct(found.feasible) && |found.feasible| <= limit
      && forall x :: x in found.feasible ==> x in nodes && filter(x) == Pass
  {
    var verdicts := Verdicts(nodes, start, filter);
    var e := Interleaved(limit, picks, verdicts);
    var found := Outcome(nodes, start, limit, filter, picks);
    ClaimsAreDense(limit, picks, verdicts);
    forall j, k | 0 <= j < k < |found.feasible| ensures found.feasible[j] != found.feasible[k] {
      NodeOfInjective(nodes, start, e.takers[j], e.takers[k]);
    }
    forall k | 0 <= k < |found.feasible| ensures filter(found.feasible[k]) == Pass {
      assert verdicts[e.takers[k]] == Pass;
    }
  }

  /** The nodes that the filters let pass. */
  ghost function WouldPass(nodes: seq<NodeName>, filter: NodeName -> Verdict): set<NodeName> {
    set x | x in nodes && filter(x) == Pass
  }

  lemma PlaceOf(nodes: seq<NodeName>, start: nat, x: NodeName) returns (i: nat)
    requires x in nodes
    ensures i < |nodes| && NodeOf(nodes, start, i) == x
  {
    var j :| 0 <= j < |nodes| && nodes[j] == x;
    i := Unrotate(start, j, |nodes|);
    RotationVisitsEachOnce(start, i, j, |nodes|);
  }

  ghost function NodesOf(nodes: seq<NodeName>, start: nat, places: set<nat>): set<NodeName>
    requires forall i :: i in places ==> i < |nodes|
  {
    set i | i in places :: NodeOf(nodes, start, i)
  }

  lemma {:induction false} AsManyNodes(nodes: seq<NodeName>, start: nat, places: set<nat>)
    requires Distinct(nodes) && forall i :: i in places ==> i < |nodes|
    ensures |NodesOf(nodes, start, places)| == |places|
  {
    if places != {} {
      var i :| i in places;
      var rest := places - {i};
      AsManyNodes(nodes, start, rest);
      var x := NodeOf(nodes, start, i);
      forall j | j in rest ensures NodeOf(nodes, start, j) != x {
        NodeOfInjective(nodes, start, i, j);
      }
      assert NodesOf(nodes, start, places) == NodesOf(nodes, start, rest) + {x};
    }
  }

  /** As many pieces of work pass as nodes, wherever the search starts. */
  lemma PassesAreNodes(nodes: seq<NodeName>, start: nat, filter: NodeName -> Verdict)
    requires Distinct(nodes)
    ensures |Passes(Verdicts(nodes, start, filter))| == |WouldPass(nodes, filter)|
  {
    var places := Passes(Verdicts(nodes, start, filter));
    AsManyNodes(nodes, start, places);
    forall x ensures x in WouldPass(nodes, filter) <==> x in NodesOf(nodes, start, places) {
      if x in WouldPass(nodes, filter) {
        var i := PlaceOf(nodes, start, x);
        assert i in places;
      }
    }
    assert WouldPass(nodes, filter) == NodesOf(nodes, start, places);
  }

  /** Whatever the interleaving and the start, a search without an error returns different nodes that all
      passed, as many as pass up to the number it was asked for, and only rejected nodes get a status, with
      their own reason. If no more nodes pass than it was asked for, it has an answer for every node: passed nodes
      are returned, and every other node has its reason recorded. */
  lemma SearchIsRight(nodes: seq<NodeName>, start: nat, limit: nat, filter: NodeName -> Verdict, picks: seq<nat>)
    requires Distinct(nodes) && Terminal(Interleaved(limit, picks, Verdicts(nodes, start, filter)))
    requires !Outcome(nodes, start, limit, filter, picks).failed
    ensures var found := Outcome(nodes, start, limit, filter, picks);
      && Distinct(found.feasible)
      && |found.feasible| == (if |WouldPass(nodes, filter)| <= limit then |WouldPass(nodes, filter)| else limit)
      && (forall x :: x in found.feasible ==> x in nodes && filter(x) == Pass)
      && StatusesTrue(found, nodes, filter)
      && (|WouldPass(nodes, filter)| <= limit ==> forall x :: x in nodes ==> Settled(found, x, filter(x)))
  {
    var verdicts := Verdicts(nodes, start, filter);
    var e := Interleaved(limit, picks, verdicts);
    var found := Outcome(nodes, start, limit, filter, picks);
    FeasibleDistinct(nodes, start, limit, filter, picks);
    FullOrAllExamined(limit, picks, verdicts);
    StatusesAreTrue(nodes, start, limit, filter, picks);
    PassesAreNodes(nodes, start, filter);
    if |WouldPass(nodes, filter)| <= limit {
      forall x | x in nodes ensures Settled(found, x, filter(x)) {
        var i := PlaceOf(nodes, start, x);
        assert Examined(e, i, verdicts);
        SettledAt(nodes, start, limit, filter, picks, i);
      }
    }
  }

  /** A search fails only if the filters of some node fail, and certainly then if it is asked for at least as many
      nodes as pass. */
  lemma SearchFailsExactly(nodes: seq<NodeName>, start: nat, limit: nat, filter: NodeName -> Verdict, picks: seq<nat>)
    requires Distinct(nodes) && Terminal(Interleaved(limit, picks, Verdicts(nodes, start, filter)))
    ensures Outcome(nodes, start, limit, filter, picks).failed ==> exists x :: x in nodes && filter(x).Fail?
    ensures |WouldPass(nodes, filter)| <= limit && (exists x :: x in nodes && filter(x).Fail?) ==>
              Outcome(nodes, start, limit, filter, picks).failed
  {
    var verdicts := Verdicts(nodes, start, filter);
    if Outcome(nodes, start, limit, filter, picks).failed {
      ErrorHasCause(limit, picks, verdicts);
      var i :| 0 <= i < |verdicts| && verdicts[i].Fail?;
      assert NodeOf(nodes, start, i) in nodes;
    } else if |WouldPass(nodes, filter)| <= limit {
      SearchIsRight(nodes, start, limit, filter, picks);
      forall x | x in nodes ensures !filter(x).Fail? {
        assert Settled(Outcome(nodes, start, limit, filter, picks), x, filter(x));
      }
    }
  }

  // ---- The shared memory ----

  /** The variables the workers share, and each worker's place in its piece of work. `engine` is the step
      system this memory implements. */
  class Search {
    const nodes: seq<NodeName>
    const start: nat
    const filter: NodeName -> Verdict
    const limit: nat
    const feasible: array<NodeName>
    const result: array<Option<Why>>
    const pieces: array<Piece>
    var counter: int
    var error: bool
    var cancelled: bool
    ghost var engine: Engine

    ghost predicate Valid()
      reads this, feasible, result, pieces
    {
      && Inv(engine, Verdicts(nodes, start, filter), limit)
      && pieces[..] == engine.pieces && result[..] == engine.rejected
      && counter == engine.counter && error == engine.error && cancelled == engine.cancelled
      && feasible.Length == limit
      && (forall k :: 0 <= k < limit && engine.slots[k].Some? ==> SlotNamed(k))
    }

    /** A written slot holds the node of the piece that wrote it. */
    ghost predicate SlotNamed(k: nat)
      requires k < |engine.slots| && engine.slots[k].Some?
      reads this, feasible
    {
      && k < feasible.Length && engine.slots[k].value < |nodes|
      && feasible[k] == NodeOf(nodes, start, engine.slots[k].value)
    }

    constructor (nodes: seq<NodeName>, start: nat, filter: NodeName -> Verdict, limit: nat)
      ensures Valid() && engine == Start(|nodes|, limit)
      ensures this.nodes == nodes && this.start == start && this.filter == filter && this.limit == limit
      ensures fresh(feasible) && fresh(result) && fresh(pieces)
    {
      this.nodes, this.start, this.filter, this.limit := nodes, start, filter, limit;
      feasible := new NodeName[limit];
      result := new Option<Why>[|nodes|](_ => None);
      pieces := new Piece[|nodes|](_ => Idle);
      counter, error, cancelled := 0, false, false;
      engine := Start(|nodes|, limit);
      new;
      StartInv(Verdicts(nodes, start, filter), limit);
    }

    /** One atomic step of the worker on piece `i`. */
    method Move(i: nat)
      requires Valid()
      modifies this, feasible, result, pieces
      ensures Valid() && engine == Step(old(engine), i, Verdicts(nodes, start, filter))
    {
      if i < pieces.Length {
        assert pieces[i] == engine.pieces[i];
        match pieces[i] {
          case Idle => Begin(i);
          case Running => CheckNode(i);
          case Sent => Abort(i);
          case Passed => AddOne(i);
          case Added(length) => Write(i, length);
          case Over => TakeBack(i);
          case _ =>
        }
      }
    }

    /** The worker starts a piece unless the context is already cancelled. */
    method Begin(i: nat)
      requires Valid() && i < |engine.pieces| && engine.pieces[i].Idle?
      modifies this, pieces
      ensures Valid() && engine == Step(old(engine), i, Verdicts(nodes, start, filter))
    {
      StepKeepsInv(engine, i, Verdicts(nodes, start, filter), limit);
      engine := Step(engine, i, Verdicts(nodes, start, filter));
      if !cancelled {
        pieces[i] := Running;
      }
    }

    /** The worker whose filter failed cancels the others. */
    method Abort(i: nat)
      requires Valid() && i < |engine.pieces| && engine.pieces[i].Sent?
      modifies this, pieces
      ensures Valid() && engine == Step(old(engine), i, Verdicts(nodes, start, filter))
    {
      StepKeepsInv(engine, i, Verdicts(nodes, start, filter), limit);
      engine := Step(engine, i, Verdicts(nodes, start, filter));
      cancelled := true;
      pieces[i] := Failed;
    }

    method AddOne(i: nat)
      requires Valid() && i < |engine.pieces| && engine.pieces[i].Passed?
      modifies this, pieces
      ensures Valid() && engine == Claim(old(engine), i)
    {
      ClaimKeepsInv(engine, i, Verdicts(nodes, start, filter), limit);
      counter := counter + 1;
      pieces[i] := Added(counter);
      engine := Claim(engine, i);
      forall k | 0 <= k < limit && engine.slots[k].Some? ensures SlotNamed(k) {
        assert old(SlotNamed(k));
      }
    }

    method TakeBack(i: nat)
      requires Valid() && i < |engine.pieces| && engine.pieces[i].Over?
      modifies this, pieces
      ensures Valid() && engine == Step(old(engine), i, Verdicts(nodes, start, filter))
    {
      StepKeepsInv(engine, i, Verdicts(nodes, start, filter), limit);
      engine := Step(engine, i, Verdicts(nodes, start, filter));
      counter := counter - 1;
      pieces[i] := Refused;
    }

    /** The worker runs the filters on its node and, if they reject it, records why. */
    method CheckNode(i: nat)
      requires Valid() && i < |engine.pieces| && engine.pieces[i].Running?
      modifies this, result, pieces
      ensures Valid() && engine == Check(old(engine), i, Verdicts(nodes, start, filter)[i])
    {
      ghost var verdicts := Verdicts(nodes, start, filter);
      CheckKeepsInv(engine, i, verdicts, limit);
      engine := Check(engine, i, verdicts[i]);
      match filter(NodeOf(nodes, start, i)) {
        case Pass =>
          pieces[i] := Passed;
        case Reject(why) =>
          result[i] := Some(why);
          pieces[i] := Rejected;
        case Fail =>
          error := true;
          pieces[i] := Sent;
      }
    }

    /** The worker that read `length` from its atomic add writes its node into the buffer or gives up. */
    method Write(i: nat, length: int)
      requires Valid() && i < |engine.pieces| && engine.pieces[i] == Added(length)
      modifies this, feasible, pieces
      ensures Valid() && engine == Settle(old(engine), i, length)
    {
      ghost var verdicts := Verdicts(nodes, start, filter);
      assert Agrees(engine.pieces[i], verdicts[i], engine.rejected[i]);
      SettleKeepsInv(engine, i, verdicts, limit);
      engine := Settle(engine, i, length);
      if length > limit {
        cancelled := true;
        pieces[i] := Over;
        forall k | 0 <= k < limit && engine.slots[k].Some? ensures SlotNamed(k) {
          assert old(SlotNamed(k));
        }
      } else {
        feasible[length - 1] := NodeOf(nodes, start, i);
        pieces[i] := Took(length - 1);
        forall k | 0 <= k < limit && engine.slots[k].Some? ensures SlotNamed(k) {
          assert k == length - 1 || old(SlotNamed(k));
        }
      }
    }
  }

  /** The search with filter plugins, for one interleaving of the workers: `picks` says which piece moves
      next, and at its end no worker has anything left to do. */
  method FindNodes(nodes: seq<NodeName>, start: nat, limit: nat, filter: NodeName -> Verdict, picks: seq<nat>)
    returns (found: Filtered)
    requires Terminal(Interleaved(limit, picks, Verdicts(nodes, start, filter)))
    ensures found == Outcome(nodes, start, limit, filter, picks)
  {
    var search := new Search(nodes, start, filter, limit);
    Until(search, picks);
    NamesRead(search, picks);
    var statuses := RecordStatuses(nodes, start, search.result);
    found := Filtered(search.feasible[..search.counter], statuses, search.error);
  }

  /** Goes through the reasons the workers left, in the order of the pieces. */
  method RecordStatuses(nodes: seq<NodeName>, start: nat, result: array<Option<Why>>)
    returns (statuses: map<NodeName, Why>)
    requires result.Length == |nodes|
    ensures statuses == Recorded(nodes, start, result[..], |nodes|)
  {
    statuses := map[];
    var i := 0;
    while i < result.Length
      invariant i <= result.Length
      invariant statuses == Recorded(nodes, start, result[..], i)
    {
      if result[i].Some? {
        statuses := statuses[NodeOf(nodes, start, i) := result[i].value];
      }
      i := i + 1;
    }
  }

  /** All workers, until none has anything left to do. */
  method Until(search: Search, picks: seq<nat>)
    requires search.Valid() && search.engine == Start(|search.nodes|, search.limit)
    modifies search, search.feasible, search.result, search.pieces
    ensures search.Valid()
    ensures search.engine == Interleaved(search.limit, picks, Verdicts(search.nodes, search.start, search.filter))
  {
    ghost var verdicts := Verdicts(search.nodes, search.start, search.filter);
    var step := 0;
    while step < |picks|
      invariant step <= |picks| && search.Valid()
      invariant search.engine == Interleaved(search.limit, picks[..step], verdicts)
    {
      search.Move(picks[step]);
      assert picks[..step + 1][..step] == picks[..step];
      step := step + 1;
    }
    assert picks[..step] == picks;
  }

  /** The first `counter` slots hold the nodes of the takers, in order. */
  lemma NamesRead(search: Search, picks: seq<nat>)
    requires search.Valid() && search.engine
        == Interleaved(search.limit, picks, Verdicts(search.nodes, search.start, search.filter))
    requires Terminal(search.engine)
    ensures 0 <= search.counter <= search.feasible.Length
    ensures forall i :: i in search.engine.takers ==> i < |search.nodes|
    ensures search.feasible[..search.counter] == Named(search.nodes, search.start, search.engine.takers)
  {
    var verdicts := Verdicts(search.nodes, search.start, search.filter);
    FinalSlots(search.limit, picks, verdicts);
    ClaimsAreDense(search.limit, picks, verdicts);
    var e := search.engine;
    forall k | 0 <= k < search.counter ensures search.feasible[k] == NodeOf(search.nodes, search.start, e.takers[k]) {
      assert e.slots[k] == Some(e.takers[k]);
      assert search.SlotNamed(k);
    }
  }

  datatype SearchResult = Done(found: Filtered) | DivisionByZero

  /** The shortcut divides by the number of nodes once for each node it is asked for. */
  predicate DividesByZero(hasFilters: bool, n: nat, limit: nat) {
    !hasFilters && n == 0 && limit > 0
  }

  /** The whole search, with the number of nodes it is asked for and the shortcut without filter plugins. */
  method FindNodesThatPassFilters(nodes: seq<NodeName>, start: nat, wanted: nat, findAll: bool, scored: bool,
                                  hasFilters: bool, filter: NodeName -> Verdict, picks: seq<nat>)
    returns (r: SearchResult)
    requires hasFilters ==> Terminal(Interleaved(Limit(|nodes|, wanted, findAll, scored), picks,
        Verdicts(nodes, start, filter)))
    ensures var limit := Limit(|nodes|, wanted, findAll, scored);
      r == if DividesByZero(hasFilters, |nodes|, limit) then DivisionByZero
           else if hasFilters then Done(Outcome(nodes, start, limit, filter, picks))
           else Done(Filtered(Shortcut(nodes, start, limit), map[], false))
  {
    var limit := |nodes|;
    if !findAll {
      limit := if scored then wanted else 1;
    }
    if hasFilters {
      var found := FindNodes(nodes, start, limit, filter, picks);
      return Done(found);
    }
    var feasible := [];
    var i := 0;
    while i < limit
      invariant i <= limit && |feasible| == i && (|nodes| == 0 ==> i == 0)
      invariant forall k :: 0 <= k < i ==> feasible[k] == nodes[Rotate(start, k, |nodes|)]
    {
      if |nodes| == 0 {
        return DivisionByZero;
      }
      feasible := feasible + [nodes[Rotate(start, i, |nodes|)]];
      i := i + 1;
    }
    assert feasible == Shortcut(nodes, start, limit);
    r := Done(Filtered(feasible, map[], false));
  }

  /** How many nodes a search is asked for. `scored` says that extenders filter or something scores. */
  function Limit(n: nat, wanted: nat, findAll: bool, scored: bool): nat {
    if findAll then n else if scored then wanted else 1
  }
}
