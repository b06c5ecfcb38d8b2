/** Scoring the feasible nodes: plugin scores, plus the scores of extenders that run in parallel and add
    theirs under a lock in whatever order they finish. */
module Scores {
  import opened FilterEngine
  import opened Pods

  /** The score range of the scheduler and that of an extender. */
  const MAX_SCORE := 100
  const MAX_EXTENDER_PRIORITY := 10

  datatype HostScore = HostScore(host: NodeName, score: int)
  datatype Part = Part(scorer: string, score: int)

  /** A total with the parts it is made of. The order of the parts is that of the finishing extenders. */
  datatype Tally = Tally(total: int, parts: multiset<Part>)

  datatype NodeScore = NodeScore(name: NodeName, tally: Tally)

  /** An extender that scores. `list` is what it returns, `None` when it fails. */
  datatype Prioritizer = Prioritizer(name: string, interested: bool, weight: int, list: Option<seq<HostScore>>)

  datatype Ranking = Ranking(scores: seq<NodeScore>) | ScoringError

  const NOTHING := Tally(0, multiset{})

  function Plus(a: Tally, b: Tally): Tally {
    Tally(a.total + b.total, a.parts + b.parts)
  }

  function Scaled(x: Prioritizer, score: int): Part {
    Part(x.name, score * x.weight * (MAX_SCORE / MAX_EXTENDER_PRIORITY))
  }

  /** What the first `n` entries of a list of scores give to one host: a part for each time it is listed. */
  function Given(x: Prioritizer, list: seq<HostScore>, n: nat, host: NodeName): Tally
    requires n <= |list|
  {
    if n == 0 then NOTHING
    else
      var before := Given(x, list, n - 1, host);
      var part := Scaled(x, list[n - 1].score);
      if list[n - 1].host != host then before else Plus(before, Tally(part.score, multiset{part}))
  }

  function Contribution(x: Prioritizer, host: NodeName): Tally {
    if x.interested && x.list.Some? then Given(x, x.list.value, |x.list.value|, host) else NOTHING
  }

  /** The contributions of the first `n` extenders, counting only those in `finished`. */
  function SumOf(extenders: seq<Prioritizer>, finished: set<nat>, n: nat, host: NodeName): Tally
    requires n <= |extenders|
  {
    if n == 0 then NOTHING
    else
      var before := SumOf(extenders, finished, n - 1, host);
      if n - 1 in finished then Plus(before, Contribution(extenders[n - 1], host)) else before
  }

  /** The contributions of all extenders: those not interested and those that failed give nothing. */
  function Total(extenders: seq<Prioritizer>, n: nat, host: NodeName): Tally
    requires n <= |extenders|
  {
    if n == 0 then NOTHING else Plus(Total(extenders, n - 1, host), Contribution(extenders[n - 1], host))
  }

  lemma {:induction false} OneMoreFinished(extenders: seq<Prioritizer>, finished: set<nat>, n: nat, i: nat,
                                           host: NodeName)
    requires n <= |extenders| && i !in finished
    ensures SumOf(extenders, finished + {i}, n, host) ==
            if i < n then Plus(SumOf(extenders, finished, n, host), Contribution(extenders[i], host))
            else SumOf(extenders, finished, n, host)
  {
    if n > 0 {
      OneMoreFinished(extenders, finished, n - 1, i, host);
    }
  }

  lemma {:induction false} AllFinished(extenders: seq<Prioritizer>, finished: set<nat>, n: nat, host: NodeName)
    requires n <= |extenders| && forall i :: 0 <= i < n && extenders[i].interested ==> i in finished
    ensures SumOf(extenders, finished, n, host) == Total(extenders, n, host)
  {
    if n > 0 {
      AllFinished(extenders, finished, n - 1, host);
    }
  }

  lemma {:induction false} NoneFinished(extenders: seq<Prioritizer>, n: nat, host: NodeName)
    requires n <= |extenders|
    ensures SumOf(extenders, {}, n, host) == NOTHING
  {
    if n > 0 {
      NoneFinished(extenders, n - 1, host);
    }
  }

  function OnlyHosts(list: seq<HostScore>, n: nat, hosts: set<NodeName>): seq<HostScore>
    requires n <= |list|
  {
    if n == 0 then []
    else OnlyHosts(list, n - 1, hosts) + if list[n - 1].host in hosts then [list[n - 1]] else []
  }

  lemma {:induction false} GivenSamePrefix(x: Prioritizer, a: seq<HostScore>, b: seq<HostScore>, n: nat, host: NodeName)
    requires n <= |a| && n <= |b| && a[..n] == b[..n]
    ensures Given(x, a, n, host) == Given(x, b, n, host)
  {
    if n > 0 {
      assert a[n - 1] == a[..n][n - 1] == b[n - 1];
      assert a[..n - 1] == a[..n][..n - 1] == b[..n - 1];
      GivenSamePrefix(x, a, b, n - 1, host);
    }
  }

  /** Whatever extenders say about other hosts makes no difference to a node. */
  lemma {:induction false} OtherHostsChangeNothing(x: Prioritizer, list: seq<HostScore>, n: nat, hosts: set<NodeName>,
          host: NodeName)
    requires n <= |list| && host in hosts
    ensures var only := OnlyHosts(list, n, hosts);
      Given(x, only, |only|, host) == Given(x, list, n, host)
  {
    if n > 0 {
      OtherHostsChangeNothing(x, list, n - 1, hosts, host);
      var before, only := OnlyHosts(list, n - 1, hosts), OnlyHosts(list, n, hosts);
      if list[n - 1].host in hosts {
        assert only[..|before|] == before[..|before|];
        GivenSamePrefix(x, only, before, |before|, host);
      } else {
        assert only == before;
      }
    }
  }

  /** What a host is given is the sum of the scores listed for it, scaled, with one part for each. */
  lemma {:induction false} GivenIsScaledSum(x: Prioritizer, list: seq<HostScore>, n: nat, host: NodeName)
    requires n <= |list|
    ensures Given(x, list, n, host).total == RawSum(list, n, host) * x.weight * (MAX_SCORE / MAX_EXTENDER_PRIORITY)
    ensures |Given(x, list, n, host).parts| == |OnlyHosts(list, n, {host})|
  {
    if n > 0 {
      GivenIsScaledSum(x, list, n - 1, host);
      if list[n - 1].host == host {
        Distribute(RawSum(list, n - 1, host), list[n - 1].score, x.weight, MAX_SCORE / MAX_EXTENDER_PRIORITY);
      }
    }
  }

  function RawSum(list: seq<HostScore>, n: nat, host: NodeName): int
    requires n <= |list|
  {
    if n == 0 then 0 else RawSum(list, n - 1, host) + if list[n - 1].host == host then list[n - 1].score else 0
  }

  lemma Distribute(a: int, b: int, w: int, k: int)
    ensures (a + b) * w * k == a * w * k + b * w * k
  {
    assert (a + b) * w == a * w + b * w;
  }

  // ---- The shared map ----

  type Board = map<NodeName, Tally>

  function On(board: Board, host: NodeName): Tally {
    if host in board then board[host] else NOTHING
  }

  function Entered(board: Board, x: Prioritizer, entry: HostScore): Board {
    var part := Scaled(x, entry.score);
    board[entry.host := Plus(On(board, entry.host), Tally(part.score, multiset{part}))]
  }

  lemma EntryCounts(before: Tally, board: Board, x: Prioritizer, list: seq<HostScore>, i: nat, host: NodeName)
    requires i < |list| && On(board, host) == Plus(before, Given(x, list, i, host))
    ensures On(Entered(board, x, list[i]), host) == Plus(before, Given(x, list, i + 1, host))
  {
    if list[i].host == host {
      var part := Scaled(x, list[i].score);
      var given := Given(x, list, i, host);
      assert (before.parts + given.parts) + multiset{part} == before.parts + (given.parts + multiset{part});
    }
  }

  /** `after` is `board` plus what the first `n` entries of the list give to each host. */
  ghost predicate Posted(board: Board, after: Board, x: Prioritizer, list: seq<HostScore>, n: nat)
    requires n <= |list|
  {
    forall host :: On(after, host) == Plus(On(board, host), Given(x, list, n, host))
  }

  lemma PostOne(board: Board, after: Board, x: Prioritizer, list: seq<HostScore>, i: nat)
    requires i < |list| && Posted(board, after, x, list, i)
    ensures Posted(board, Entered(after, x, list[i]), x, list, i + 1)
  {
    forall host
      ensures On(Entered(after, x, list[i]), host) == Plus(On(board, host), Given(x, list, i + 1, host))
    {
      EntryCounts(On(board, host), after, x, list, i, host);
    }
  }

  /** Goes through one list of scores. */
  method PostList(board: Board, x: Prioritizer, list: seq<HostScore>) returns (after: Board)
    ensures Posted(board, after, x, list, |list|)
  {
    after := board;
    for i := 0 to |list|
      invariant Posted(board, after, x, list, i)
    {
      PostOne(board, after, x, list, i);
      after := Entered(after, x, list[i]);
    }
  }

  /** One extender's turn under the lock: it adds its scores to the shared map. */
  method AddScores(board: Board, x: Prioritizer) returns (after: Board)
    ensures forall host :: On(after, host) == Plus(On(board, host), Contribution(x, host))
  {
    if x.interested && x.list.Some? {
      after := PostList(board, x, x.list.value);
    } else {
      after := board;
    }
  }

  /** A finishing order of the extenders that were started: the interested ones, each once. */
  ghost predicate FinishingOrder(order: seq<nat>, extenders: seq<Prioritizer>) {
    && Distinct(order)
    && (forall i: nat :: i in order <==> i < |extenders| && extenders[i].interested)
  }

  /** All extenders add their scores, in the order in which they finish; the result does not depend on it. */
  method RunExtenders(extenders: seq<Prioritizer>, order: seq<nat>) returns (board: Board)
    requires FinishingOrder(order, extenders)
    ensures forall host :: On(board, host) == Total(extenders, |extenders|, host)
  {
    board := map[];
    ghost var finished: set<nat> := {};
    var i := 0;
    forall host ensures SumOf(extenders, {}, |extenders|, host) == NOTHING {
      NoneFinished(extenders, |extenders|, host);
    }
    while i < |order|
      invariant i <= |order|
      invariant forall j: nat :: j in finished <==> j in order[..i]
      invariant forall host :: On(board, host) == SumOf(extenders, finished, |extenders|, host)
    {
      assert order[i] in order;
      ghost var was := board;
      board := AddScores(board, extenders[order[i]]);
      forall host ensures On(board, host) == SumOf(extenders, finished + {order[i]}, |extenders|, host) {
        assert On(was, host) == SumOf(extenders, finished, |extenders|, host);
        OneMoreFinished(extenders, finished, |extenders|, order[i], host);
      }
      finished := finished + {order[i]};
      i := i + 1;
    }
    assert order[..i] == order;
    forall host ensures On(board, host) == Total(extenders, |extenders|, host) {
      AllFinished(extenders, finished, |extenders|, host);
    }
  }

  /** A score with what the board has for its node added. */
  function Topped(board: Board, node: NodeName, score: NodeScore): NodeScore {
    if node in board then NodeScore(score.name, Plus(score.tally, board[node])) else score
  }

  lemma ToppedIsSummed(extenders: seq<Prioritizer>, board: Board, node: NodeName, score: NodeScore)
    requires On(board, node) == Total(extenders, |extenders|, node)
    ensures Topped(board, node, score) == Summed(extenders, score, node)
  {
    assert score.tally == Plus(score.tally, NOTHING);
  }

  /** The scores of the plugins with the totals of the extenders added, node by node. */
  method AddTotals(nodes: seq<NodeName>, plugins: seq<NodeScore>, board: Board) returns (scores: seq<NodeScore>)
    requires |plugins| == |nodes|
    ensures |scores| == |nodes|
    ensures forall i :: 0 <= i < |nodes| ==> scores[i] == Topped(board, nodes[i], plugins[i])
  {
    scores := plugins;
    for i := 0 to |nodes|
      invariant |scores| == |nodes|
      invariant forall k :: 0 <= k < i ==> scores[k] == Topped(board, nodes[k], plugins[k])
      invariant forall k :: i <= k < |nodes| ==> scores[k] == plugins[k]
    {
      if nodes[i] in board {
        scores := scores[i := NodeScore(scores[i].name, Plus(scores[i].tally, board[nodes[i]]))];
      }
    }
  }

  /** A plugin score plus everything the extenders gave to the node. */
  function Summed(extenders: seq<Prioritizer>, plugin: NodeScore, node: NodeName): NodeScore {
    NodeScore(plugin.name, Plus(plugin.tally, Total(extenders, |extenders|, node)))
  }

  /** The final scores. `plugins` is what the score plugins return for the nodes, in their order, and `None`
      when the pre-score or the score plugins fail. */
  method PrioritizeNodes(extenders: seq<Prioritizer>, hasScorePlugins: bool, nodes: seq<NodeName>,
                         plugins: Option<seq<NodeScore>>, order: seq<nat>)
    returns (r: Ranking)
    requires plugins.Some? ==> |plugins.value| == |nodes|
    requires FinishingOrder(order, extenders)
    ensures r.ScoringError? <==> (extenders != [] || hasScorePlugins) && plugins.None?
    ensures r.Ranking? ==> |r.scores| == |nodes|
    ensures extenders == [] && !hasScorePlugins ==>
              forall i :: 0 <= i < |nodes| ==> r.scores[i] == NodeScore(nodes[i], Tally(1, multiset{}))
    ensures (extenders != [] || hasScorePlugins) && r.Ranking? ==>
              forall i :: 0 <= i < |nodes| ==> r.scores[i] == Summed(extenders, plugins.value[i], nodes[i])
  {
    if extenders == [] && !hasScorePlugins {
      return Ranking(seq(|nodes|, i requires 0 <= i < |nodes| => NodeScore(nodes[i], Tally(1, multiset{}))));
    }
    if plugins.None? {
      return ScoringError;
    }
    var scores := plugins.value;
    if extenders != [] {
      var board := RunExtenders(extenders, order);
      scores := AddTotals(nodes, scores, board);
      forall i | 0 <= i < |nodes| ensures scores[i] == Summed(extenders, plugins.value[i], nodes[i]) {
        ToppedIsSummed(extenders, board, nodes[i], plugins.value[i]);
      }
    }
    r := Ranking(scores);
  }
}
