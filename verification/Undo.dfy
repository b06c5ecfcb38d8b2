/** The undo log on values: a stack of inverse operations, and what running it backwards yields. */
module Undo {
  import opened Pods

  /** The revert closures as data, named by what running them does. `ReAdd` keeps the caller's
      object, because its closure reads the node name only when it runs; the other two hold clones. */
  datatype UndoOp =
    | ReAdd(pod: Pod)
    | Drop(val: PodVal, node: NodeName)
    | Forget(val: PodVal, node: NodeName)

  /** The locals of the one call of Transaction that can be open. */
  datatype Frame = NoTx | Open(len: nat, version: nat)

  /** A cluster snapshot. `names` gives the node name of every caller's object in play. */
  datatype Core = Core(
    cluster: Cluster,
    log: seq<UndoOp>,
    names: map<Pod, NodeName>,
    version: nat,
    tx: Frame)

  function NameOf(names: map<Pod, NodeName>, p: Pod): NodeName {
    if p in names then names[p] else ""
  }

  /** What one revert closure does. A closure that fails only logs, leaving the cluster alone. */
  function ApplyUndo(c: Cluster, op: UndoOp, names: map<Pod, NodeName>): Cluster {
    match op
    case ReAdd(p) =>
      var n := NameOf(names, p);
      if Addable(c, p.Val(), n) then Add(c, p.Val(), n) else c
    case Drop(v, n) => if Removable(c, v, n) then Pods.Remove(c, v, n) else c
    case Forget(v, n) => if Removable(c, v, n) then Pods.Remove(c, v, n) else c
  }

  /** Pops and runs the closures from the top until only the first `i` are left. */
  function UndoTo(c: Cluster, log: seq<UndoOp>, names: map<Pod, NodeName>, i: nat): Cluster
    requires i <= |log|
    decreases |log|
  {
    if |log| == i then c
    else UndoTo(ApplyUndo(c, log[|log| - 1], names), log[..|log| - 1], names, i)
  }

  function RestoreTo(s: Core, i: nat): Core
    requires i <= |s.log|
  {
    s.(cluster := UndoTo(s.cluster, s.log, s.names, i), log := s.log[..i])
  }

  /** The objects whose removal is still in the log. */
  ghost predicate Pending(log: seq<UndoOp>, p: Pod) {
    ReAdd(p) in log
  }

  /** The two name tables agree on everything the log would put back. */
  ghost predicate SameNames(log: seq<UndoOp>, a: map<Pod, NodeName>, b: map<Pod, NodeName>) {
    forall op :: op in log && op.ReAdd? ==> NameOf(a, op.pod) == NameOf(b, op.pod)
  }

  /** `t` is `s` plus changes the longer log knows how to take back. */
  ghost predicate Extends(s: Core, t: Core) {
    && |s.log| <= |t.log|
    && t.log[..|s.log|] == s.log
    && SameNames(s.log, s.names, t.names)
    && UndoTo(t.cluster, t.log, t.names, |s.log|) == s.cluster
  }

  lemma {:induction false} UndoStages(c: Cluster, log: seq<UndoOp>, names: map<Pod, NodeName>, i: nat, j: nat)
    requires i <= j <= |log|
    ensures UndoTo(c, log, names, i) == UndoTo(UndoTo(c, log, names, j), log[..j], names, i)
    decreases |log|
  {
    if |log| == j {
      assert log[..j] == log;
    } else {
      var m := |log| - 1;
      assert log[..m][..j] == log[..j];
      UndoStages(ApplyUndo(c, log[m], names), log[..m], names, i, j);
    }
  }

  lemma {:induction false} UndoReadsPending(c: Cluster, log: seq<UndoOp>, a: map<Pod, NodeName>, b: map<Pod, NodeName>,
                                            i: nat)
    requires i <= |log| && SameNames(log, a, b)
    ensures UndoTo(c, log, a, i) == UndoTo(c, log, b, i)
    decreases |log|
  {
    if i < |log| {
      var m := |log| - 1;
      assert log[m] in log;
      UndoReadsPending(ApplyUndo(c, log[m], a), log[..m], a, b, i);
    }
  }

  lemma ExtendsReflexive(s: Core)
    ensures Extends(s, s)
  {}

  lemma ExtendsTransitive(s: Core, t: Core, u: Core)
    requires Extends(s, t) && Extends(t, u)
    ensures Extends(s, u)
  {
    var i, j := |s.log|, |t.log|;
    assert u.log[..i] == u.log[..j][..i];
    UndoStages(u.cluster, u.log, u.names, i, j);
    UndoReadsPending(t.cluster, t.log, u.names, t.names, i);
    forall op | op in s.log && op.ReAdd? ensures NameOf(s.names, op.pod) == NameOf(u.names, op.pod) {
      var k :| 0 <= k < |s.log| && s.log[k] == op;
      assert t.log[k] == op;
    }
  }

  /** Every version recorded before an extension still restores to what it did then. */
  lemma ExtendsKeepsHistory(s: Core, t: Core, i: nat)
    requires Extends(s, t) && i <= |s.log|
    ensures UndoTo(t.cluster, t.log, t.names, i) == UndoTo(s.cluster, s.log, s.names, i)
    ensures t.log[..i] == s.log[..i]
  {
    UndoStages(t.cluster, t.log, t.names, i, |s.log|);
    UndoReadsPending(s.cluster, s.log, t.names, s.names, i);
    assert t.log[..i] == t.log[..|s.log|][..i];
  }

  lemma ExtendByOne(s: Core, c: Cluster, op: UndoOp)
    requires ApplyUndo(c, op, s.names) == s.cluster
    ensures Extends(s, s.(cluster := c, log := s.log + [op]))
  {
    var log := s.log + [op];
    assert log[..|log| - 1] == s.log && log[|log| - 1] == op;
    assert log[..|s.log|] == s.log;
  }
}
