/** When a preemption handle is accepted. Nothing here assumes anything of the callers. */
module Handles {
  import opened Pods
  import opened Undo
  import opened Operations
  import opened Machine

  /** The preemption version a handle must carry to be accepted outside transactions. */
  function Level(s: Core): nat {
    if s.tx.Open? then s.tx.version else s.version
  }

  /** A call that makes a lasting change outside a transaction, or commits one. */
  ghost predicate Disturbs(w: World, call: Call) {
    match call
    case DoSchedule(_, _, _, _, _) => w.core.tx.NoTx? && |Exec(w, call).core.log| != |w.core.log|
    case DoReset => w.core.tx.NoTx? && |w.core.log| > 0
    case DoEnd(outcome) => w.core.tx.Open? && outcome.Commit?
    case _ => false
  }

  ghost predicate Quiet(w: World, calls: seq<Call>) {
    calls == [] || (
      && Quiet(w, calls[..|calls| - 1])
      && !Disturbs(Run(w, calls[..|calls| - 1]), calls[|calls| - 1]))
  }

  /** The order every reachable state keeps between the two counters and the handles. */
  ghost predicate Ordered(w: World) {
    && (w.core.tx.Open? ==>
          w.core.tx.len <= |w.core.log| && w.core.tx.version < w.core.version && w.found <= |w.handles|)
    && (forall i :: i in w.lost ==> i < |w.handles| && (w.core.tx.Open? ==> i < w.found))
    && (forall i :: 0 <= i < |w.handles| && i !in w.lost ==>
          w.handles[i].version <= (if w.core.tx.Open? && i >= w.found then w.core.version else Level(w.core)))
    && (forall i :: 0 <= i < |w.handles| && w.core.tx.Open? && i >= w.found ==>
        w.core.tx.version < w.handles[i].version)
  }

  /** No call but the end of a transaction cuts the log below its start; no call changes what a handle
      was issued with. */
  lemma ExecShape(w: World, call: Call)
    requires Ordered(w)
    ensures var v := Exec(w, call);
      && |w.handles| <= |v.handles|
      && (forall i :: 0 <= i < |w.handles| ==> (
            && v.handles[i].version == w.handles[i].version && v.handles[i].pods == w.handles[i].pods
            && (w.handles[i].reverted ==> v.handles[i].reverted)))
      && (!call.DoEnd? && !call.DoReset? ==> |w.core.log| <= |v.core.log|)
      && (w.core.tx.Open? && !call.DoEnd? ==>
          v.core.tx == w.core.tx && |w.core.log| <= |v.core.log| && w.core.version <= v.core.version)
  {}

  lemma ExecOrdered(w: World, call: Call)
    requires Ordered(w)
    ensures Ordered(Exec(w, call))
  {
    ExecShape(w, call);
  }

  /** The level never falls, and it stays put exactly over calls that do not disturb. */
  lemma ExecLevel(w: World, call: Call)
    requires Ordered(w)
    ensures Level(w.core) <= Level(Exec(w, call).core)
    ensures Level(w.core) == Level(Exec(w, call).core) <==> !Disturbs(w, call)
  {}

  lemma {:induction false} RunLevel(w: World, calls: seq<Call>)
    requires Ordered(w)
    ensures Ordered(Run(w, calls))
    ensures Level(w.core) <= Level(Run(w, calls).core)
    ensures Level(w.core) == Level(Run(w, calls).core) <==> Quiet(w, calls)
    ensures |w.handles| <= |Run(w, calls).handles|
    ensures forall i :: 0 <= i < |w.handles| ==> Run(w, calls).handles[i].version == w.handles[i].version
  {
    if calls != [] {
      var front := calls[..|calls| - 1];
      RunLevel(w, front);
      ExecOrdered(Run(w, front), calls[|calls| - 1]);
      ExecLevel(Run(w, front), calls[|calls| - 1]);
      ExecShape(Run(w, front), calls[|calls| - 1]);
    }
  }

  /** A handle taken outside any transaction is accepted later exactly when it is unused, no transaction
      is open, and since it was taken no SchedulePods outside transactions kept a pod, no ResetMutations
      undid anything and no transaction committed. */
  lemma AcceptedExactly(w: World, pods: seq<Pod>, calls: seq<Call>)
    requires Ordered(w) && w.core.tx.NoTx? && Preempt(w.core, pods).1.Ok?
    ensures var v := Run(Exec(w, DoPreempt(pods)), calls);
      var i := |w.handles|;
      && i < |v.handles|
      && (Accepts(v.core, v.handles[i]) <==>
            !v.handles[i].reverted && v.core.tx.NoTx? && Quiet(Exec(w, DoPreempt(pods)), calls))
  {
    ExecOrdered(w, DoPreempt(pods));
    RunLevel(Exec(w, DoPreempt(pods)), calls);
  }

  /** A call of SchedulePods that keeps a pod. */
  ghost predicate Keeps(w: World, call: Call) {
    call.DoSchedule? && |Exec(w, call).core.log| != |w.core.log|
  }

  ghost predicate KeepsNothing(w: World, calls: seq<Call>) {
    calls == [] || (
      && KeepsNothing(w, calls[..|calls| - 1])
      && !Keeps(Run(w, calls[..|calls| - 1]), calls[|calls| - 1]))
  }

  lemma ExecInside(w: World, call: Call)
    requires Ordered(w) && w.core.tx.Open? && !call.DoEnd?
    ensures Exec(w, call).core.tx == w.core.tx && w.core.version <= Exec(w, call).core.version
    ensures Exec(w, call).core.version == w.core.version <==> !Keeps(w, call)
  {
    ExecShape(w, call);
  }

  lemma {:induction false} RunInside(w: World, calls: seq<Call>)
    requires Ordered(w) && w.core.tx.Open? && NoEnd(calls)
    ensures Run(w, calls).core.tx == w.core.tx && w.core.version <= Run(w, calls).core.version
    ensures Run(w, calls).core.version == w.core.version <==> KeepsNothing(w, calls)
  {
    if calls != [] {
      var front, last := calls[..|calls| - 1], calls[|calls| - 1];
      assert last in calls;
      RunInside(w, front);
      RunLevel(w, front);
      ExecInside(Run(w, front), last);
    }
  }

  /** A handle taken inside a transaction is accepted while that transaction is open exactly when it is
      unused and since it was taken no SchedulePods kept a pod. */
  lemma AcceptedInsideExactly(w: World, pods: seq<Pod>, calls: seq<Call>)
    requires Ordered(w) && w.core.tx.Open? && Preempt(w.core, pods).1.Ok? && NoEnd(calls)
    ensures var v := Run(Exec(w, DoPreempt(pods)), calls);
      var i := |w.handles|;
      && i < |v.handles|
      && (Accepts(v.core, v.handles[i]) <==> !v.handles[i].reverted && KeepsNothing(Exec(w, DoPreempt(pods)), calls))
  {
    ExecOrdered(w, DoPreempt(pods));
    ExecInside(w, DoPreempt(pods));
    RunLevel(Exec(w, DoPreempt(pods)), calls);
    RunInside(Exec(w, DoPreempt(pods)), calls);
  }

  /** Once a transaction commits, no handle issued until then, inside it or before it, is ever accepted
      again, unless it came from a transaction that was rolled back. */
  lemma CommittedHandlesNeverAccepted(w: World, i: nat, calls: seq<Call>)
    requires Ordered(w) && w.core.tx.Open? && i < |w.handles| && i !in w.lost
    ensures var v := Run(Exec(w, DoEnd(Commit)), calls); i < |v.handles| && !Accepts(v.core, v.handles[i])
  {
    ExecOrdered(w, DoEnd(Commit));
    RunLevel(Exec(w, DoEnd(Commit)), calls);
  }

  /** A handle from a rolled-back transaction stays refused outside transactions until the next lasting
      change; from then on the counter may climb to its version. */
  lemma LostHandleRefusedWhileQuiet(w: World, outcome: Outcome, i: nat, calls: seq<Call>)
    requires Ordered(w) && w.core.tx.Open? && w.found <= i < |w.handles| && !outcome.Commit?
    requires Quiet(Exec(w, DoEnd(outcome)), calls) && Run(Exec(w, DoEnd(outcome)), calls).core.tx.NoTx?
    ensures var v := Run(Exec(w, DoEnd(outcome)), calls); i < |v.handles| && !Accepts(v.core, v.handles[i])
  {
    ExecOrdered(w, DoEnd(outcome));
    RunLevel(Exec(w, DoEnd(outcome)), calls);
  }

  /** A handle is spent for good by the first call that accepts it, even one that fails. */
  lemma {:induction false} UsedOnce(w: World, i: nat, calls: seq<Call>)
    requires Ordered(w) && i < |w.handles| && Accepts(w.core, w.handles[i])
    ensures var v := Run(Exec(w, DoUnpreempt(i)), calls);
      i < |v.handles| && v.handles[i].reverted && !Accepts(v.core, v.handles[i])
  {
    ExecOrdered(w, DoUnpreempt(i));
    RunReverted(Exec(w, DoUnpreempt(i)), i, calls);
  }

  lemma {:induction false} RunReverted(w: World, i: nat, calls: seq<Call>)
    requires Ordered(w) && i < |w.handles| && w.handles[i].reverted
    ensures i < |Run(w, calls).handles| && Run(w, calls).handles[i].reverted
  {
    if calls != [] {
      var front := calls[..|calls| - 1];
      RunReverted(w, i, front);
      RunLevel(w, front);
      ExecShape(Run(w, front), calls[|calls| - 1]);
    }
  }

  /** `n` transactions that do nothing and commit. */
  function EmptyCommits(n: nat): seq<Call> {
    if n == 0 then [] else EmptyCommits(n - 1) + [DoBegin] + [DoEnd(Commit)]
  }

  ghost predicate Raised(w: World, v: World, steps: nat) {
    v.handles == w.handles && v.core.version == w.core.version + steps && v.core.tx.NoTx?
  }

  lemma RunSnoc(w: World, calls: seq<Call>, c: Call)
    ensures Run(w, calls + [c]) == Exec(Run(w, calls), c)
  {
    assert (calls + [c])[..|calls|] == calls;
  }

  lemma BeginRaises(w: World, v: World, steps: nat)
    requires Raised(w, v, steps)
    ensures var x := Exec(v, DoBegin);
      x.handles == w.handles && x.core.version == w.core.version + steps + 1 && CanEnd(x.core)
  {}

  lemma CommitRaises(w: World, x: World, steps: nat)
    requires x.handles == w.handles && x.core.version == w.core.version + steps + 1 && CanEnd(x.core)
    ensures Raised(w, Exec(x, DoEnd(Commit)), steps + 2)
  {}

  lemma EmptyCommitRaises(w: World, calls: seq<Call>, steps: nat)
    requires Raised(w, Run(w, calls), steps)
    ensures Raised(w, Run(w, calls + [DoBegin] + [DoEnd(Commit)]), steps + 2)
  {
    RunSnoc(w, calls, DoBegin);
    RunSnoc(w, calls + [DoBegin], DoEnd(Commit));
    BeginRaises(w, Run(w, calls), steps);
    CommitRaises(w, Run(w, calls + [DoBegin]), steps);
  }

  lemma {:induction false} EmptyCommitsRaise(w: World, n: nat)
    requires w.core.tx.NoTx?
    ensures Raised(w, Run(w, EmptyCommits(n)), 2 * n)
  {
    if n > 0 {
      EmptyCommitsRaise(w, n - 1);
      EmptyCommitRaises(w, EmptyCommits(n - 1), 2 * (n - 1));
    }
  }

  /** The library promises that a handle is refused once the snapshot has moved past the state it was
      taken from. For a handle taken in a transaction that is rolled back this holds exactly when the
      handle was used before the roll-back: otherwise the version put back by the roll-back climbs to
      the handle's again, for which empty transactions are enough. */
  lemma LostHandleRefusedForever(w: World, outcome: Outcome, i: nat)
    requires Ordered(w) && w.core.tx.Open? && w.found <= i < |w.handles| && !outcome.Commit?
    ensures (forall calls :: !AcceptedAfter(Exec(w, DoEnd(outcome)), calls, i)) <==> w.handles[i].reverted
  {
    var v := Exec(w, DoEnd(outcome));
    ExecOrdered(w, DoEnd(outcome));
    if w.handles[i].reverted {
      forall calls ensures !AcceptedAfter(v, calls, i) { RunReverted(v, i, calls); }
    } else {
      var k := v.handles[i].version - v.core.version;
      EmptyCommitsRaise(v, k / 2);
      if k % 2 == 0 {
        assert AcceptedAfter(v, EmptyCommits(k / 2), i);
      } else {
        RunSnoc(v, EmptyCommits(k / 2), DoBegin);
        assert AcceptedAfter(v, EmptyCommits(k / 2) + [DoBegin], i);
      }
    }
  }

  ghost predicate AcceptedAfter(w: World, calls: seq<Call>, i: nat) {
    i < |Run(w, calls).handles| && Accepts(Run(w, calls).core, Run(w, calls).handles[i])
  }

  // ----- What a handle that may still be accepted holds

  /** Handle `i` is unused and would be accepted at preemption version `version`. */
  ghost predicate Counts(w: World, i: nat, version: nat) {
    i < |w.handles| && i !in w.lost && !w.handles[i].reverted && w.handles[i].version == version
  }

  ghost predicate AllPending(log: seq<UndoOp>, pods: seq<Pod>) {
    forall p :: p in pods ==> Pending(log, p)
  }

  /** The removals of all pods of a handle that is accepted now are in the log, and those of a handle that
      a roll-back would make acceptable again are in the part of the log the roll-back leaves. */
  ghost predicate HandlesWait(w: World) {
    && (forall i: nat :: Counts(w, i, w.core.version) ==> AllPending(w.core.log, w.handles[i].pods))
    && (w.core.tx.Open? ==>
          && w.core.tx.len <= |w.core.log|
          && forall i: nat :: i < w.found && Counts(w, i, w.core.tx.version) ==>
               AllPending(w.core.log[..w.core.tx.len], w.handles[i].pods))
  }

  lemma PendingKeepNames(log: seq<UndoOp>, a: map<Pod, NodeName>, b: map<Pod, NodeName>, pods: seq<Pod>)
    requires AllPending(log, pods) && SameNames(log, a, b)
    ensures forall p :: p in pods ==> NameOf(a, p) == NameOf(b, p)
  {
    forall p | p in pods ensures NameOf(a, p) == NameOf(b, p) {
      assert ReAdd(p) in log;
    }
  }

  lemma PendingLonger(log: seq<UndoOp>, longer: seq<UndoOp>, pods: seq<Pod>)
    requires AllPending(log, pods) && log <= longer
    ensures AllPending(longer, pods)
  {
    forall p | p in pods ensures Pending(longer, p) {
      var k :| 0 <= k < |log| && log[k] == ReAdd(p);
      assert longer[k] == ReAdd(p);
    }
  }

  /** A call that only adds to the log and issues no handle. */
  lemma LongerLogWaits(w: World, v: World)
    requires HandlesWait(w) && w.core.log <= v.core.log && v.core.tx == w.core.tx && v.found == w.found
    requires |v.handles| == |w.handles| && v.lost == w.lost
    requires forall i :: 0 <= i < |w.handles| ==>
               v.handles[i] == w.handles[i] || v.handles[i] == w.handles[i].(reverted := true)
    requires v.core.version == w.core.version || forall i: nat :: !Counts(v, i, v.core.version)
    ensures HandlesWait(v)
  {
    forall i: nat | Counts(v, i, v.core.version) ensures AllPending(v.core.log, v.handles[i].pods) {
      assert Counts(w, i, w.core.version);
      PendingLonger(w.core.log, v.core.log, w.handles[i].pods);
    }
    if w.core.tx.Open? {
      assert v.core.log[..w.core.tx.len] == w.core.log[..w.core.tx.len];
      forall i: nat | i < v.found && Counts(v, i, v.core.tx.version)
        ensures AllPending(v.core.log[..v.core.tx.len], v.handles[i].pods)
      {
        assert Counts(w, i, w.core.tx.version);
      }
    }
  }

  lemma PreemptWaits(w: World, pods: seq<Pod>)
    requires Ordered(w) && HandlesWait(w) && Preempt(w.core, pods).1.Ok?
    ensures HandlesWait(Exec(w, DoPreempt(pods)))
  {
    var v := Exec(w, DoPreempt(pods));
    RemoveAllLogs(w.core, pods);
    assert v.core.log == w.core.log + ReAdds(pods);
    ReAddsPending(w.core.log, pods);
    forall i: nat | Counts(v, i, v.core.version) ensures AllPending(v.core.log, v.handles[i].pods) {
      if i < |w.handles| {
        assert Counts(w, i, w.core.version);
        PendingLonger(w.core.log, v.core.log, w.handles[i].pods);
      }
    }
    if w.core.tx.Open? {
      assert v.core.log[..w.core.tx.len] == w.core.log[..w.core.tx.len];
      forall i: nat | i < v.found && Counts(v, i, v.core.tx.version)
        ensures AllPending(v.core.log[..v.core.tx.len], v.handles[i].pods)
      {
        assert Counts(w, i, w.core.tx.version);
      }
    }
  }

  lemma ReAddsPending(log: seq<UndoOp>, pods: seq<Pod>)
    ensures AllPending(log + ReAdds(pods), pods)
  {
    forall p | p in pods ensures Pending(log + ReAdds(pods), p) {
      var k :| 0 <= k < |pods| && pods[k] == p;
      assert (log + ReAdds(pods))[|log| + k] == ReAdd(p);
    }
  }

  lemma FailedPreemptKeepsLog(s: Core, pods: seq<Pod>)
    requires Preempt(s, pods).1.Err?
    ensures Preempt(s, pods).0.log == s.log && Preempt(s, pods).0.version == s.version && Preempt(s, pods).0.tx == s.tx
  {}

  /** Every call of every run keeps this, whatever the callers do. */
  lemma ExecWaits(w: World, call: Call)
    requires Ordered(w) && HandlesWait(w)
    ensures HandlesWait(Exec(w, call))
  {
    ExecOrdered(w, call);
    var v := Exec(w, call);
    match call
    case DoPreempt(pods) =>
      if Preempt(w.core, pods).1.Ok? {
        PreemptWaits(w, pods);
      } else {
        FailedPreemptKeepsLog(w.core, pods);
        LongerLogWaits(w, v);
      }
    case DoUnpreempt(i) =>
      if i < |w.handles| { LongerLogWaits(w, v); }
    case DoSchedule(pods, placement, assumed, sched, opts) =>
      ScheduleExtendsLog(w, call);
      LongerLogWaits(w, v);
    case DoReset =>
    case DoBegin =>
    case DoEnd(_) =>
  }

  lemma ScheduleExtendsLog(w: World, call: Call)
    requires Ordered(w) && call.DoSchedule?
    ensures var v := Exec(w, call);
      && w.core.log <= v.core.log && v == w.(core := v.core) && v.core.tx == w.core.tx
      && (v.core.version == w.core.version || forall i: nat :: !Counts(v, i, v.core.version))
  {}

  lemma {:induction false} RunWaits(w: World, calls: seq<Call>)
    requires Ordered(w) && HandlesWait(w)
    ensures Ordered(Run(w, calls)) && HandlesWait(Run(w, calls))
  {
    if calls != [] {
      var front := calls[..|calls| - 1];
      RunWaits(w, front);
      ExecOrdered(Run(w, front), calls[|calls| - 1]);
      ExecWaits(Run(w, front), calls[|calls| - 1]);
    }
  }

  /** So the pods of a handle that is accepted now can be put back on the nodes their objects name. */
  lemma AcceptedAddable(w: World, i: nat, base: Cluster, content: string -> nat)
    requires Sound(w, base, content) && HandlesWait(w) && i < |w.handles| && i !in w.lost
        && Accepts(w.core, w.handles[i])
    ensures forall p :: p in w.handles[i].pods ==> Addable(base, p.Val(), NameOf(w.core.names, p))
  {
    assert Counts(w, i, w.core.version);
    forall p | p in w.handles[i].pods ensures Addable(base, p.Val(), NameOf(w.core.names, p)) {
      assert Pending(w.core.log, p);
    }
  }
}
