/** Revert closures drop their errors, so an undo that fails goes unnoticed. In disciplined runs none ever does. */
module NoUndoFails {
  import opened Pods
  import opened Undo
  import opened Operations
  import opened Machine

  /** The closure finds what it needs: the pod it removes, or the node it adds to. */
  ghost predicate Succeeds(c: Cluster, op: UndoOp, names: map<Pod, NodeName>) {
    match op
    case ReAdd(p) => Addable(c, p.Val(), NameOf(names, p))
    case Drop(v, n) => Removable(c, v, n)
    case Forget(v, n) => Removable(c, v, n)
  }

  /** Undone from the top down to the first `i` entries, every closure of the log succeeds when it runs. */
  ghost predicate Undoable(c: Cluster, log: seq<UndoOp>, names: map<Pod, NodeName>, i: nat)
    requires i <= |log|
    decreases |log|
  {
    |log| == i || (
      && Succeeds(c, log[|log| - 1], names)
      && Undoable(ApplyUndo(c, log[|log| - 1], names), log[..|log| - 1], names, i))
  }

  lemma UndoableByOne(c: Cluster, log: seq<UndoOp>, names: map<Pod, NodeName>, i: nat, after: Cluster, op: UndoOp)
    requires i <= |log| && Undoable(c, log, names, i)
    requires Succeeds(after, op, names) && ApplyUndo(after, op, names) == c
    ensures Undoable(after, log + [op], names, i)
  {
    assert (log + [op])[..|log|] == log;
  }

  lemma {:induction false} UndoableStages(c: Cluster, log: seq<UndoOp>, names: map<Pod, NodeName>, i: nat, j: nat)
    requires i <= j <= |log|
    ensures Undoable(c, log, names, i) <==>
            Undoable(c, log, names, j) && Undoable(UndoTo(c, log, names, j), log[..j], names, i)
    decreases |log|
  {
    if |log| == j {
      assert log[..j] == log;
    } else {
      var m := |log| - 1;
      assert log[..m][..j] == log[..j];
      UndoableStages(ApplyUndo(c, log[m], names), log[..m], names, i, j);
    }
  }

  lemma {:induction false} UndoableReadsPending(c: Cluster, log: seq<UndoOp>, a: map<Pod, NodeName>, b: map<Pod,
                                                NodeName>, i: nat)
    requires i <= |log| && SameNames(log, a, b) && Undoable(c, log, a, i)
    ensures Undoable(c, log, b, i)
    decreases |log|
  {
    if i < |log| {
      var m := |log| - 1;
      assert log[m] in log;
      UndoableReadsPending(ApplyUndo(c, log[m], a), log[..m], a, b, i);
    }
  }

  /** Everything a call added to the log succeeds, whether the call undoes it itself or leaves it. */
  ghost predicate NewUndoable(s: Core, cluster: Cluster, log: seq<UndoOp>, names: map<Pod, NodeName>) {
    |s.log| <= |log| && Undoable(cluster, log, names, |s.log|)
  }

  // ----- The three loops

  lemma {:induction false} RemovedUndoable(s: Core, pods: seq<Pod>, content: string -> nat)
    requires Uniform(s.cluster, content) && Faithful(pods, content)
    ensures var w := RemoveAll(s.cluster, s.log, s.names, pods); NewUndoable(s, w.cluster, w.log, s.names)
  {
    if pods != [] {
      var front, p := pods[..|pods| - 1], pods[|pods| - 1];
      RemovedUndoable(s, front, content);
      RemoveAllExtends(s, front, content);
      var prev := RemoveAll(s.cluster, s.log, s.names, front);
      if prev.ok && Removable(prev.cluster, p.Val(), NameOf(s.names, p)) {
        assert p in pods;
        RemovedOneUndoable(s, prev, p, content);
      }
    }
  }

  lemma AddedUndoable(s: Core, prev: Sweep, v: PodVal, n: NodeName, content: string -> nat)
    requires NewUndoable(s, prev.cluster, prev.log, s.names) && Uniform(prev.cluster, content)
        && v.request == content(v.uid)
    ensures var w := PutBackTurn(prev, v, n); NewUndoable(s, w.cluster, w.log, s.names)
  {
    if Addable(prev.cluster, v, n) {
      RemoveUndoesAdd(prev.cluster, v, n, content);
      UndoableByOne(prev.cluster, prev.log, s.names, |s.log|, Add(prev.cluster, v, n), Drop(v, n));
    }
  }

  lemma RemovedOneUndoable(s: Core, prev: Sweep, p: Pod, content: string -> nat)
    requires NewUndoable(s, prev.cluster, prev.log, s.names)
    requires Uniform(prev.cluster, content) && p.request == content(p.uid)
    requires Removable(prev.cluster, p.Val(), NameOf(s.names, p))
    ensures NewUndoable(s, Pods.Remove(prev.cluster, p.Val(), NameOf(s.names, p)), prev.log + [ReAdd(p)], s.names)
  {
    var n := NameOf(s.names, p);
    AddUndoesRemove(prev.cluster, p.Val(), n, content);
    UndoableByOne(prev.cluster, prev.log, s.names, |s.log|, Pods.Remove(prev.cluster, p.Val(), n), ReAdd(p));
  }

  lemma {:induction false} PutBackUndoable(s: Core, pods: seq<Pod>, k: nat, content: string -> nat)
    requires k <= |pods| && Uniform(s.cluster, content) && Faithful(pods, content)
    ensures var w := PutBack(s.cluster, s.log, s.names, pods, k); NewUndoable(s, w.cluster, w.log, s.names)
    decreases |pods| - k
  {
    if k < |pods| {
      PutBackUndoable(s, pods, k + 1, content);
      PutBackExtends(s, pods, k + 1, content);
      AddedUndoable(s, PutBack(s.cluster, s.log, s.names, pods, k + 1), pods[k].Val(), NameOf(s.names, pods[k]),
          content);
    }
  }

  lemma {:induction false} BatchUndoable(s: Core, pods: seq<Pod>, sched: Scheduler, stop: bool, names: map<Pod,
                                         NodeName>, content: string -> nat)
    requires Uniform(s.cluster, content) && Faithful(pods, content)
    ensures var b := ScheduleAll(s, pods, sched, stop); NewUndoable(s, b.cluster, b.log, names)
  {
    if pods != [] {
      var k := |pods| - 1;
      BatchUndoable(s, pods[..k], sched, stop, names, content);
      BatchTakenBack(s, pods[..k], sched, stop, names, content);
      var b := ScheduleAll(s, pods[..k], sched, stop);
      var d := sched(b.cluster, pods[k].Val(), k);
      if b.phase.Going? && !d.NoFramework? {
        assert pods[k] in pods;
        BatchStepShape(b, pods[k], d, stop, content);
        var e := BatchStep(b, pods[k], d, stop);
        if e.log != b.log {
          UndoableByOne(b.cluster, b.log, names, |s.log|, e.cluster, Forget(pods[k].Val(), d.node));
        }
      }
    }
  }

  // ----- Runs

  ghost predicate AllUndoable(s: Core) {
    Undoable(s.cluster, s.log, s.names, 0)
  }

  lemma ExtendedUndoable(s: Core, t: Core)
    requires AllUndoable(s) && Extends(s, t) && NewUndoable(s, t.cluster, t.log, t.names)
    ensures AllUndoable(t)
  {
    UndoableReadsPending(s.cluster, s.log, s.names, t.names, 0);
    UndoableStages(t.cluster, t.log, t.names, 0, |s.log|);
  }

  lemma RestoredUndoable(s: Core, i: nat)
    requires AllUndoable(s) && i <= |s.log|
    ensures AllUndoable(RestoreTo(s, i))
  {
    UndoableStages(s.cluster, s.log, s.names, 0, i);
  }

  lemma PreemptUndoable(s: Core, pods: seq<Pod>, content: string -> nat)
    requires Uniform(s.cluster, content) && Faithful(pods, content)
    ensures var t := Preempt(s, pods).0; NewUndoable(s, t.cluster, t.log, t.names)
  {
    RemovedUndoable(s, pods, content);
    PreemptAllOrNothing(s, pods, content);
  }

  lemma UnpreemptUndoable(s: Core, h: Handle, content: string -> nat)
    requires Uniform(s.cluster, content) && Faithful(h.pods, content)
    ensures var t := Unpreempt(s, h).0; NewUndoable(s, t.cluster, t.log, t.names)
  {
    PutBackUndoable(s, h.pods, 0, content);
  }

  lemma ScheduleUndoable(s: Core, pods: seq<Pod>, placement: seq<NodeName>, assumed: bool, sched: Scheduler,
                         opts: Options, content: string -> nat)
    requires Schedulable(s, pods, content)
    ensures var t := Schedule(s, pods, placement, assumed, sched, opts).0; NewUndoable(s, t.cluster, t.log, t.names)
  {
    BatchUndoable(s, pods, sched, opts.stopOnFailure, ScheduleAll(s, pods, sched, opts.stopOnFailure).names, content);
  }

  lemma CallUndoable(w: World, call: Call, base: Cluster, content: string -> nat)
    requires Sound(w, base, content) && Disciplined(w, call, content) && !call.DoEnd? && !call.DoReset?
    ensures var t := Exec(w, call).core; NewUndoable(w.core, t.cluster, t.log, t.names)
  {
    match call
    case DoPreempt(pods) => PreemptUndoable(w.core, pods, content);
    case DoUnpreempt(i) =>
      if i < |w.handles| {
        assert w.handles[i] in w.handles;
        UnpreemptUndoable(w.core, w.handles[i], content);
      }
    case DoSchedule(pods, placement, assumed, sched, opts) =>
      ScheduleUndoable(w.core, pods, placement, assumed, sched, opts, content);
    case DoBegin =>
  }

  lemma ExecUndoable(w: World, call: Call, base: Cluster, content: string -> nat)
    requires Sound(w, base, content) && Disciplined(w, call, content) && AllUndoable(w.core)
    ensures AllUndoable(Exec(w, call).core)
  {
    match call
    case DoReset =>
      if w.core.tx.NoTx? { RestoredUndoable(w.core, 0); }
    case DoEnd(outcome) =>
      if CanEnd(w.core) && !outcome.Commit? { RestoredUndoable(w.core, w.core.tx.len); }
    case _ =>
      CallUndoable(w, call, base, content);
      ExecExtends(w, call, base, content);
      ExtendedUndoable(w.core, Exec(w, call).core);
  }

  /** In every state of every disciplined run, undoing the log to any version runs no closure that fails. */
  lemma {:induction false} NoUndoEverFails(w: World, calls: seq<Call>, base: Cluster, content: string -> nat, i: nat)
    requires Fresh(w, base, content) && DisciplinedRun(w, calls, content)
    requires i <= |Run(w, calls).core.log|
    ensures var s := Run(w, calls).core; Undoable(s.cluster, s.log, s.names, i)
  {
    RunUndoable(w, calls, base, content);
    var s := Run(w, calls).core;
    UndoableStages(s.cluster, s.log, s.names, 0, i);
  }

  lemma {:induction false} RunUndoable(w: World, calls: seq<Call>, base: Cluster, content: string -> nat)
    requires Fresh(w, base, content) && DisciplinedRun(w, calls, content)
    ensures AllUndoable(Run(w, calls).core)
  {
    if calls != [] {
      var front := calls[..|calls| - 1];
      RunUndoable(w, front, base, content);
      RunSound(w, front, base, content);
      ExecUndoable(Run(w, front), calls[|calls| - 1], base, content);
    }
  }
}
