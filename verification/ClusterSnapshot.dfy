/** The cluster snapshot itself: objects, fields and loops, each method tied to its function on values. */
module Snapshots {
  import opened Pods
  import opened Undo
  import opened Operations
  import opened Store
  import opened Mutating

  ghost function NamesIn(world: set<Pod>): map<Pod, NodeName>
    reads world
  {
    map p | p in world :: p.nodeName
  }

  /** `world` has every object the log may read. */
  ghost predicate Covers(world: set<Pod>, log: seq<UndoOp>) {
    forall op :: op in log && op.ReAdd? ==> op.pod in world
  }

  // ----- Helpers

  /** Adds a copy of the pod to the node and returns how to undo that. */
  method AddPodToNode(store: SchedulerSnapshot, pod: Pod, n: NodeName) returns (r: Result<UndoOp>)
    requires store.Valid()
    modifies store
    ensures store.Valid() && store.generations == old(store.generations)
    ensures r.Ok? <==> Addable(old(store.nodes), pod.Val(), n)
    ensures r.Ok? ==> r.value == Drop(pod.Val(), n) && store.nodes == Add(old(store.nodes), pod.Val(), n)
    ensures r.Err? ==> store.nodes == old(store.nodes)
  {
    var wrapper := new MutatingSnapshot(store);
    var ok := wrapper.AddPod(pod.Val(), n);
    r := if ok then Ok(Drop(pod.Val(), n)) else Err(NotPutBack);
    assert store.nodes == wrapper.View().cluster;
  }

  /** Removes the pod from the node its object names and returns how to undo that. */
  method RemovePodFromNode(store: SchedulerSnapshot, pod: Pod) returns (r: Result<UndoOp>)
    requires store.Valid()
    modifies store
    ensures store.Valid() && store.generations == old(store.generations)
    ensures r.Ok? <==> Removable(old(store.nodes), pod.Val(), pod.nodeName)
    ensures r.Ok? ==> r.value == ReAdd(pod) && store.nodes == Pods.Remove(old(store.nodes), pod.Val(), pod.nodeName)
    ensures r.Err? ==> store.nodes == old(store.nodes)
  {
    var wrapper := new MutatingSnapshot(store);
    var ok := wrapper.RemovePod(pod.Val(), pod.nodeName);
    r := if ok then Ok(ReAdd(pod)) else Err(NotPreempted);
    assert store.nodes == wrapper.View().cluster;
  }

  /** Runs one revert closure. Whatever fails in it is dropped. */
  method RunUndo(store: SchedulerSnapshot, op: UndoOp, ghost world: set<Pod>)
    requires store.Valid() && (op.ReAdd? ==> op.pod in world)
    modifies store
    ensures store.Valid() && store.generations == old(store.generations)
    ensures store.nodes == ApplyUndo(old(store.nodes), op, NamesIn(world))
  {
    match op
    case ReAdd(p) =>
      var _ := AddPodToNode(store, p, p.nodeName);
    case Drop(v, n) =>
      var wrapper := new MutatingSnapshot(store);
      var _ := wrapper.RemovePod(v, n);
      assert store.nodes == wrapper.View().cluster;
    case Forget(v, n) =>
      var _ := store.ForgetPod(v, n);
  }

  /** Assumes the pod on the chosen host and reserves it; a failed reservation forgets it again. */
  method AssumeAndReserve(store: SchedulerSnapshot, v: PodVal, n: NodeName, reserve: Status) returns (status: Status)
    requires store.Valid()
    modifies store`nodes
    ensures store.Valid()
    ensures (store.nodes, status) == ScheduleOne(old(store.nodes), v, Host(n, reserve))
  {
    var assumed := store.AssumePod(v, n);
    if !assumed { return Rejected(Internal); }
    if !reserve.Success? {
      var _ := store.ForgetPod(v, n);
    }
    status := reserve;
  }

  // ----- The undo log

  class UndoLog {
    var undoOperations: seq<UndoOp>
    var stateVersion: nat

    ghost predicate Valid()
      reads this
    {
      stateVersion == |undoOperations|
    }

    constructor ()
      ensures Valid() && undoOperations == []
    {
      undoOperations, stateVersion := [], 0;
    }

    method RegisterOperation(op: UndoOp)
      requires Valid()
      modifies this
      ensures Valid() && undoOperations == old(undoOperations) + [op]
    {
      undoOperations := undoOperations + [op];
      stateVersion := stateVersion + 1;
    }

    /** Pops the last operation, then runs it. */
    method Undo(store: SchedulerSnapshot, ghost world: set<Pod>)
      requires Valid() && store.Valid() && undoOperations != [] && Covers(world, undoOperations)
      modifies this, store
      ensures Valid() && store.Valid() && store.generations == old(store.generations)
      ensures undoOperations == old(undoOperations)[..|old(undoOperations)| - 1]
      ensures store.nodes == ApplyUndo(old(store.nodes), old(undoOperations)[|old(undoOperations)| - 1], NamesIn(world))
    {
      var last := |undoOperations| - 1;
      var op := undoOperations[last];
      undoOperations := undoOperations[..last];
      RunUndo(store, op, world);
      stateVersion := stateVersion - 1;
    }

    /** Callers pass a version the log has not fallen below; the loop then ends, and never pops an empty log. */
    method RestoreState(store: SchedulerSnapshot, version: nat, ghost world: set<Pod>)
      requires Valid() && store.Valid() && version <= stateVersion && Covers(world, undoOperations)
      modifies this, store
      ensures Valid() && store.Valid() && store.generations == old(store.generations)
      ensures undoOperations == old(undoOperations)[..version]
      ensures store.nodes == UndoTo(old(store.nodes), old(undoOperations), NamesIn(world), version)
    {
      while stateVersion != version
        invariant Valid() && store.Valid() && store.generations == old(store.generations)
        invariant version <= stateVersion <= |old(undoOperations)|
        invariant undoOperations == old(undoOperations)[..stateVersion] && Covers(world, undoOperations)
        invariant UndoTo(store.nodes, undoOperations, NamesIn(world), version)
               == UndoTo(old(store.nodes), old(undoOperations), NamesIn(world), version)
        decreases stateVersion
      {
        Undo(store, world);
      }
    }
  }

  // ----- Handles

  class Unpreemption {
    const pods: seq<Pod>
    const validPreemptionVersion: nat
    var reverted: bool

    constructor (pods: seq<Pod>, validPreemptionVersion: nat)
      ensures this.pods == pods && this.validPreemptionVersion == validPreemptionVersion && !reverted
    {
      this.pods, this.validPreemptionVersion, reverted := pods, validPreemptionVersion, false;
    }

    ghost function View(): Handle
      reads this
    {
      Handle(pods, validPreemptionVersion, reverted)
    }
  }

  class ClusterSnapshot {
    const store: SchedulerSnapshot
    const undoLog: UndoLog
    var transactionInProgress: bool
    var stateVersionForPreemption: nat

    // Locals of the call of Transaction that is in progress.
    var initialStateVersion: nat
    var initialStateVersionForPreemption: nat

    ghost predicate Valid(world: set<Pod>)
      reads this, store, undoLog
    {
      && store.Valid() && undoLog.Valid() && Covers(world, undoLog.undoOperations)
      && (transactionInProgress ==> initialStateVersion <= undoLog.stateVersion)
    }

    ghost function View(world: set<Pod>): Core
      reads this, store, undoLog, world
    {
      Core(store.nodes, undoLog.undoOperations, NamesIn(world), stateVersionForPreemption,
           if transactionInProgress then Open(initialStateVersion, initialStateVersionForPreemption) else NoTx)
    }

    constructor (store: SchedulerSnapshot)
      requires store.Valid()
      ensures Valid({}) && this.store == store && fresh(undoLog)
      ensures View({}) == Core(store.nodes, [], map[], 0, NoTx)
    {
      this.store := store;
      undoLog := new UndoLog();
      transactionInProgress, stateVersionForPreemption := false, 0;
      initialStateVersion, initialStateVersionForPreemption := 0, 0;
    }

    method ResetMutations(ghost world: set<Pod>) returns (r: Result<()>)
      requires Valid(world)
      modifies this, store, undoLog
      ensures Valid(world) && store.generations == old(store.generations)
      ensures (View(world), r) == Reset(old(View(world)))
    {
      if transactionInProgress { return Err(InTransaction); }
      if undoLog.stateVersion > 0 {
        undoLog.RestoreState(store, 0, world);
        stateVersionForPreemption := stateVersionForPreemption + 1;
      }
      r := Ok(());
    }

    /** Transaction up to the call of its function. */
    method TransactionBegin(ghost world: set<Pod>) returns (r: Result<()>)
      requires Valid(world)
      modifies this
      ensures Valid(world)
      ensures (View(world), r) == Begin(old(View(world)))
    {
      if transactionInProgress { return Err(InTransaction); }
      transactionInProgress := true;
      initialStateVersion := undoLog.stateVersion;
      initialStateVersionForPreemption := stateVersionForPreemption;
      stateVersionForPreemption := stateVersionForPreemption + 1;
      r := Ok(());
    }

    /** Transaction from the return of its function on. */
    method TransactionEnd(outcome: Outcome, ghost world: set<Pod>)
      requires Valid(world) && transactionInProgress
      modifies this, store, undoLog
      ensures Valid(world) && store.generations == old(store.generations)
      ensures View(world) == End(old(View(world)), outcome)
      ensures outcome.Commit? ==> store.nodes == old(store.nodes)
      ensures outcome.Commit? ==> undoLog.undoOperations == old(undoLog.undoOperations)
      ensures !outcome.Commit? ==>
          undoLog.undoOperations == old(undoLog.undoOperations)[..old(initialStateVersion)]
      ensures stateVersionForPreemption ==
          if outcome.Commit? then old(stateVersionForPreemption) + 1 else old(initialStateVersionForPreemption)
      ensures !transactionInProgress
    {
      if outcome.Failure? || outcome.Revert? {
        undoLog.RestoreState(store, initialStateVersion, world);
        stateVersionForPreemption := initialStateVersionForPreemption;
      } else {
        stateVersionForPreemption := stateVersionForPreemption + 1;
      }
      transactionInProgress := false;
    }

    /** One turn of the removal loop. */
    method PreemptOne(p: Pod, ghost world: set<Pod>) returns (ok: bool)
      requires Valid(world) && p in world
      modifies store, undoLog
      ensures Valid(world) && store.generations == old(store.generations)
      ensures ok <==> Removable(old(store.nodes), p.Val(), p.nodeName)
      ensures ok ==> store.nodes == Pods.Remove(old(store.nodes), p.Val(), p.nodeName)
      ensures ok ==> undoLog.undoOperations == old(undoLog.undoOperations) + [ReAdd(p)]
      ensures !ok ==> store.nodes == old(store.nodes) && undoLog.undoOperations == old(undoLog.undoOperations)
    {
      var revert := RemovePodFromNode(store, p);
      ok := revert.Ok?;
      if ok {
        undoLog.RegisterOperation(revert.value);
      }
    }

    /** The removal loop: it stops at the first pod that is not there. */
    method RemoveListed(pods: seq<Pod>, ghost world: set<Pod>) returns (ok: bool)
      requires Valid(world) && forall p :: p in pods ==> p in world
      modifies store, undoLog
      ensures Valid(world) && store.generations == old(store.generations)
      ensures Sweep(store.nodes, undoLog.undoOperations, ok)
           == RemoveAll(old(store.nodes), old(undoLog.undoOperations), NamesIn(world), pods)
    {
      ghost var s := View(world);
      for i := 0 to |pods|
        invariant Valid(world) && store.generations == old(store.generations)
        invariant RemoveAll(s.cluster, s.log, s.names, pods[..i]) == Sweep(store.nodes, undoLog.undoOperations, true)
      {
        RemoveAllSnoc(s, pods, i);
        assert NameOf(s.names, pods[i]) == pods[i].nodeName;
        ok := PreemptOne(pods[i], world);
        if !ok {
          RemoveAllStuck(s, pods, i);
          return;
        }
      }
      assert pods[..|pods|] == pods;
      ok := true;
    }

    method PreemptPods(pods: seq<Pod>, ghost world: set<Pod>) returns (r: Result<Unpreemption>)
      requires Valid(world) && forall p :: p in pods ==> p in world
      modifies store, undoLog
      ensures Valid(world) && store.generations == old(store.generations)
      ensures View(world) == Preempt(old(View(world)), pods).0
      ensures r.Ok? <==> Preempt(old(View(world)), pods).1.Ok?
      ensures r.Ok? ==> fresh(r.value) && Preempt(old(View(world)), pods).1 == Ok(r.value.View())
      ensures r.Err? ==> Preempt(old(View(world)), pods).1 == Err(r.error)
    {
      ghost var s := View(world);
      for i := 0 to |pods|
        invariant forall j :: 0 <= j < i ==> NameOf(s.names, pods[j]) != ""
      {
        assert NameOf(s.names, pods[i]) == pods[i].nodeName;
        if pods[i].nodeName == "" { return Err(NoNodeName); }
      }
      var initial := undoLog.stateVersion;
      var ok := RemoveListed(pods, world);
      if ok {
        var u := new Unpreemption(pods, stateVersionForPreemption);
        r := Ok(u);
      } else {
        undoLog.RestoreState(store, initial, world);
        r := Err(NotPreempted);
      }
    }

    /** One turn of the loop putting pods back. */
    method PutBackOne(p: Pod, ghost world: set<Pod>) returns (ok: bool)
      requires Valid(world) && p in world
      modifies store, undoLog
      ensures Valid(world) && store.generations == old(store.generations)
      ensures ok <==> Addable(old(store.nodes), p.Val(), p.nodeName)
      ensures ok ==> store.nodes == Add(old(store.nodes), p.Val(), p.nodeName)
      ensures ok ==> undoLog.undoOperations == old(undoLog.undoOperations) + [Drop(p.Val(), p.nodeName)]
      ensures !ok ==> store.nodes == old(store.nodes) && undoLog.undoOperations == old(undoLog.undoOperations)
    {
      var repreempt := AddPodToNode(store, p, p.nodeName);
      ok := repreempt.Ok?;
      if ok {
        undoLog.RegisterOperation(repreempt.value);
      }
    }

    /** The loop putting pods back, last first. A pod that cannot be put back does not stop it. */
    method PutBackListed(pods: seq<Pod>, ghost world: set<Pod>) returns (ok: bool)
      requires Valid(world) && forall p :: p in pods ==> p in world
      modifies store, undoLog
      ensures Valid(world) && store.generations == old(store.generations)
      ensures Sweep(store.nodes, undoLog.undoOperations, ok)
           == PutBack(old(store.nodes), old(undoLog.undoOperations), NamesIn(world), pods, 0)
    {
      ghost var nodes, log, names := store.nodes, undoLog.undoOperations, NamesIn(world);
      ok := true;
      for i := |pods| downto 0
        invariant Valid(world) && store.generations == old(store.generations)
        invariant PutBack(nodes, log, names, pods, i) == Sweep(store.nodes, undoLog.undoOperations, ok)
      {
        assert NameOf(names, pods[i]) == pods[i].nodeName;
        var done := PutBackOne(pods[i], world);
        ok := ok && done;
      }
    }

    method Unpreempt(u: Unpreemption?, ghost world: set<Pod>) returns (r: Result<seq<Pod>>)
      requires Valid(world) && (u != null ==> forall p :: p in u.pods ==> p in world)
      modifies store, undoLog, u
      ensures Valid(world) && store.generations == old(store.generations)
      ensures u == null ==> View(world) == old(View(world)) && r == Err(NilHandle)
      ensures u != null ==> (View(world), u.View(), r) == Operations.Unpreempt(old(View(world)), old(u.View()))
    {
      if u == null { return Err(NilHandle); }
      if stateVersionForPreemption != u.validPreemptionVersion { return Err(StaleHandle); }
      if u.reverted { return Err(UsedHandle); }
      var ok := PutBackListed(u.pods, world);
      u.reverted := true;
      r := if ok then Ok(u.pods) else Err(NotPutBack);
    }

    /** Reflects a placement on the caller's object and logs how to undo it. */
    method RecordPlacement(p: Pod, n: NodeName, ghost world: set<Pod>)
      requires undoLog.Valid() && p in world
      modifies undoLog, p`nodeName
      ensures undoLog.Valid() && undoLog.undoOperations == old(undoLog.undoOperations) + [Forget(p.Val(), n)]
      ensures NamesIn(world) == old(NamesIn(world))[p := n]
    {
      p.nodeName := n;
      undoLog.RegisterOperation(Forget(p.Val(), n));
    }

    /** One turn of the scheduling loop. */
    method ScheduleNext(p: Pod, d: Decision, stopOnFailure: bool, before: seq<SchedulingResult>, ghost world: set<Pod>)
      returns (results: seq<SchedulingResult>, phase: Phase)
      requires Valid(world) && p in world
      modifies store, undoLog, p`nodeName
      ensures Valid(world) && store.generations == old(store.generations)
      ensures Batch(store.nodes, undoLog.undoOperations, NamesIn(world), results, phase)
           == BatchStep(old(Batch(store.nodes, undoLog.undoOperations, NamesIn(world), before, Going)), p, d,
               stopOnFailure)
    {
      if d.NoFramework? { return before, Failed; }
      var status := Rejected(Internal);
      match d {
        case NoHost(refusal) => status := Rejected(refusal);
        case Host(n, reserve) => status := AssumeAndReserve(store, p.Val(), n, reserve);
      }
      if status.Success? {
        RecordPlacement(p, d.node, world);
        results, phase := before + [SchedulingResult(p, status, d.node)], Going;
      } else {
        results, phase := before + [SchedulingResult(p, status, "")], if stopOnFailure then Stopped else Going;
      }
    }

    /** The scheduling loop. */
    method ScheduleListed(pods: seq<Pod>, sched: Scheduler, stopOnFailure: bool, ghost world: set<Pod>)
      returns (results: seq<SchedulingResult>, phase: Phase)
      requires Valid(world) && forall p :: p in pods ==> p in world
      modifies store, undoLog, (set p | p in pods)`nodeName
      ensures Valid(world) && store.generations == old(store.generations)
      ensures Batch(store.nodes, undoLog.undoOperations, NamesIn(world), results, phase)
           == ScheduleAll(old(View(world)), pods, sched, stopOnFailure)
    {
      ghost var s := View(world);
      results, phase := [], Going;
      var i := 0;
      while i < |pods| && phase.Going?
        invariant i <= |pods|
        invariant Valid(world) && store.generations == old(store.generations)
        invariant ScheduleAll(s, pods[..i], sched, stopOnFailure)
               == Batch(store.nodes, undoLog.undoOperations, NamesIn(world), results, phase)
        decreases |pods| - i
      {
        ScheduleAllSnoc(s, pods, i, sched, stopOnFailure);
        results, phase := ScheduleNext(pods[i], sched(store.nodes, pods[i].Val(), i), stopOnFailure, results, world);
        i := i + 1;
      }
      ScheduleAllEnds(s, pods, i, sched, stopOnFailure);
    }

    /** `assumed` is whether the placement could be assumed, and `sched` what the scheduling cycles decide. */
    method SchedulePods(pods: seq<Pod>, placement: seq<NodeName>, assumed: bool, sched: Scheduler, opts: Options,
                        ghost world: set<Pod>)
      returns (r: Result<seq<SchedulingResult>>, results: seq<SchedulingResult>)
      requires Valid(world) && forall p :: p in pods ==> p in world
      modifies this`stateVersionForPreemption, store, undoLog, (set p | p in pods)`nodeName
      ensures Valid(world) && store.generations == old(store.generations)
      ensures (View(world), r) == Schedule(old(View(world)), pods, placement, assumed, sched, opts)
      ensures results == Collected(old(View(world)), pods, placement, assumed, sched, opts)
    {
      if placement == [] { return Ok([]), []; }
      if !assumed { return Err(PlacementFailed), []; }
      var initial := undoLog.stateVersion;
      var phase;
      results, phase := ScheduleListed(pods, sched, opts.stopOnFailure, world);
      if phase.Failed? || opts.dryRun {
        undoLog.RestoreState(store, initial, world);
      }
      if initial != undoLog.stateVersion {
        stateVersionForPreemption := stateVersionForPreemption + 1;
      }
      r := if phase.Failed? then Err(NoFrameworkForPod) else Ok(results);
    }

    /** Creates one pod per UID, all alike and on no node yet, and schedules them until one fails. The
        UIDs stand for the ones drawn at random, as many as pods are asked for at most. */
    method SchedulePodsByTemplate(request: nat, uids: seq<string>, placement: seq<NodeName>, assumed: bool,
                                  sched: Scheduler, dryRun: bool, ghost world: set<Pod>)
      returns (r: Result<seq<SchedulingResult>>, results: seq<SchedulingResult>, pods: seq<Pod>)
      requires Valid(world)
      modifies this`stateVersionForPreemption, store, undoLog
      ensures |pods| == |uids| && forall i :: 0 <= i < |pods| ==>
          fresh(pods[i]) && pods[i].Val() == PodVal(uids[i], request)
      ensures Valid(world + Members(pods)) && store.generations == old(store.generations)
      ensures uids == [] ==> r == Ok([]) && results == [] && View(world) == old(View(world))
      ensures uids != [] ==>
        var s := old(View(world)).(names := old(NamesIn(world)) + Unplaced(pods));
        && (View(world + Members(pods)), r) == Schedule(s, pods, placement, assumed, sched, Options(dryRun, true))
        && results == Collected(s, pods, placement, assumed, sched, Options(dryRun, true))
    {
      pods := [];
      if uids == [] {
        assert world + Members([]) == world;
        return Ok([]), [], [];
      }
      for i := 0 to |uids|
        modifies {}
        invariant |pods| == i
        invariant forall j :: 0 <= j < i ==>
            fresh(pods[j]) && pods[j].Val() == PodVal(uids[j], request) && pods[j].nodeName == ""
      {
        var pod := new Pod(uids[i], request, "");
        pods := pods + [pod];
      }
      ghost var all := world + Members(pods);
      assert Covers(all, undoLog.undoOperations);
      assert NamesIn(all) == old(NamesIn(world)) + Unplaced(pods);
      r, results := SchedulePods(pods, placement, assumed, sched, Options(dryRun, true), all);
    }
  }

  ghost function Members(pods: seq<Pod>): set<Pod> {
    set p | p in pods
  }

  ghost function Unplaced(pods: seq<Pod>): map<Pod, NodeName> {
    map p | p in pods :: ""
  }

  // ----- Where the loops stop

  lemma RemoveAllSnoc(s: Core, pods: seq<Pod>, i: nat)
    requires i < |pods|
    ensures var w := RemoveAll(s.cluster, s.log, s.names, pods[..i]);
      var n := NameOf(s.names, pods[i]);
      w.ok && Removable(w.cluster, pods[i].Val(), n) ==>
        RemoveAll(s.cluster, s.log, s.names, pods[..i + 1]) == Without(w, pods[i], n)
  {
    assert pods[..i + 1][..i] == pods[..i];
  }

  lemma ScheduleAllSnoc(s: Core, pods: seq<Pod>, i: nat, sched: Scheduler, stop: bool)
    requires i < |pods|
    ensures var b := ScheduleAll(s, pods[..i], sched, stop);
      b.phase.Going? ==>
        ScheduleAll(s, pods[..i + 1], sched, stop) == BatchStep(b, pods[i], sched(b.cluster, pods[i].Val(), i), stop)
  {
    assert pods[..i + 1][..i] == pods[..i];
  }

  /** Once the removal loop is stuck, the rest of the list changes nothing. */
  lemma {:induction false} RemoveAllStuck(s: Core, pods: seq<Pod>, i: nat)
    requires i < |pods|
    requires var w := RemoveAll(s.cluster, s.log, s.names, pods[..i]);
      w.ok && !Removable(w.cluster, pods[i].Val(), NameOf(s.names, pods[i]))
    ensures RemoveAll(s.cluster, s.log, s.names, pods) == RemoveAll(s.cluster, s.log, s.names, pods[..i]).(ok := false)
    decreases |pods|
  {
    var front := pods[..|pods| - 1];
    if i < |front| {
      assert front[..i] == pods[..i];
      RemoveAllStuck(s, front, i);
    }
  }

  lemma {:induction false} ScheduleAllEnds(s: Core, pods: seq<Pod>, i: nat, sched: Scheduler, stop: bool)
    requires i <= |pods| && (i == |pods| || !ScheduleAll(s, pods[..i], sched, stop).phase.Going?)
    ensures ScheduleAll(s, pods, sched, stop) == ScheduleAll(s, pods[..i], sched, stop)
    decreases |pods|
  {
    if i == |pods| {
      assert pods[..i] == pods;
    } else {
      var front := pods[..|pods| - 1];
      assert front[..i] == pods[..i];
      ScheduleAllEnds(s, front, i, sched, stop);
    }
  }
}
