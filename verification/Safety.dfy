/** No run ever overfills a node, as long as the filters accept a pod only where it fits. */
module Safety {
  import opened Pods
  import opened Undo
  import opened Operations
  import opened Machine
  import opened Handles

  /** What a node can hold. Taking pods away must not make the rest stop fitting. */
  type Capacity = (NodeName, multiset<PodVal>) -> bool

  ghost predicate DownClosed(fits: Capacity) {
    forall n, a, b :: fits(n, b) && a <= b ==> fits(n, a)
  }

  ghost predicate FitsAll(fits: Capacity, c: Cluster) {
    forall n :: n in c ==> fits(n, c[n])
  }

  /** A scheduling cycle only proposes a node the pod fits on. */
  ghost predicate Sane(sched: Scheduler, fits: Capacity) {
    forall c, v, k :: sched(c, v, k).Host? && sched(c, v, k).node in c ==>
      fits(sched(c, v, k).node, c[sched(c, v, k).node] + multiset{v})
  }

  /** The pods that the first `k` handles would put back onto `n` at preemption version `version`. */
  ghost function Owed(w: World, version: nat, k: nat, n: NodeName): multiset<PodVal> {
    if k == 0 then multiset{}
    else if Counts(w, k - 1, version) then Owed(w, version, k - 1, n) + At(w.handles[k - 1].pods, w.core.names, n)
    else Owed(w, version, k - 1, n)
  }

  /** Beyond discipline: filters are sane, and no handle from a rolled-back transaction is accepted. */
  ghost predicate Guarded(w: World, call: Call, fits: Capacity, content: string -> nat) {
    && Disciplined(w, call, content)
    && match call {
      case DoSchedule(_, _, _, sched, _) => Sane(sched, fits)
      case DoUnpreempt(i) => i in w.lost && i < |w.handles| ==> !Accepts(w.core, w.handles[i])
      case _ => true
    }
  }

  ghost predicate GuardedRun(w: World, calls: seq<Call>, fits: Capacity, content: string -> nat) {
    calls == [] || (
      && GuardedRun(w, calls[..|calls| - 1], fits, content)
      && Guarded(Run(w, calls[..|calls| - 1]), calls[|calls| - 1], fits, content))
  }

  /** On every node of `c` there is room for what the first `k` handles can put back. */
  ghost predicate RoomFor(w: World, c: Cluster, version: nat, k: nat, fits: Capacity) {
    forall n :: n in c ==> fits(n, c[n] + Owed(w, version, k, n))
  }

  ghost predicate RoomAtStart(w: World, fits: Capacity) {
    w.core.tx.Open? ==>
      w.core.tx.len <= |w.core.log| && RoomFor(w, Past(w.core, w.core.tx.len), w.core.tx.version, w.found, fits)
  }

  /** The invariant: the pods in the snapshot together with those of all usable handles fit, now and,
      during a transaction, at its start. */
  ghost predicate Safe(w: World, fits: Capacity, base: Cluster, content: string -> nat) {
    && DownClosed(fits) && FitsAll(fits, base)
    && Sound(w, base, content) && Ordered(w)
    && HandlesWait(w)
    && RoomFor(w, w.core.cluster, w.core.version, |w.handles|, fits)
    && RoomAtStart(w, fits)
  }

  // ----- Owed

  lemma {:induction false} OwedNothing(w: World, version: nat, k: nat, n: NodeName)
    requires forall i :: 0 <= i < k ==> !Counts(w, i, version)
    ensures Owed(w, version, k, n) == multiset{}
  {
    if k > 0 { OwedNothing(w, version, k - 1, n); }
  }

  ghost predicate SameClaim(w: World, v: World, i: nat, version: nat, n: NodeName) {
    && (Counts(w, i, version) <==> Counts(v, i, version))
    && (Counts(w, i, version) ==> At(w.handles[i].pods, w.core.names, n) == At(v.handles[i].pods, v.core.names, n))
  }

  lemma {:induction false} OwedSame(w: World, v: World, version: nat, k: nat, n: NodeName)
    requires forall i :: 0 <= i < k ==> SameClaim(w, v, i, version, n)
    ensures Owed(w, version, k, n) == Owed(v, version, k, n)
  {
    if k > 0 {
      OwedSame(w, v, version, k - 1, n);
      assert SameClaim(w, v, k - 1, version, n);
    }
  }

  /** Beyond the first `j` handles nothing more is owed. */
  lemma {:induction false} OwedStops(w: World, version: nat, j: nat, k: nat, n: NodeName)
    requires j <= k && forall i :: j <= i < k ==> !Counts(w, i, version)
    ensures Owed(w, version, k, n) == Owed(w, version, j, n)
  {
    if j < k { OwedStops(w, version, j, k - 1, n); }
  }

  /** Using a handle moves its pods from what is owed to the snapshot. */
  lemma {:induction false} OwedUse(w: World, v: World, j: nat, version: nat, k: nat, n: NodeName)
    requires j < k && Counts(w, j, version) && !Counts(v, j, version)
    requires forall i :: 0 <= i < k && i != j ==> SameClaim(w, v, i, version, n)
    ensures Owed(w, version, k, n) == Owed(v, version, k, n) + At(w.handles[j].pods, w.core.names, n)
  {
    if j < k - 1 {
      OwedUse(w, v, j, version, k - 1, n);
      assert SameClaim(w, v, k - 1, version, n);
    } else {
      OwedSame(w, v, version, k - 1, n);
    }
  }

  lemma FitsWithin(fits: Capacity, n: NodeName, a: multiset<PodVal>, b: multiset<PodVal>)
    requires DownClosed(fits) && fits(n, a + b)
    ensures fits(n, a)
  {
    assert a <= a + b;
  }

  // ----- The calls

  lemma RoomAtStartKept(w: World, v: World, fits: Capacity)
    requires RoomAtStart(w, fits) && Extends(w.core, v.core) && v.core.tx == w.core.tx && v.found == w.found
    requires forall i, n :: 0 <= i < w.found && w.core.tx.Open? ==> SameClaim(w, v, i, w.core.tx.version, n)
    ensures RoomAtStart(v, fits)
  {
    if w.core.tx.Open? {
      ExtendsKeepsHistory(w.core, v.core, w.core.tx.len);
      forall n { OwedSame(w, v, w.core.tx.version, w.found, n); }
    }
  }

  /** Pods moved between the snapshot and what is owed need no more room. */
  lemma Moved(c: multiset<PodVal>, o: multiset<PodVal>, less: multiset<PodVal>, back: multiset<PodVal>,
              more: multiset<PodVal>)
    requires c == less + back && more == o + back
    ensures less + more == c + o
  {}

  lemma PreemptOwes(w: World, v: World, pods: seq<Pod>, n: NodeName)
    requires v.handles == w.handles + [Handle(pods, w.core.version, false)]
    requires v.lost == w.lost && v.core.names == w.core.names && |w.handles| !in w.lost
    ensures Owed(v, w.core.version, |w.handles| + 1, n)
        == Owed(w, w.core.version, |w.handles|, n) + At(pods, w.core.names, n)
  {
    var k := |w.handles|;
    OwedSame(w, v, w.core.version, k, n);
    assert v.handles[k] == Handle(pods, w.core.version, false);
    assert Counts(v, k, w.core.version);
  }

  lemma PreemptKeepsRoom(w: World, pods: seq<Pod>, fits: Capacity, base: Cluster, content: string -> nat)
    requires Safe(w, fits, base, content) && Faithful(pods, content) && Preempt(w.core, pods).1.Ok?
    ensures var v := Exec(w, DoPreempt(pods)); RoomFor(v, v.core.cluster, v.core.version, |v.handles|, fits)
  {
    var v, k, version := Exec(w, DoPreempt(pods)), |w.handles|, w.core.version;
    PreemptAllOrNothing(w.core, pods, content);
    forall n | n in v.core.cluster ensures fits(n, v.core.cluster[n] + Owed(v, version, k + 1, n)) {
      PreemptOwes(w, v, pods, n);
      Moved(w.core.cluster[n], Owed(w, version, k, n), v.core.cluster[n], At(pods, w.core.names, n),
          Owed(v, version, k + 1, n));
    }
  }

  lemma PreemptKeepsSafe(w: World, pods: seq<Pod>, fits: Capacity, base: Cluster, content: string -> nat)
    requires Safe(w, fits, base, content) && Faithful(pods, content) && Preempt(w.core, pods).1.Ok?
    ensures Safe(Exec(w, DoPreempt(pods)), fits, base, content)
  {
    var v := Exec(w, DoPreempt(pods));
    PreemptKeepsRoom(w, pods, fits, base, content);
    ExecSound(w, DoPreempt(pods), base, content);
    ExecOrdered(w, DoPreempt(pods));
    ExecWaits(w, DoPreempt(pods));
    PreemptAllOrNothing(w.core, pods, content);
    RoomAtStartKept(w, v, fits);
  }

  lemma UnpreemptOwes(w: World, v: World, i: nat, n: NodeName)
    requires i < |w.handles| && Counts(w, i, w.core.version)
        && v.handles == w.handles[i := w.handles[i].(reverted := true)]
    requires v.lost == w.lost && v.core.names == w.core.names
    ensures Owed(w, w.core.version, |w.handles|, n)
        == Owed(v, w.core.version, |w.handles|, n) + At(w.handles[i].pods, w.core.names, n)
  {
    OwedUse(w, v, i, w.core.version, |w.handles|, n);
  }

  lemma UnpreemptKeepsRoom(w: World, i: nat, fits: Capacity, base: Cluster, content: string -> nat)
    requires Safe(w, fits, base, content) && i < |w.handles| && i !in w.lost && Accepts(w.core, w.handles[i])
    ensures var v := Exec(w, DoUnpreempt(i)); RoomFor(v, v.core.cluster, v.core.version, |v.handles|, fits)
  {
    var v, k, version := Exec(w, DoUnpreempt(i)), |w.handles|, w.core.version;
    assert w.handles[i] in w.handles;
    AcceptedAddable(w, i, base, content);
    UnpreemptExact(w.core, w.handles[i], content);
    forall n | n in v.core.cluster ensures fits(n, v.core.cluster[n] + Owed(v, version, k, n)) {
      UnpreemptOwes(w, v, i, n);
      Moved(v.core.cluster[n], Owed(v, version, k, n), w.core.cluster[n], At(w.handles[i].pods, w.core.names, n),
          Owed(w, version, k, n));
    }
  }

  lemma UnpreemptKeepsSafe(w: World, i: nat, fits: Capacity, base: Cluster, content: string -> nat)
    requires Safe(w, fits, base, content) && i < |w.handles| && i !in w.lost && Accepts(w.core, w.handles[i])
    ensures Safe(Exec(w, DoUnpreempt(i)), fits, base, content)
  {
    var v := Exec(w, DoUnpreempt(i));
    assert w.handles[i] in w.handles;
    UnpreemptKeepsRoom(w, i, fits, base, content);
    ExecSound(w, DoUnpreempt(i), base, content);
    ExecOrdered(w, DoUnpreempt(i));
    UnpreemptExact(w.core, w.handles[i], content);
    ExecWaits(w, DoUnpreempt(i));
    RoomAtStartKept(w, v, fits);
  }

  lemma {:induction false} ScheduleAllFits(s: Core, pods: seq<Pod>, sched: Scheduler, stop: bool, fits: Capacity,
                                           content: string -> nat)
    requires Schedulable(s, pods, content) && Sane(sched, fits) && FitsAll(fits, s.cluster)
    ensures FitsAll(fits, ScheduleAll(s, pods, sched, stop).cluster)
  {
    if pods != [] {
      var k := |pods| - 1;
      ScheduleAllFits(s, pods[..k], sched, stop, fits, content);
      BatchTakenBack(s, pods[..k], sched, stop, s.names, content);
      var b := ScheduleAll(s, pods[..k], sched, stop);
      var d := sched(b.cluster, pods[k].Val(), k);
      if b.phase.Going? && !d.NoFramework? {
        assert pods[k] in pods;
        ScheduleOneExact(b.cluster, pods[k].Val(), d, content);
      }
    }
  }

  /** A call of SchedulePods that does not bump the version leaves the pods alone. */
  lemma UnbumpedUnchanged(s: Core, pods: seq<Pod>, placement: seq<NodeName>, assumed: bool, sched: Scheduler,
                          opts: Options, fits: Capacity, content: string -> nat)
    requires Schedulable(s, pods, content) && Sane(sched, fits) && FitsAll(fits, s.cluster)
    ensures var t := Schedule(s, pods, placement, assumed, sched, opts).0;
      && FitsAll(fits, t.cluster)
      && (t.version == s.version ==> t.cluster == s.cluster)
      && s.version <= t.version <= s.version + 1
  {
    ScheduleLeavesNoTrace(s, pods, placement, assumed, sched, opts, content);
    ScheduleAllFits(s, pods, sched, opts.stopOnFailure, fits, content);
  }

  /** What a handle claims does not change when SchedulePods renames the objects it placed: its pods wait in
      the log, and such objects are not renamed. */
  lemma ClaimSame(w: World, call: Call, i: nat, version: nat, n: NodeName)
    requires call.DoSchedule? && SameNames(w.core.log, w.core.names, Exec(w, call).core.names)
    requires Counts(w, i, version) ==> AllPending(w.core.log, w.handles[i].pods)
    ensures SameClaim(w, Exec(w, call), i, version, n)
  {
    if Counts(w, i, version) {
      PendingKeepNames(w.core.log, w.core.names, Exec(w, call).core.names, w.handles[i].pods);
      AtReadsOwnNames(w.handles[i].pods, w.core.names, Exec(w, call).core.names, n);
    }
  }

  lemma ScheduleKeepsClaims(w: World, call: Call, fits: Capacity, base: Cluster, content: string -> nat)
    requires Safe(w, fits, base, content) && Guarded(w, call, fits, content) && call.DoSchedule?
    ensures forall i: nat, n :: SameClaim(w, Exec(w, call), i, w.core.version, n)
    ensures forall i: nat, n :: w.core.tx.Open? && i < w.found ==> SameClaim(w, Exec(w, call), i, w.core.tx.version, n)
  {
    ScheduleLeavesNoTrace(w.core, call.pods, call.placement, call.assumed, call.sched, call.opts, content);
    forall i: nat, n ensures SameClaim(w, Exec(w, call), i, w.core.version, n) {
      ClaimSame(w, call, i, w.core.version, n);
    }
    forall i: nat, n | w.core.tx.Open? && i < w.found ensures SameClaim(w, Exec(w, call), i, w.core.tx.version, n) {
      if Counts(w, i, w.core.tx.version) {
        PendingLonger(w.core.log[..w.core.tx.len], w.core.log, w.handles[i].pods);
      }
      ClaimSame(w, call, i, w.core.tx.version, n);
    }
  }

  lemma RoomNow(w: World, fits: Capacity, base: Cluster, content: string -> nat)
    requires Safe(w, fits, base, content)
    ensures FitsAll(fits, w.core.cluster)
  {
    forall n | n in w.core.cluster ensures fits(n, w.core.cluster[n]) {
      FitsWithin(fits, n, w.core.cluster[n], Owed(w, w.core.version, |w.handles|, n));
    }
  }

  /** No handle has the new version yet, so nothing but the pods themselves needs room. */
  lemma RoomAfterBump(v: World, fits: Capacity)
    requires FitsAll(fits, v.core.cluster)
    requires forall i :: 0 <= i < |v.handles| ==> !Counts(v, i, v.core.version)
    ensures RoomFor(v, v.core.cluster, v.core.version, |v.handles|, fits)
  {
    forall n | n in v.core.cluster ensures fits(n, v.core.cluster[n] + Owed(v, v.core.version, |v.handles|, n)) {
      OwedNothing(v, v.core.version, |v.handles|, n);
      assert v.core.cluster[n] + multiset{} == v.core.cluster[n];
    }
  }

  lemma ScheduleKeepsRoom(w: World, call: Call, fits: Capacity, base: Cluster, content: string -> nat)
    requires Safe(w, fits, base, content) && Guarded(w, call, fits, content) && call.DoSchedule?
    ensures var v := Exec(w, call); RoomFor(v, v.core.cluster, v.core.version, |v.handles|, fits)
  {
    var v := Exec(w, call);
    RoomNow(w, fits, base, content);
    UnbumpedUnchanged(w.core, call.pods, call.placement, call.assumed, call.sched, call.opts, fits, content);
    if v.core.version == w.core.version {
      ScheduleKeepsClaims(w, call, fits, base, content);
      forall n { OwedSame(w, v, w.core.version, |w.handles|, n); }
    } else {
      RoomAfterBump(v, fits);
    }
  }

  lemma ScheduleKeepsSafe(w: World, call: Call, fits: Capacity, base: Cluster, content: string -> nat)
    requires Safe(w, fits, base, content) && Guarded(w, call, fits, content) && call.DoSchedule?
    ensures Safe(Exec(w, call), fits, base, content)
  {
    ScheduleKeepsRoom(w, call, fits, base, content);
    ScheduleKeepsClaims(w, call, fits, base, content);
    ExecSound(w, call, base, content);
    ExecOrdered(w, call);
    ExecWaits(w, call);
    ScheduleLeavesNoTrace(w.core, call.pods, call.placement, call.assumed, call.sched, call.opts, content);
    RoomAtStartKept(w, Exec(w, call), fits);
  }

  lemma ResetKeepsSafe(w: World, fits: Capacity, base: Cluster, content: string -> nat)
    requires Safe(w, fits, base, content) && w.core.tx.NoTx? && |w.core.log| > 0
    ensures Safe(Exec(w, DoReset), fits, base, content)
  {
    var v := Exec(w, DoReset);
    ExecSound(w, DoReset, base, content);
    ExecOrdered(w, DoReset);
    ExecWaits(w, DoReset);
    RoomAfterBump(v, fits);
  }

  lemma BeginKeepsSafe(w: World, fits: Capacity, base: Cluster, content: string -> nat)
    requires Safe(w, fits, base, content) && w.core.tx.NoTx?
    ensures Safe(Exec(w, DoBegin), fits, base, content)
  {
    var v := Exec(w, DoBegin);
    ExecSound(w, DoBegin, base, content);
    ExecOrdered(w, DoBegin);
    RoomNow(w, fits, base, content);
    RoomAfterBump(v, fits);
    ExecWaits(w, DoBegin);
    assert Past(v.core, v.core.tx.len) == w.core.cluster;
    forall n { OwedSame(w, v, w.core.version, |w.handles|, n); }
  }

  lemma CommitKeepsSafe(w: World, fits: Capacity, base: Cluster, content: string -> nat)
    requires Safe(w, fits, base, content) && CanEnd(w.core)
    ensures Safe(Exec(w, DoEnd(Commit)), fits, base, content)
  {
    var v := Exec(w, DoEnd(Commit));
    ExecSound(w, DoEnd(Commit), base, content);
    ExecOrdered(w, DoEnd(Commit));
    RoomNow(w, fits, base, content);
    RoomAfterBump(v, fits);
    ExecWaits(w, DoEnd(Commit));
  }

  /** Rolling back restores the room there was at the start: handles taken since are lost. */
  lemma RollBackKeepsRoom(w: World, outcome: Outcome, fits: Capacity)
    requires RoomAtStart(w, fits) && Ordered(w) && CanEnd(w.core) && !outcome.Commit?
    ensures var v := Exec(w, DoEnd(outcome)); RoomFor(v, v.core.cluster, v.core.version, |v.handles|, fits)
  {
    var v := Exec(w, DoEnd(outcome));
    forall n | n in v.core.cluster ensures fits(n, v.core.cluster[n] + Owed(v, v.core.version, |v.handles|, n)) {
      OwedStops(v, v.core.version, w.found, |v.handles|, n);
      OwedSame(w, v, v.core.version, w.found, n);
    }
  }

  lemma RollBackKeepsSafe(w: World, outcome: Outcome, fits: Capacity, base: Cluster, content: string -> nat)
    requires Safe(w, fits, base, content) && CanEnd(w.core) && !outcome.Commit?
    ensures Safe(Exec(w, DoEnd(outcome)), fits, base, content)
  {
    ExecSound(w, DoEnd(outcome), base, content);
    ExecOrdered(w, DoEnd(outcome));
    RollBackKeepsRoom(w, outcome, fits);
    ExecWaits(w, DoEnd(outcome));
  }

  lemma ExecKeepsSafe(w: World, call: Call, fits: Capacity, base: Cluster, content: string -> nat)
    requires Safe(w, fits, base, content) && Guarded(w, call, fits, content)
    ensures Safe(Exec(w, call), fits, base, content)
  {
    match call
    case DoPreempt(pods) =>
      PreemptAllOrNothing(w.core, pods, content);
      if Preempt(w.core, pods).1.Ok? { PreemptKeepsSafe(w, pods, fits, base, content); }
    case DoUnpreempt(i) =>
      if i < |w.handles| {
        if Accepts(w.core, w.handles[i]) {
          UnpreemptKeepsSafe(w, i, fits, base, content);
        } else {
          assert Exec(w, call) == w;
        }
      }
    case DoSchedule(_, _, _, _, _) => ScheduleKeepsSafe(w, call, fits, base, content);
    case DoReset => if w.core.tx.NoTx? && |w.core.log| > 0 { ResetKeepsSafe(w, fits, base, content); }
    case DoBegin => if w.core.tx.NoTx? { BeginKeepsSafe(w, fits, base, content); }
    case DoEnd(outcome) =>
      if CanEnd(w.core) {
        if outcome.Commit? { CommitKeepsSafe(w, fits, base, content); }
        else { RollBackKeepsSafe(w, outcome, fits, base, content); }
      }
  }

  /** Whole-run safety: from a cluster that fits, every state of every guarded run fits on every node,
      even if all usable handles were to be used. */
  lemma {:induction false} NoNodeOverflows(w: World, calls: seq<Call>, fits: Capacity, base: Cluster,
                                           content: string -> nat)
    requires Fresh(w, base, content) && DownClosed(fits) && FitsAll(fits, base)
    requires GuardedRun(w, calls, fits, content)
    ensures Safe(Run(w, calls), fits, base, content)
    ensures FitsAll(fits, Run(w, calls).core.cluster)
  {
    if calls == [] {
      forall n | n in base ensures fits(n, base[n] + Owed(w, w.core.version, 0, n)) {
        assert base[n] + multiset{} == base[n];
      }
    } else {
      var front := calls[..|calls| - 1];
      NoNodeOverflows(w, front, fits, base, content);
      ExecKeepsSafe(Run(w, front), calls[|calls| - 1], fits, base, content);
    }
    RoomNow(Run(w, calls), fits, base, content);
  }
}
