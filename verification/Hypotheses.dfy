/** What the callers' discipline is for: where a promise of the library fails without it, and exactly
    when it still holds. */
module Hypotheses {
  import opened Pods
  import opened Undo
  import opened Operations
  import opened Machine

  // ----- Node names are read when an undo runs

  lemma {:induction false} UndoKeepsNodes(c: Cluster, log: seq<UndoOp>, names: map<Pod, NodeName>, i: nat)
    requires i <= |log|
    ensures UndoTo(c, log, names, i).Keys == c.Keys
    decreases |log|
  {
    if i < |log| {
      UndoKeepsNodes(ApplyUndo(c, log[|log| - 1], names), log[..|log| - 1], names, i);
    }
  }

  lemma UndoOnce(c: Cluster, log: seq<UndoOp>, names: map<Pod, NodeName>, i: nat)
    requires i < |log|
    ensures UndoTo(c, log, names, i) == ApplyUndo(UndoTo(c, log, names, i + 1), log[i], names)
  {
    UndoStages(c, log, names, i, i + 1);
    assert log[..i + 1][i] == log[i];
  }

  /** Adding a pod to one node never looks like adding it to another, or like not adding it. */
  lemma AddTells(c: Cluster, v: PodVal, n: NodeName, m: NodeName)
    requires n in c
    requires Add(c, v, n) == (if m in c then Add(c, v, m) else c)
    ensures m == n
  {
    assert Add(c, v, n)[n][v] == c[n][v] + 1;
  }

  lemma PastTellsName(s: Core, names: map<Pod, NodeName>, k: nat)
    requires k < |s.log| && s.log[k].ReAdd?
    requires Addable(s.cluster, s.log[k].pod.Val(), NameOf(s.names, s.log[k].pod))
    requires UndoTo(s.cluster, s.log, names, k + 1) == UndoTo(s.cluster, s.log, s.names, k + 1)
    requires UndoTo(s.cluster, s.log, names, k) == UndoTo(s.cluster, s.log, s.names, k)
    ensures NameOf(s.names, s.log[k].pod) == NameOf(names, s.log[k].pod)
  {
    var p := s.log[k].pod;
    UndoOnce(s.cluster, s.log, s.names, k);
    UndoOnce(s.cluster, s.log, names, k);
    UndoKeepsNodes(s.cluster, s.log, s.names, k + 1);
    AddTells(UndoTo(s.cluster, s.log, s.names, k + 1), p.Val(), NameOf(s.names, p), NameOf(names, p));
  }

  /** Renaming caller's objects keeps every recorded version restorable exactly when no object with its
      removal in the log got another node name. */
  lemma RenamedRestoresExactly(s: Core, names: map<Pod, NodeName>)
    requires forall op :: op in s.log && op.ReAdd? ==> Addable(s.cluster, op.pod.Val(), NameOf(s.names, op.pod))
    ensures (forall i :: 0 <= i <= |s.log| ==> Past(s.(names := names), i) == Past(s, i)) <==>
        SameNames(s.log, s.names, names)
  {
    if SameNames(s.log, s.names, names) {
      forall i | 0 <= i <= |s.log| ensures Past(s.(names := names), i) == Past(s, i) {
        UndoReadsPending(s.cluster, s.log, names, s.names, i);
      }
    }
    if forall i :: 0 <= i <= |s.log| ==> Past(s.(names := names), i) == Past(s, i) {
      forall op | op in s.log && op.ReAdd? ensures NameOf(s.names, op.pod) == NameOf(names, op.pod) {
        var k :| 0 <= k < |s.log| && s.log[k] == op;
        assert Past(s.(names := names), k + 1) == Past(s, k + 1) && Past(s.(names := names), k) == Past(s, k);
        PastTellsName(s, names, k);
      }
    }
  }

  /** Every version recorded before still restores as it did. */
  ghost predicate KeepsPast(s: Core, t: Core) {
    |s.log| <= |t.log| && forall i :: 0 <= i <= |s.log| ==> Past(t, i) == Past(s, i)
  }

  lemma TakenBackPast(s: Core, t: Core)
    requires |s.log| <= |t.log| && t.log[..|s.log|] == s.log && UndoTo(t.cluster, t.log, t.names, |s.log|) == s.cluster
    ensures forall i :: 0 <= i <= |s.log| ==> Past(t, i) == Past(s.(names := t.names), i)
  {
    forall i | 0 <= i <= |s.log| ensures Past(t, i) == Past(s.(names := t.names), i) {
      UndoStages(t.cluster, t.log, t.names, i, |s.log|);
    }
  }

  /** A call of SchedulePods, dry run or not, leaves every earlier version restorable exactly when it gave no
      listed object whose removal is still in the log another node name. A dry run also gives back the pods
      and the log. */
  lemma SchedulingKeepsPastExactly(s: Core, pods: seq<Pod>, placement: seq<NodeName>, assumed: bool, sched: Scheduler,
                                   opts: Options, content: string -> nat)
    requires Uniform(s.cluster, content) && Faithful(pods, content)
    requires forall op :: op in s.log && op.ReAdd? ==> Addable(s.cluster, op.pod.Val(), NameOf(s.names, op.pod))
    ensures var t := Schedule(s, pods, placement, assumed, sched, opts).0;
      && (opts.dryRun ==> t.cluster == s.cluster && t.log == s.log && t.version == s.version)
      && (KeepsPast(s, t) <==> forall p :: p in pods && Pending(s.log, p) ==> NameOf(t.names, p) == NameOf(s.names, p))
  {
    var t := Schedule(s, pods, placement, assumed, sched, opts).0;
    ScheduleLeavesNoTrace(s, pods, placement, assumed, sched, opts, content);
    TakenBackPast(s, t);
    RenamedRestoresExactly(s, t.names);
    OnlyListedRenamed(s.log, s.names, t.names, pods);
  }

  lemma OnlyListedRenamed(log: seq<UndoOp>, a: map<Pod, NodeName>, b: map<Pod, NodeName>, pods: seq<Pod>)
    requires forall p :: p !in pods ==> NameOf(a, p) == NameOf(b, p)
    ensures SameNames(log, a, b) <==> forall p :: p in pods && Pending(log, p) ==> NameOf(b, p) == NameOf(a, p)
  {
    if forall p :: p in pods && Pending(log, p) ==> NameOf(b, p) == NameOf(a, p) {
      forall op | op in log && op.ReAdd? ensures NameOf(a, op.pod) == NameOf(b, op.pod) {
        assert op == ReAdd(op.pod);
      }
    }
  }

  /** The hosts a scheduling cycle proposes are in the placement. */
  ghost predicate StaysIn(sched: Scheduler, placement: seq<NodeName>) {
    forall c, v, k :: sched(c, v, k).Host? ==> sched(c, v, k).node in placement
  }

  ghost predicate Hosts(s: Core, placement: seq<NodeName>, n: NodeName) {
    n in placement && n in s.cluster
  }

  ghost predicate NamedWithin(s: Core, b: Batch, placement: seq<NodeName>, p: Pod) {
    NameOf(b.names, p) == NameOf(s.names, p) || Hosts(s, placement, NameOf(b.names, p))
  }

  /** Objects only ever get the name of a node of the placement that the snapshot has. */
  lemma {:induction false} BatchNamesWithin(s: Core, pods: seq<Pod>, placement: seq<NodeName>, sched: Scheduler,
                                            stop: bool)
    requires StaysIn(sched, placement)
    ensures var b := ScheduleAll(s, pods, sched, stop);
      b.cluster.Keys == s.cluster.Keys && forall p :: NamedWithin(s, b, placement, p)
  {
    if pods != [] {
      var k := |pods| - 1;
      BatchNamesWithin(s, pods[..k], placement, sched, stop);
      var b := ScheduleAll(s, pods[..k], sched, stop);
      if b.phase.Going? {
        StepNamesWithin(s, b, pods[k], sched(b.cluster, pods[k].Val(), k), placement, stop);
      }
    }
  }

  lemma StepNamesWithin(s: Core, b: Batch, p: Pod, d: Decision, placement: seq<NodeName>, stop: bool)
    requires b.cluster.Keys == s.cluster.Keys && forall q :: NamedWithin(s, b, placement, q)
    requires d.Host? ==> d.node in placement
    ensures var e := BatchStep(b, p, d, stop);
      e.cluster.Keys == s.cluster.Keys && forall q :: NamedWithin(s, e, placement, q)
  {
    var e := BatchStep(b, p, d, stop);
    forall q ensures NamedWithin(s, e, placement, q) {
      assert NamedWithin(s, b, placement, q);
    }
  }

  function Always(n: NodeName): Scheduler {
    (c: Cluster, v: PodVal, k: nat) => Host(n, Success)
  }

  /** A scheduler that always proposes the same known node places every listed pod there. */
  lemma {:induction false} AlwaysPlaces(s: Core, pods: seq<Pod>, n: NodeName, stop: bool)
    requires n in s.cluster && (stop ==> forall p :: p in pods ==> p.uid != "")
    ensures var b := ScheduleAll(s, pods, Always(n), stop);
      && b.phase.Going? && b.cluster.Keys == s.cluster.Keys
      && forall p :: p in pods && p.uid != "" ==> NameOf(b.names, p) == n
  {
    if pods != [] {
      var k := |pods| - 1;
      AlwaysPlaces(s, pods[..k], n, stop);
      var b, e := ScheduleAll(s, pods[..k], Always(n), stop), ScheduleAll(s, pods, Always(n), stop);
      assert e == BatchStep(b, pods[k], Host(n, Success), stop);
      forall p | p in pods && p.uid != "" ensures NameOf(e.names, p) == n {
        assert p == pods[k] || p in pods[..k];
      }
    }
  }

  /** Every listed object whose removal is in the log names the only node of the placement it could get. */
  ghost predicate NamesFixed(s: Core, pods: seq<Pod>, placement: seq<NodeName>) {
    forall p, n :: p in pods && Pending(s.log, p) && Hosts(s, placement, n) ==> n == NameOf(s.names, p)
  }

  /** What callers of SchedulePods can check beforehand: whatever the scheduling cycles decide within the
      placement, and whether or not it is a dry run, every earlier version stays restorable, by Revert and by
      reset alike, exactly when each listed pod that waits in the log already names every node of the
      placement there is. */
  lemma SchedulingSafeExactly(s: Core, pods: seq<Pod>, placement: seq<NodeName>, opts: Options, content: string -> nat)
    requires Uniform(s.cluster, content) && Faithful(pods, content)
    requires forall op :: op in s.log && op.ReAdd? ==> Addable(s.cluster, op.pod.Val(), NameOf(s.names, op.pod))
    requires opts.stopOnFailure ==> forall p :: p in pods ==> p.uid != ""
    ensures (forall sched :: StaysIn(sched, placement) ==>
        KeepsPast(s, Schedule(s, pods, placement, true, sched, opts).0)) <==>
            NamesFixed(s, pods, placement)
  {
    if NamesFixed(s, pods, placement) {
      forall sched | StaysIn(sched, placement) ensures KeepsPast(s, Schedule(s, pods, placement, true, sched, opts).0) {
        FixedNamesKeepPast(s, pods, placement, sched, opts, content);
      }
    } else {
      var p, n :| p in pods && Pending(s.log, p) && Hosts(s, placement, n) && n != NameOf(s.names, p);
      OtherNodeLosesPast(s, pods, placement, opts, p, n, content);
    }
  }

  lemma FixedNamesKeepPast(s: Core, pods: seq<Pod>, placement: seq<NodeName>, sched: Scheduler, opts: Options,
                           content: string -> nat)
    requires Uniform(s.cluster, content) && Faithful(pods, content)
    requires forall op :: op in s.log && op.ReAdd? ==> Addable(s.cluster, op.pod.Val(), NameOf(s.names, op.pod))
    requires NamesFixed(s, pods, placement) && StaysIn(sched, placement)
    ensures KeepsPast(s, Schedule(s, pods, placement, true, sched, opts).0)
  {
    var t := Schedule(s, pods, placement, true, sched, opts).0;
    SchedulingKeepsPastExactly(s, pods, placement, true, sched, opts, content);
    BatchNamesWithin(s, pods, placement, sched, opts.stopOnFailure);
    forall p | p in pods && Pending(s.log, p) ensures NameOf(t.names, p) == NameOf(s.names, p) {
      assert NamedWithin(s, ScheduleAll(s, pods, sched, opts.stopOnFailure), placement, p);
    }
  }

  /** A listed pod waits in the log, and the placement has a node it does not name. */
  lemma OtherNodeLosesPast(s: Core, pods: seq<Pod>, placement: seq<NodeName>, opts: Options, p: Pod, n: NodeName,
                           content: string -> nat)
    requires Uniform(s.cluster, content) && Faithful(pods, content)
    requires forall op :: op in s.log && op.ReAdd? ==> Addable(s.cluster, op.pod.Val(), NameOf(s.names, op.pod))
    requires opts.stopOnFailure ==> forall q :: q in pods ==> q.uid != ""
    requires p in pods && Pending(s.log, p) && Hosts(s, placement, n) && n != NameOf(s.names, p)
    ensures StaysIn(Always(n), placement) && !KeepsPast(s, Schedule(s, pods, placement, true, Always(n), opts).0)
  {
    SchedulingKeepsPastExactly(s, pods, placement, true, Always(n), opts, content);
    AlwaysPlaces(s, pods, n, opts.stopOnFailure);
    assert NameOf(Schedule(s, pods, placement, true, Always(n), opts).0.names, p) == n;
  }

  /** One call keeps every earlier version restorable exactly when it meets the discipline of the results on runs. */
  lemma DisciplineIsExact(w: World, call: Call, base: Cluster, content: string -> nat)
    requires Sound(w, base, content) && call.DoSchedule? && Faithful(call.pods, content)
    ensures KeepsPast(w.core, Exec(w, call).core) <==> Disciplined(w, call, content)
  {
    var s, t := w.core, Exec(w, call).core;
    SchedulingKeepsPastExactly(s, call.pods, call.placement, call.assumed, call.sched, call.opts, content);
    ScheduleLeavesNoTrace(s, call.pods, call.placement, call.assumed, call.sched, call.opts, content);
    OnlyListedRenamed(s.log, s.names, t.names, call.pods);
  }

  /** Objects that do not wait in the log may be placed anywhere. */
  lemma NoneWaitingDisciplined(w: World, call: Call, content: string -> nat)
    requires call.DoSchedule? && Faithful(call.pods, content) && NoneWaiting(w.core.log, call.pods)
    ensures Disciplined(w, call, content)
  {
    ScheduleAllNames(w.core, call.pods, call.sched, call.opts.stopOnFailure);
    OnlyListedRenamed(w.core.log, w.core.names, Exec(w, call).core.names, call.pods);
  }

  /** Objects that wait may be listed if they name every node of the placement there is. */
  lemma FixedNamesDisciplined(w: World, call: Call, content: string -> nat)
    requires call.DoSchedule? && Faithful(call.pods, content)
    requires NamesFixed(w.core, call.pods, call.placement) && StaysIn(call.sched, call.placement)
    ensures Disciplined(w, call, content)
  {
    var s, t := w.core, Exec(w, call).core;
    ScheduleAllNames(s, call.pods, call.sched, call.opts.stopOnFailure);
    BatchNamesWithin(s, call.pods, call.placement, call.sched, call.opts.stopOnFailure);
    forall p | p in call.pods && Pending(s.log, p) ensures NameOf(t.names, p) == NameOf(s.names, p) {
      assert NamedWithin(s, ScheduleAll(s, call.pods, call.sched, call.opts.stopOnFailure), call.placement, p);
    }
    OnlyListedRenamed(s.log, s.names, t.names, call.pods);
  }

  /** No result reports a pod that waits in the log as scheduled. */
  ghost predicate NoneScheduled(log: seq<UndoOp>, rs: seq<SchedulingResult>) {
    forall r :: r in rs && r.status.Success? ==> !Pending(log, r.pod)
  }

  lemma {:induction false} UnscheduledKeepNames(s: Core, pods: seq<Pod>, sched: Scheduler, stop: bool)
    requires NoneScheduled(s.log, ScheduleAll(s, pods, sched, stop).results)
    ensures SameNames(s.log, s.names, ScheduleAll(s, pods, sched, stop).names)
  {
    if pods != [] {
      var k := |pods| - 1;
      var b := ScheduleAll(s, pods[..k], sched, stop);
      var e := ScheduleAll(s, pods, sched, stop);
      assert b.results <= e.results;
      UnscheduledKeepNames(s, pods[..k], sched, stop);
      if e.names != b.names {
        assert e.results[|b.results|] in e.results;
      }
    }
  }

  /** They may also be listed in vain: trying preempted pods elsewhere is harmless if none of them fits. */
  lemma UnscheduledDisciplined(w: World, call: Call, content: string -> nat)
    requires call.DoSchedule? && Faithful(call.pods, content)
    requires NoneScheduled(w.core.log,
        Collected(w.core, call.pods, call.placement, call.assumed, call.sched, call.opts))
    ensures Disciplined(w, call, content)
  {
    if call.placement != [] && call.assumed {
      UnscheduledKeepNames(w.core, call.pods, call.sched, call.opts.stopOnFailure);
    }
  }

  /** On a placement with at least two nodes a call is safe whatever is decided exactly when none waits. */
  lemma NoneWaitingExactly(s: Core, pods: seq<Pod>, placement: seq<NodeName>, opts: Options, n: NodeName, m: NodeName,
                           content: string -> nat)
    requires Uniform(s.cluster, content) && Faithful(pods, content)
    requires forall op :: op in s.log && op.ReAdd? ==> Addable(s.cluster, op.pod.Val(), NameOf(s.names, op.pod))
    requires opts.stopOnFailure ==> forall p :: p in pods ==> p.uid != ""
    requires n != m && Hosts(s, placement, n) && Hosts(s, placement, m)
    ensures (forall sched :: StaysIn(sched, placement) ==>
        KeepsPast(s, Schedule(s, pods, placement, true, sched, opts).0)) <==>
            NoneWaiting(s.log, pods)
  {
    SchedulingSafeExactly(s, pods, placement, opts, content);
  }

  /** A pod preempted from node `n` is tried on node `m` in a dry run. Without the dry run,
      ResetMutations puts it back on `n`; after it, on `m`. */
  lemma DryRunMisplacesReset(c: Cluster, p: Pod, n: NodeName, m: NodeName, content: string -> nat)
    requires Uniform(c, content) && p.request == content(p.uid) && p.uid != "" && n in c && m in c
    ensures var s := Core(c, [ReAdd(p)], map[p := n], 0, NoTx);
      var t := Schedule(s, [p], [m], true, Always(m), Options(true, true)).0;
      Reset(s).0.cluster == Add(c, p.Val(), n) && Reset(t).0.cluster == Add(c, p.Val(), m)
  {
    var s := Core(c, [ReAdd(p)], map[p := n], 0, NoTx);
    var t := Schedule(s, [p], [m], true, Always(m), Options(true, true)).0;
    AlwaysPlaces(s, [p], m, true);
    SchedulingKeepsPastExactly(s, [p], [m], true, Always(m), Options(true, true), content);
    assert NameOf(t.names, p) == m;
    UndoOnce(c, [ReAdd(p)], s.names, 0);
    UndoOnce(c, [ReAdd(p)], t.names, 0);
  }

  /** The same dry run misplaces an Unpreempt: the handle still counts as valid, and puts the pod on `m`. */
  lemma DryRunMisplacesUnpreempt(c: Cluster, p: Pod, n: NodeName, m: NodeName, content: string -> nat)
    requires Uniform(c, content) && p.request == content(p.uid) && p.uid != "" && n in c && m in c
    ensures var s := Core(c, [ReAdd(p)], map[p := n], 0, NoTx);
      var t := Schedule(s, [p], [m], true, Always(m), Options(true, true)).0;
      var h := Handle([p], 0, false);
      && Accepts(s, h) && Unpreempt(s, h).0.cluster == Add(c, p.Val(), n)
      && Accepts(t, h) && Unpreempt(t, h).0.cluster == Add(c, p.Val(), m)
  {
    var s := Core(c, [ReAdd(p)], map[p := n], 0, NoTx);
    var t := Schedule(s, [p], [m], true, Always(m), Options(true, true)).0;
    AlwaysPlaces(s, [p], m, true);
    SchedulingKeepsPastExactly(s, [p], [m], true, Always(m), Options(true, true), content);
    assert NameOf(t.names, p) == m && t == s.(names := t.names);
    OnePutBack(s, p);
    OnePutBack(t, p);
  }

  lemma OnePutBack(s: Core, p: Pod)
    requires s.version == 0 && Addable(s.cluster, p.Val(), NameOf(s.names, p))
    ensures Unpreempt(s, Handle([p], 0, false)).0.cluster == Add(s.cluster, p.Val(), NameOf(s.names, p))
  {
    assert PutBack(s.cluster, s.log, s.names, [p], 1) == Sweep(s.cluster, s.log, true);
  }

  // ----- A roll-back makes preemption versions available again

  lemma OneCallRollsBack(w: World, call: Call, base: Cluster, content: string -> nat)
    requires Sound(w, base, content) && w.core.tx == NoTx && !call.DoEnd?
    requires Disciplined(Exec(w, DoBegin), call, content)
    ensures var v := Exec(Exec(w, DoBegin), call);
      Exec(v, DoEnd(Revert)).core == w.core.(names := v.core.names) && Exec(v, DoEnd(Revert)).handles == v.handles
  {
    var begun, body := Exec(w, DoBegin), [call];
    assert body[..0] == [] && Run(begun, []) == begun;
    assert Run(begun, body) == Exec(begun, call);
    TransactionRollsBack(w, body, Revert, base, content);
  }

  lemma PreemptIssues(w: World, pods: seq<Pod>, content: string -> nat)
    requires Uniform(w.core.cluster, content) && Faithful(pods, content) && Preempt(w.core, pods).1.Ok?
    ensures var v := Exec(w, DoPreempt(pods));
      v.handles == w.handles + [Handle(pods, w.core.version, false)] && v.core.names == w.core.names
  {
    PreemptAllOrNothing(w.core, pods, content);
  }

  lemma RolledBackPreemption(w: World, pods: seq<Pod>, base: Cluster, content: string -> nat)
    requires Sound(w, base, content) && w.core.tx == NoTx && Faithful(pods, content)
    requires Preempt(Begin(w.core).0, pods).1.Ok?
    ensures var back := Exec(Exec(Exec(w, DoBegin), DoPreempt(pods)), DoEnd(Revert));
      back.core == w.core && back.handles == w.handles + [Handle(pods, w.core.version + 1, false)]
  {
    OneCallRollsBack(w, DoPreempt(pods), base, content);
    PreemptIssues(Exec(w, DoBegin), pods, content);
  }

  /** Using a handle that is accepted now, whatever has become of its pods. */
  lemma AcceptedPutsBack(w: World, i: nat, pods: seq<Pod>)
    requires i < |w.handles| && w.handles[i] == Handle(pods, w.core.version, false)
    requires forall p :: p in pods ==> Addable(w.core.cluster, p.Val(), NameOf(w.core.names, p))
    ensures forall n :: n in w.core.cluster ==> HasMore(w, Exec(w, DoUnpreempt(i)), pods, n)
  {
    var s := w.core;
    PutBackSucceeds(s, pods, 0);
    assert pods[0..] == pods;
    forall n | n in s.cluster ensures HasMore(w, Exec(w, DoUnpreempt(i)), pods, n) {
      PutBackGives(s, pods, 0, n);
    }
  }

  /** Node `n` has the listed pods on top of what it had. */
  ghost predicate HasMore(w: World, v: World, pods: seq<Pod>, n: NodeName) {
    && n in w.core.cluster && n in v.core.cluster
    && v.core.cluster[n] == w.core.cluster[n] + At(pods, w.core.names, n)
  }

  /** A handle taken in a rolled-back transaction is accepted in the very next one, and then puts pods
      back that were never gone: every node ends up with a second copy of them. */
  lemma LostHandleDuplicatesPods(w: World, pods: seq<Pod>, base: Cluster, content: string -> nat)
    requires Sound(w, base, content) && w.core.tx == NoTx && Faithful(pods, content)
    requires Preempt(Begin(w.core).0, pods).1.Ok?
    ensures var back := Exec(Exec(Exec(w, DoBegin), DoPreempt(pods)), DoEnd(Revert));
      var again := Exec(back, DoBegin);
      && back.core == w.core
      && forall n :: n in w.core.cluster ==> HasMore(again, Exec(again, DoUnpreempt(|w.handles|)), pods, n)
  {
    RolledBackPreemption(w, pods, base, content);
    Preemptable(Begin(w.core).0, pods, content);
    var back := Exec(Exec(Exec(w, DoBegin), DoPreempt(pods)), DoEnd(Revert));
    AcceptedPutsBack(Exec(back, DoBegin), |w.handles|, pods);
  }

  lemma Preemptable(s: Core, pods: seq<Pod>, content: string -> nat)
    requires Uniform(s.cluster, content) && Faithful(pods, content) && Preempt(s, pods).1.Ok?
    ensures forall p :: p in pods ==> Addable(s.cluster, p.Val(), NameOf(s.names, p))
  {
    PreemptAllOrNothing(s, pods, content);
  }
}
