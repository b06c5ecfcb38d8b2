/** What SchedulePods answers, told over the decisions of the scheduling cycles alone. */
module Batches {
  import opened Pods
  import opened Undo
  import opened Operations

  /** The nodes once the pods reported as scheduled are on them. */
  ghost function Grown(c: Cluster, rs: seq<SchedulingResult>): Cluster {
    if rs == [] then c else GrownBy(Grown(c, rs[..|rs| - 1]), rs[|rs| - 1])
  }

  ghost function GrownBy(c: Cluster, r: SchedulingResult): Cluster {
    if r.status.Success? && r.node in c then Add(c, r.pod.Val(), r.node) else c
  }

  /** What must be reported of a pod, on nodes `c`, when its cycle came to `d`: the refusal of the cycle, an
      internal error if the host is not known or the pod has no key, the verdict of the Reserve plugins. */
  ghost predicate Reported(c: Cluster, p: Pod, d: Decision, r: SchedulingResult) {
    && r.pod == p
    && match d
       case NoFramework => false
       case NoHost(refusal) => r.status == Rejected(refusal) && r.node == ""
       case Host(n, reserve) =>
         if p.uid == "" || n !in c then r.status == Rejected(Internal) && r.node == ""
         else r.status == reserve && r.node == if reserve.Success? then n else ""
  }

  /** What the cycle of the `k`-th pod decides, on the nodes that the results before it have led to. */
  ghost function DecisionAt(c: Cluster, pods: seq<Pod>, sched: Scheduler, rs: seq<SchedulingResult>, k: nat): Decision
    requires k < |pods| && k <= |rs|
  {
    sched(Grown(c, rs[..k]), pods[k].Val(), k)
  }

  /** The last attempt failed, and the call stops at failures. */
  ghost predicate Halted(rs: seq<SchedulingResult>, stop: bool) {
    stop && rs != [] && !rs[|rs| - 1].status.Success?
  }

  ghost predicate AllReported(c: Cluster, pods: seq<Pod>, sched: Scheduler, rs: seq<SchedulingResult>) {
    && |rs| <= |pods|
    && forall k :: 0 <= k < |rs| ==> Reported(Grown(c, rs[..k]), pods[k], DecisionAt(c, pods, sched, rs, k), rs[k])
  }

  /** After these results no further pod is attempted. */
  ghost predicate EndsHere(c: Cluster, pods: seq<Pod>, sched: Scheduler, stop: bool, rs: seq<SchedulingResult>)
    requires |rs| < |pods|
  {
    Halted(rs, stop) || DecisionAt(c, pods, sched, rs, |rs|).NoFramework?
  }

  /** The pods are attempted in order, each reported as its cycle decides, to the end of the list, or to a
      failure if the call stops there, or to a pod that has no framework. */
  ghost predicate Story(c: Cluster, pods: seq<Pod>, sched: Scheduler, stop: bool, rs: seq<SchedulingResult>) {
    && AllReported(c, pods, sched, rs)
    && FrontSucceeds(rs, stop) && (|rs| < |pods| ==> EndsHere(c, pods, sched, stop, rs))
  }

  /** After these results one more pod is attempted, and it has no framework. */
  ghost predicate Errs(c: Cluster, pods: seq<Pod>, sched: Scheduler, stop: bool, rs: seq<SchedulingResult>) {
    |rs| < |pods| && !Halted(rs, stop) && DecisionAt(c, pods, sched, rs, |rs|).NoFramework?
  }

  /** One operation to forget each pod reported as scheduled. */
  ghost function Forgets(rs: seq<SchedulingResult>): seq<UndoOp> {
    if rs == [] then [] else Forgets(rs[..|rs| - 1]) + ForgetOf(rs[|rs| - 1])
  }

  ghost function ForgetOf(r: SchedulingResult): seq<UndoOp> {
    if r.status.Success? then [Forget(r.pod.Val(), r.node)] else []
  }

  /** Each object reported as scheduled names its node. */
  ghost function Renamed(names: map<Pod, NodeName>, rs: seq<SchedulingResult>): map<Pod, NodeName> {
    if rs == [] then names else RenamedBy(Renamed(names, rs[..|rs| - 1]), rs[|rs| - 1])
  }

  ghost function RenamedBy(names: map<Pod, NodeName>, r: SchedulingResult): map<Pod, NodeName> {
    if r.status.Success? then names[r.pod := r.node] else names
  }

  ghost predicate FrontSucceeds(rs: seq<SchedulingResult>, stop: bool) {
    forall k :: 0 <= k < |rs| - 1 && stop ==> rs[k].status.Success?
  }

  /** What the loop has done is what the results say. */
  ghost predicate AsTold(s: Core, b: Batch) {
    && b.cluster == Grown(s.cluster, b.results)
    && b.log == s.log + Forgets(b.results) && b.names == Renamed(s.names, b.results)
  }

  ghost predicate PhaseRight(c: Cluster, pods: seq<Pod>, sched: Scheduler, stop: bool, b: Batch) {
    && |b.results| <= |pods|
    && (b.phase.Stopped? <==> Halted(b.results, stop))
    && (b.phase.Going? ==> |b.results| == |pods|)
    && (b.phase.Failed? ==> |b.results| < |pods| && DecisionAt(c, pods, sched, b.results, |b.results|).NoFramework?)
  }

  /** The loop after all of `pods`. */
  ghost predicate Told(s: Core, pods: seq<Pod>, sched: Scheduler, stop: bool, b: Batch) {
    && AllReported(s.cluster, pods, sched, b.results) && FrontSucceeds(b.results, stop)
    && AsTold(s, b) && PhaseRight(s.cluster, pods, sched, stop, b)
  }

  lemma GrownSnoc(c: Cluster, rs: seq<SchedulingResult>, r: SchedulingResult)
    ensures Grown(c, rs + [r]) == GrownBy(Grown(c, rs), r)
  {
    assert (rs + [r])[..|rs|] == rs;
  }

  lemma ForgetsSnoc(rs: seq<SchedulingResult>, r: SchedulingResult)
    ensures Forgets(rs + [r]) == Forgets(rs) + ForgetOf(r)
  {
    assert (rs + [r])[..|rs|] == rs;
  }

  lemma RenamedSnoc(names: map<Pod, NodeName>, rs: seq<SchedulingResult>, r: SchedulingResult)
    ensures Renamed(names, rs + [r]) == RenamedBy(Renamed(names, rs), r)
  {
    assert (rs + [r])[..|rs|] == rs;
  }

  lemma ReportedSnoc(c: Cluster, front: seq<Pod>, p: Pod, sched: Scheduler, rs: seq<SchedulingResult>,
                     r: SchedulingResult)
    requires AllReported(c, front, sched, rs) && |rs| == |front|
    requires Reported(Grown(c, rs), p, sched(Grown(c, rs), p.Val(), |front|), r)
    ensures AllReported(c, front + [p], sched, rs + [r])
  {
    var pods, all := front + [p], rs + [r];
    forall k | 0 <= k < |all|
      ensures Reported(Grown(c, all[..k]), pods[k], DecisionAt(c, pods, sched, all, k), all[k])
    {
      if k < |rs| {
        assert all[..k] == rs[..k];
        assert Reported(Grown(c, rs[..k]), front[k], DecisionAt(c, front, sched, rs, k), rs[k]);
      } else {
        assert all[..k] == rs;
      }
    }
  }

  lemma ReportedLonger(c: Cluster, front: seq<Pod>, p: Pod, sched: Scheduler, rs: seq<SchedulingResult>)
    requires AllReported(c, front, sched, rs)
    ensures AllReported(c, front + [p], sched, rs)
  {
    forall k | 0 <= k < |rs|
      ensures Reported(Grown(c, rs[..k]), (front + [p])[k], DecisionAt(c, front + [p], sched, rs, k), rs[k])
    {
      assert Reported(Grown(c, rs[..k]), front[k], DecisionAt(c, front, sched, rs, k), rs[k]);
    }
  }

  /** One turn of the loop does what its one new result says. */
  ghost predicate Turned(b: Batch, e: Batch, p: Pod, d: Decision, stop: bool, r: SchedulingResult) {
    && e.results == b.results + [r] && Reported(b.cluster, p, d, r)
    && (e.phase.Stopped? <==> stop && !r.status.Success?) && !e.phase.Failed?
    && e.cluster == GrownBy(b.cluster, r) && e.log == b.log + ForgetOf(r) && e.names == RenamedBy(b.names, r)
  }

  /** What is reported of a pod whose cycle came to `d`. */
  ghost function ResultOf(c: Cluster, p: Pod, d: Decision): SchedulingResult
    requires !d.NoFramework?
  {
    var status := ScheduleOne(c, p.Val(), d).1;
    SchedulingResult(p, status, if status.Success? && d.Host? then d.node else "")
  }

  lemma StepGrows(c: Cluster, p: Pod, d: Decision, content: string -> nat)
    requires !d.NoFramework? && Uniform(c, content) && p.request == content(p.uid)
    ensures ScheduleOne(c, p.Val(), d).0 == GrownBy(c, ResultOf(c, p, d))
    ensures ResultOf(c, p, d).status.Success? ==> d.Host?
    ensures Reported(c, p, d, ResultOf(c, p, d))
  {
    ScheduleOneExact(c, p.Val(), d, content);
  }

  /** One turn, told by its one new result. */
  lemma StepIs(b: Batch, p: Pod, d: Decision, stop: bool)
    requires !d.NoFramework? && (ResultOf(b.cluster, p, d).status.Success? ==> d.Host?)
    ensures var r := ResultOf(b.cluster, p, d);
      BatchStep(b, p, d, stop) ==
      Batch(ScheduleOne(b.cluster, p.Val(), d).0, b.log + ForgetOf(r), RenamedBy(b.names, r), b.results + [r],
            if stop && !r.status.Success? then Stopped else Going)
  {
    assert b.log + [] == b.log;
  }

  lemma StepReports(b: Batch, p: Pod, d: Decision, stop: bool, content: string -> nat)
    requires !d.NoFramework? && Uniform(b.cluster, content) && p.request == content(p.uid)
    ensures Turned(b, BatchStep(b, p, d, stop), p, d, stop, ResultOf(b.cluster, p, d))
  {
    StepGrows(b.cluster, p, d, content);
    StepIs(b, p, d, stop);
  }

  lemma DoneTurn(s: Core, b: Batch, e: Batch, p: Pod, d: Decision, stop: bool, r: SchedulingResult)
    requires AsTold(s, b) && Turned(b, e, p, d, stop, r)
    ensures AsTold(s, e)
  {
    GrownSnoc(s.cluster, b.results, r);
    ForgetsSnoc(b.results, r);
    RenamedSnoc(s.names, b.results, r);
    assert s.log + Forgets(b.results) + ForgetOf(r) == s.log + (Forgets(b.results) + ForgetOf(r));
  }

  lemma FrontTurn(rs: seq<SchedulingResult>, r: SchedulingResult, stop: bool)
    requires FrontSucceeds(rs, stop) && !Halted(rs, stop)
    ensures FrontSucceeds(rs + [r], stop) && (Halted(rs + [r], stop) <==> stop && !r.status.Success?)
  {}

  lemma ToldTurn(s: Core, front: seq<Pod>, p: Pod, sched: Scheduler, stop: bool, b: Batch, e: Batch,
                 r: SchedulingResult)
    requires Told(s, front, sched, stop, b) && b.phase.Going?
    requires Turned(b, e, p, sched(b.cluster, p.Val(), |front|), stop, r)
    ensures Told(s, front + [p], sched, stop, e)
  {
    DoneTurn(s, b, e, p, sched(b.cluster, p.Val(), |front|), stop, r);
    FrontTurn(b.results, r, stop);
    ReportedSnoc(s.cluster, front, p, sched, b.results, r);
  }

  lemma ToldFailed(s: Core, front: seq<Pod>, p: Pod, sched: Scheduler, stop: bool, b: Batch)
    requires Told(s, front, sched, stop, b) && b.phase.Going? && sched(b.cluster, p.Val(), |front|).NoFramework?
    ensures Told(s, front + [p], sched, stop, b.(phase := Failed))
  {
    ReportedLonger(s.cluster, front, p, sched, b.results);
    assert b.results[..|b.results|] == b.results;
  }

  lemma ToldStep(s: Core, front: seq<Pod>, p: Pod, sched: Scheduler, stop: bool, b: Batch, content: string -> nat)
    requires Told(s, front, sched, stop, b) && b.phase.Going? && Uniform(b.cluster, content)
        && p.request == content(p.uid)
    ensures Told(s, front + [p], sched, stop, BatchStep(b, p, sched(b.cluster, p.Val(), |front|), stop))
  {
    var d := sched(b.cluster, p.Val(), |front|);
    if d.NoFramework? {
      ToldFailed(s, front, p, sched, stop, b);
    } else {
      StepReports(b, p, d, stop, content);
      ToldTurn(s, front, p, sched, stop, b, BatchStep(b, p, d, stop), ResultOf(b.cluster, p, d));
    }
  }

  lemma ToldLonger(s: Core, front: seq<Pod>, p: Pod, sched: Scheduler, stop: bool, b: Batch)
    requires Told(s, front, sched, stop, b) && !b.phase.Going?
    ensures Told(s, front + [p], sched, stop, b)
  {
    ReportedLonger(s.cluster, front, p, sched, b.results);
  }

  lemma LoopTurn(s: Core, front: seq<Pod>, p: Pod, sched: Scheduler, stop: bool)
    ensures var b := ScheduleAll(s, front, sched, stop);
      ScheduleAll(s, front + [p], sched, stop) ==
      if b.phase.Going? then BatchStep(b, p, sched(b.cluster, p.Val(), |front|), stop) else b
  {
    assert (front + [p])[..|front|] == front;
  }

  lemma ToldNext(s: Core, front: seq<Pod>, p: Pod, sched: Scheduler, stop: bool, content: string -> nat)
    requires Uniform(s.cluster, content) && Faithful(front, content) && p.request == content(p.uid)
    requires Told(s, front, sched, stop, ScheduleAll(s, front, sched, stop))
    ensures Told(s, front + [p], sched, stop, ScheduleAll(s, front + [p], sched, stop))
  {
    var b := ScheduleAll(s, front, sched, stop);
    LoopTurn(s, front, p, sched, stop);
    if b.phase.Going? {
      BatchTakenBack(s, front, sched, stop, s.names, content);
      ToldStep(s, front, p, sched, stop, b, content);
    } else {
      ToldLonger(s, front, p, sched, stop, b);
    }
  }

  lemma {:induction false} LoopTells(s: Core, pods: seq<Pod>, sched: Scheduler, stop: bool, content: string -> nat)
    requires Uniform(s.cluster, content) && Faithful(pods, content)
    ensures Told(s, pods, sched, stop, ScheduleAll(s, pods, sched, stop))
  {
    if pods != [] {
      var front, p := pods[..|pods| - 1], pods[|pods| - 1];
      assert pods == front + [p] && p in pods;
      LoopTells(s, front, sched, stop, content);
      ToldNext(s, front, p, sched, stop, content);
    }
  }

  lemma ToldIsStory(s: Core, pods: seq<Pod>, sched: Scheduler, stop: bool, b: Batch)
    requires Told(s, pods, sched, stop, b)
    ensures Story(s.cluster, pods, sched, stop, b.results)
    ensures b.phase.Failed? <==> Errs(s.cluster, pods, sched, stop, b.results)
  {}

  /** A call says and does exactly what the cycles decide. It errs exactly when the placement could not be
      assumed or an attempted pod has no framework; a pod that cannot be scheduled never is an error. Unless
      it errs or is a dry run, the pods reported as scheduled are on their nodes, with one operation each to
      forget them; in every case the objects reported as scheduled name their nodes. */
  lemma ScheduleTells(s: Core, pods: seq<Pod>, placement: seq<NodeName>, assumed: bool, sched: Scheduler,
                      opts: Options, content: string -> nat)
    requires Schedulable(s, pods, content)
    ensures var (t, r) := Schedule(s, pods, placement, assumed, sched, opts);
      var rs := Collected(s, pods, placement, assumed, sched, opts);
      && (placement == [] ==> t == s && r == Ok([]) && rs == [])
      && (placement != [] && !assumed ==> t == s && r == Err(PlacementFailed) && rs == [])
      && (placement != [] && assumed ==>
            && Story(s.cluster, pods, sched, opts.stopOnFailure, rs)
            && (Errs(s.cluster, pods, sched, opts.stopOnFailure, rs) ==> r == Err(NoFrameworkForPod))
            && (!Errs(s.cluster, pods, sched, opts.stopOnFailure, rs) ==> r == Ok(rs))
            && t.names == Renamed(s.names, rs)
            && (r.Ok? && !opts.dryRun ==> t.cluster == Grown(s.cluster, rs) && t.log == s.log + Forgets(rs)))
  {
    LoopTells(s, pods, sched, opts.stopOnFailure, content);
    ToldIsStory(s, pods, sched, opts.stopOnFailure, ScheduleAll(s, pods, sched, opts.stopOnFailure));
  }

  /** There is only one such story, so this says what the results are. */
  lemma StoryUnique(c: Cluster, pods: seq<Pod>, sched: Scheduler, stop: bool, a: seq<SchedulingResult>,
                    b: seq<SchedulingResult>)
    requires Story(c, pods, sched, stop, a) && Story(c, pods, sched, stop, b)
    ensures a == b
  {
    if |a| <= |b| {
      StoryPrefix(c, pods, sched, stop, a, b);
    } else {
      StoryPrefix(c, pods, sched, stop, b, a);
    }
  }

  lemma StoryPrefix(c: Cluster, pods: seq<Pod>, sched: Scheduler, stop: bool, a: seq<SchedulingResult>,
                    b: seq<SchedulingResult>)
    requires Story(c, pods, sched, stop, a) && Story(c, pods, sched, stop, b) && |a| <= |b|
    ensures a == b
  {
    SameSoFar(c, pods, sched, a, b, |a|);
    assert a == a[..|a|] && b == b[..|b|];
    if |a| < |b| {
      GoesOn(c, pods, sched, stop, b, |a|);
    }
  }

  lemma GoesOn(c: Cluster, pods: seq<Pod>, sched: Scheduler, stop: bool, b: seq<SchedulingResult>, k: nat)
    requires Story(c, pods, sched, stop, b) && k < |b|
    ensures !EndsHere(c, pods, sched, stop, b[..k])
  {
    assert b[..k][..k] == b[..k];
    assert Reported(Grown(c, b[..k]), pods[k], DecisionAt(c, pods, sched, b, k), b[k]);
    if k > 0 {
      assert b[..k][k - 1] == b[k - 1];
    }
  }

  lemma SameReport(c: Cluster, p: Pod, d: Decision, a: SchedulingResult, b: SchedulingResult)
    requires Reported(c, p, d, a) && Reported(c, p, d, b)
    ensures a == b
  {}

  lemma ReportedAt(c: Cluster, pods: seq<Pod>, sched: Scheduler, rs: seq<SchedulingResult>, k: nat, before: Cluster)
    requires AllReported(c, pods, sched, rs) && k < |rs| && before == Grown(c, rs[..k])
    ensures k < |pods| && Reported(before, pods[k], sched(before, pods[k].Val(), k), rs[k])
  {
    assert Reported(Grown(c, rs[..k]), pods[k], DecisionAt(c, pods, sched, rs, k), rs[k]);
  }

  lemma SameNext(c: Cluster, pods: seq<Pod>, sched: Scheduler, a: seq<SchedulingResult>, b: seq<SchedulingResult>,
                 k: nat)
    requires AllReported(c, pods, sched, a) && AllReported(c, pods, sched, b) && k < |a| && k < |b| && a[..k] == b[..k]
    ensures a[k] == b[k]
  {
    var before := Grown(c, a[..k]);
    ReportedAt(c, pods, sched, a, k, before);
    ReportedAt(c, pods, sched, b, k, before);
    SameReport(before, pods[k], sched(before, pods[k].Val(), k), a[k], b[k]);
  }

  lemma OneLonger(a: seq<SchedulingResult>, b: seq<SchedulingResult>, k: nat)
    requires k < |a| && k < |b| && a[..k] == b[..k] && a[k] == b[k]
    ensures a[..k + 1] == b[..k + 1]
  {
    assert a[..k + 1] == a[..k] + [a[k]] && b[..k + 1] == b[..k] + [b[k]];
  }

  lemma {:induction false} SameSoFar(c: Cluster, pods: seq<Pod>, sched: Scheduler, a: seq<SchedulingResult>,
                                     b: seq<SchedulingResult>, k: nat)
    requires AllReported(c, pods, sched, a) && AllReported(c, pods, sched, b) && k <= |a| && k <= |b|
    ensures a[..k] == b[..k]
  {
    if k > 0 {
      SameSoFar(c, pods, sched, a, b, k - 1);
      SameNext(c, pods, sched, a, b, k - 1);
      OneLonger(a, b, k - 1);
    }
  }
}
