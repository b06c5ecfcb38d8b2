/** Runs of a cluster snapshot: any sequence of calls, with the function given to Transaction laid out
    between `Begin` and `End`. Whatever such a function decides along the way, each of its executions
    is one sequence of calls, so a statement over all sequences covers all functions. */
module Machine {
  import opened Pods
  import opened Undo
  import opened Operations

  /** `Unpreempt` names a handle by the order of issue; an index no handle has stands for nil. */
  datatype Call =
    | DoPreempt(pods: seq<Pod>)
    | DoUnpreempt(handle: nat)
    | DoSchedule(pods: seq<Pod>, placement: seq<NodeName>, assumed: bool, sched: Scheduler, opts: Options)
    | DoReset
    | DoBegin
    | DoEnd(outcome: Outcome)

  /** A snapshot with all handles it issued. The last two fields only record history: how many handles
      the open transaction found, and which handles were taken in a transaction that was rolled back. */
  datatype World = World(core: Core, handles: seq<Handle>, found: nat, lost: set<nat>)

  function Between(lo: nat, hi: nat): (r: set<nat>)
    ensures forall i :: i in r <==> lo <= i < hi
  {
    if hi <= lo then {} else Between(lo, hi - 1) + {hi - 1}
  }

  ghost predicate CanEnd(s: Core) {
    s.tx.Open? && s.tx.len <= |s.log|
  }

  ghost function Exec(w: World, call: Call): World {
    match call
    case DoPreempt(pods) =>
      var (t, r) := Preempt(w.core, pods);
      w.(core := t, handles := if r.Ok? then w.handles + [r.value] else w.handles)
    case DoUnpreempt(i) =>
      if i >= |w.handles| then w
      else
        var (t, h, _) := Unpreempt(w.core, w.handles[i]);
        w.(core := t, handles := w.handles[i := h])
    case DoSchedule(pods, placement, assumed, sched, opts) =>
      w.(core := Schedule(w.core, pods, placement, assumed, sched, opts).0)
    case DoReset => w.(core := Reset(w.core).0)
    case DoBegin =>
      if w.core.tx.Open? then w else w.(core := Begin(w.core).0, found := |w.handles|)
    case DoEnd(outcome) =>
      if !CanEnd(w.core) then w
      else if outcome.Commit? then w.(core := End(w.core, outcome))
      else w.(core := End(w.core, outcome), lost := w.lost + Between(w.found, |w.handles|))
  }

  ghost function Run(w: World, calls: seq<Call>): World {
    if calls == [] then w else Exec(Run(w, calls[..|calls| - 1]), calls[|calls| - 1])
  }

  /** What callers must respect: an object describes the pod its UID identifies, and no object whose own
      removal is still in the log is placed on another node than it was removed from. */
  ghost predicate Disciplined(w: World, call: Call, content: string -> nat) {
    match call
    case DoPreempt(pods) => Faithful(pods, content)
    case DoSchedule(pods, _, _, _, _) =>
      Faithful(pods, content) && SameNames(w.core.log, w.core.names, Exec(w, call).core.names)
    case _ => true
  }

  ghost predicate DisciplinedRun(w: World, calls: seq<Call>, content: string -> nat) {
    calls == [] || (
      && DisciplinedRun(w, calls[..|calls| - 1], content)
      && Disciplined(Run(w, calls[..|calls| - 1]), calls[|calls| - 1], content))
  }

  /** Where the log leads when it is undone down to its first `i` entries. */
  function Past(s: Core, i: nat): Cluster
    requires i <= |s.log|
  {
    UndoTo(s.cluster, s.log, s.names, i)
  }

  ghost predicate Like(c: Cluster, base: Cluster, content: string -> nat) {
    Uniform(c, content) && c.Keys == base.Keys
  }

  /** The log always leads back to the cluster the run started from, and inside a transaction also to
      a cluster of the same shape at its start. */
  ghost predicate Sound(w: World, base: Cluster, content: string -> nat) {
    && Like(w.core.cluster, base, content) && Uniform(base, content)
    && (forall h :: h in w.handles ==> Faithful(h.pods, content))
    && Past(w.core, 0) == base
    && (w.core.tx.Open? ==> w.core.tx.len <= |w.core.log| && Like(Past(w.core, w.core.tx.len), base, content))
    && (forall op :: op in w.core.log && op.ReAdd? ==> Addable(base, op.pod.Val(), NameOf(w.core.names, op.pod)))
  }

  ghost predicate Fresh(w: World, base: Cluster, content: string -> nat) {
    && w.core.cluster == base && w.core.log == [] && w.core.tx == NoTx
    && w.handles == [] && w.lost == {} && Uniform(base, content)
  }

  /** A call other than the end of a transaction only extends the log, or resets it. */
  lemma ExecExtends(w: World, call: Call, base: Cluster, content: string -> nat)
    requires Sound(w, base, content) && Disciplined(w, call, content) && !call.DoEnd? && !call.DoReset?
    ensures var t := Exec(w, call).core;
      && Extends(w.core, t) && Like(t.cluster, base, content)
      && (call.DoBegin? || t.tx == w.core.tx)
      && (forall op :: op in t.log && op.ReAdd? && op !in w.core.log ==>
          Addable(base, op.pod.Val(), NameOf(t.names, op.pod)))
  {
    var s := w.core;
    ExtendsReflexive(s);
    match call {
      case DoPreempt(pods) =>
        PreemptAllOrNothing(s, pods, content);
        PreemptLogsAddable(s, Preempt(s, pods).0, Preempt(s, pods).1, pods);
      case DoUnpreempt(i) =>
        if i < |w.handles| {
          assert w.handles[i] in w.handles;
          UnpreemptExact(s, w.handles[i], content);
          PutBackLogs(s, w.handles[i].pods, 0);
        }
      case DoSchedule(pods, placement, assumed, sched, opts) =>
        ScheduleLeavesNoTrace(s, pods, placement, assumed, sched, opts, content);
      case DoBegin =>
        BeginExtends(s);
    }
  }

  lemma BeginExtends(s: Core)
    ensures Extends(s, Begin(s).0)
  {
    ExtendsReflexive(s);
  }

  lemma ReAddsAddable(c: Cluster, log: seq<UndoOp>, names: map<Pod, NodeName>, pods: seq<Pod>, op: UndoOp)
    requires AllResident(c, names, pods) && op in log + ReAdds(pods) && op !in log && op.ReAdd?
    ensures Addable(c, op.pod.Val(), NameOf(names, op.pod))
  {
    var k :| 0 <= k < |log + ReAdds(pods)| && (log + ReAdds(pods))[k] == op;
    assert op == ReAdd(pods[k - |log|]);
  }

  lemma PreemptLogsAddable(s: Core, t: Core, r: Result<Handle>, pods: seq<Pod>)
    requires r.Ok? ==> t.log == s.log + ReAdds(pods) && t.names == s.names && AllResident(s.cluster, s.names, pods)
    requires r.Err? ==> t == s
    ensures forall op :: op in t.log && op !in s.log && op.ReAdd? ==>
        Addable(s.cluster, op.pod.Val(), NameOf(s.names, op.pod))
  {
    if r.Ok? {
      forall op | op in t.log && op !in s.log
          && op.ReAdd? ensures Addable(s.cluster, op.pod.Val(), NameOf(s.names, op.pod)) {
        ReAddsAddable(s.cluster, s.log, s.names, pods, op);
      }
    }
  }

  lemma {:induction false} PutBackLogs(s: Core, pods: seq<Pod>, k: nat)
    requires k <= |pods|
    ensures forall op :: op in PutBack(s.cluster, s.log, s.names, pods, k).log && op.ReAdd? ==> op in s.log
    decreases |pods| - k
  {
    if k < |pods| {
      PutBackLogs(s, pods, k + 1);
    }
  }

  /** Extending a sound log keeps it sound. */
  lemma ExtendedSound(w: World, v: World, base: Cluster, content: string -> nat)
    requires Sound(w, base, content) && Extends(w.core, v.core) && Like(v.core.cluster, base, content)
    requires v.core.tx == w.core.tx
    requires forall h :: h in v.handles ==> Faithful(h.pods, content)
    requires forall op :: op in v.core.log && op.ReAdd? && op !in w.core.log ==>
        Addable(base, op.pod.Val(), NameOf(v.core.names, op.pod))
    ensures Sound(v, base, content)
  {
    ExtendsKeepsHistory(w.core, v.core, 0);
    if w.core.tx.Open? {
      ExtendsKeepsHistory(w.core, v.core, w.core.tx.len);
    }
  }

  lemma RestoredSound(w: World, base: Cluster, content: string -> nat, i: nat)
    requires Sound(w, base, content) && i <= |w.core.log| && Like(Past(w.core, i), base, content)
    ensures var t := RestoreTo(w.core, i);
      && Past(t, 0) == base && Like(t.cluster, base, content)
      && (forall op :: op in t.log && op.ReAdd? ==> Addable(base, op.pod.Val(), NameOf(t.names, op.pod)))
  {
    UndoStages(w.core.cluster, w.core.log, w.core.names, 0, i);
  }

  lemma EndSound(w: World, outcome: Outcome, base: Cluster, content: string -> nat)
    requires Sound(w, base, content) && CanEnd(w.core)
    ensures Sound(Exec(w, DoEnd(outcome)), base, content)
  {
    if !outcome.Commit? {
      RestoredSound(w, base, content, w.core.tx.len);
    }
  }

  lemma ExecSound(w: World, call: Call, base: Cluster, content: string -> nat)
    requires Sound(w, base, content) && Disciplined(w, call, content)
    ensures Sound(Exec(w, call), base, content)
  {
    match call
    case DoEnd(outcome) =>
      if CanEnd(w.core) { EndSound(w, outcome, base, content); }
    case DoReset =>
      if w.core.tx.NoTx? && |w.core.log| > 0 { RestoredSound(w, base, content, 0); }
    case DoBegin =>
      ExecExtends(w, call, base, content);
      BeginSound(w, base, content);
    case _ =>
      ExecExtends(w, call, base, content);
      HandlesFaithful(w, call, base, content);
      ExtendedSound(w, Exec(w, call), base, content);
  }

  lemma BeginSound(w: World, base: Cluster, content: string -> nat)
    requires Sound(w, base, content)
    ensures Sound(Exec(w, DoBegin), base, content)
  {}

  lemma HandlesFaithful(w: World, call: Call, base: Cluster, content: string -> nat)
    requires Sound(w, base, content) && Disciplined(w, call, content)
    ensures forall h :: h in Exec(w, call).handles ==> Faithful(h.pods, content)
  {}

  lemma {:induction false} RunSound(w: World, calls: seq<Call>, base: Cluster, content: string -> nat)
    requires Sound(w, base, content) && DisciplinedRun(w, calls, content)
    ensures Sound(Run(w, calls), base, content)
  {
    if calls != [] {
      var front := calls[..|calls| - 1];
      RunSound(w, front, base, content);
      ExecSound(Run(w, front), calls[|calls| - 1], base, content);
    }
  }

  /** From any point of any run, ResetMutations puts every node back to where the run started and empties the
      log. It raises the preemption version exactly when there was something to undo. */
  lemma ResetRestoresStart(w: World, calls: seq<Call>, base: Cluster, content: string -> nat)
    requires Fresh(w, base, content) && DisciplinedRun(w, calls, content)
    ensures var (t, r) := Reset(Run(w, calls).core);
      && (r.Ok? <==> Run(w, calls).core.tx.NoTx?)
      && (r.Err? ==> t == Run(w, calls).core && r.error == InTransaction)
      && (r.Ok? ==>
            var s := Run(w, calls).core;
            t == s.(cluster := base, log := [], version := s.version + if s.log == [] then 0 else 1))
  {
    RunSound(w, calls, base, content);
  }

  ghost predicate NoEnd(calls: seq<Call>) {
    forall c :: c in calls ==> !c.DoEnd?
  }

  lemma {:induction false} BodyExtends(w: World, body: seq<Call>, base: Cluster, content: string -> nat)
    requires Sound(w, base, content) && DisciplinedRun(w, body, content) && NoEnd(body) && w.core.tx.Open?
    ensures Extends(w.core, Run(w, body).core) && Run(w, body).core.tx == w.core.tx
  {
    if body == [] {
      ExtendsReflexive(w.core);
    } else {
      var front, last := body[..|body| - 1], body[|body| - 1];
      BodyExtends(w, front, base, content);
      RunSound(w, front, base, content);
      var v := Run(w, front);
      assert last in body;
      if last.DoReset? || last.DoBegin? {
        assert Exec(v, last).core == v.core;
      } else {
        ExecExtends(v, last, base, content);
        ExtendsTransitive(w.core, v.core, Exec(v, last).core);
      }
    }
  }

  /** The start of a transaction notes the log and the preemption version and raises that version, and
      until its end no other transaction starts and nothing is reset. If its function returns Revert or an error,
      whatever calls it made, the pods on every node, the whole log and the preemption version are
      exactly those at its start. If it commits, the pods, the log and the names are exactly those its
      function left, with the version raised once more, and all of it on top of what was there, so that the
      start can still be restored. No handle is touched. */
  lemma TransactionRollsBack(w: World, body: seq<Call>, outcome: Outcome, base: Cluster, content: string -> nat)
    requires Sound(w, base, content) && w.core.tx.NoTx? && NoEnd(body)
    requires DisciplinedRun(Exec(w, DoBegin), body, content)
    ensures var b := Exec(w, DoBegin);
      var v := Run(b, body);
      var e := Exec(v, DoEnd(outcome));
      && b.core == w.core.(tx := Open(|w.core.log|, w.core.version), version := w.core.version + 1)
      && b.handles == w.handles && e.handles == v.handles
      && Begin(v.core) == Reset(v.core) == (v.core, Err(InTransaction))
      && (!outcome.Commit? ==> e.core == w.core.(names := v.core.names))
      && (outcome.Commit? ==>
            e.core == v.core.(version := v.core.version + 1, tx := NoTx) && Extends(w.core, e.core))
  {
    var b := Exec(w, DoBegin);
    ExecSound(w, DoBegin, base, content);
    BodyExtends(b, body, base, content);
  }
}
