/** The calls of a cluster snapshot as functions on values, and what each of them guarantees. */
module Operations {
  import opened Pods
  import opened Undo

  datatype Error =
    | NoNodeName
    | NotPreempted
    | NilHandle
    | StaleHandle
    | UsedHandle
    | NotPutBack
    | InTransaction
    | NoFrameworkForPod
    | PlacementFailed
    | UpdateFailed

  datatype Result<+T> = Ok(value: T) | Err(error: Error)

  /** The ticket PreemptPods hands out. */
  datatype Handle = Handle(pods: seq<Pod>, version: nat, reverted: bool)

  ghost predicate Faithful(pods: seq<Pod>, content: string -> nat) {
    forall p :: p in pods ==> p.request == content(p.uid)
  }

  /** Of the listed pods, those whose object names node `n`. */
  function At(pods: seq<Pod>, names: map<Pod, NodeName>, n: NodeName): multiset<PodVal> {
    if pods == [] then multiset{}
    else At(pods[1..], names, n) + (if NameOf(names, pods[0]) == n then multiset{pods[0].Val()} else multiset{})
  }

  lemma {:induction false} AtAppend(pods: seq<Pod>, p: Pod, names: map<Pod, NodeName>, n: NodeName)
    ensures At(pods + [p], names, n)
         == At(pods, names, n) + (if NameOf(names, p) == n then multiset{p.Val()} else multiset{})
  {
    if pods == [] {
      assert [p][1..] == [];
      assert [] + [p] == [p];
      assert At([p], names, n) == At([], names, n) + (if NameOf(names, p) == n then multiset{p.Val()} else multiset{});
    } else {
      assert (pods + [p])[1..] == pods[1..] + [p];
      AtAppend(pods[1..], p, names, n);
    }
  }

  lemma {:induction false} AtReadsOwnNames(pods: seq<Pod>, a: map<Pod, NodeName>, b: map<Pod, NodeName>, n: NodeName)
    requires forall p :: p in pods ==> NameOf(a, p) == NameOf(b, p)
    ensures At(pods, a, n) == At(pods, b, n)
  {
    if pods != [] {
      assert pods[0] in pods;
      AtReadsOwnNames(pods[1..], a, b, n);
    }
  }

  // ----- PreemptPods

  /** Progress of a loop over pods: `ok` is false from the first failure on. */
  datatype Sweep = Sweep(cluster: Cluster, log: seq<UndoOp>, ok: bool)

  /** The removal loop of PreemptPods after all of `pods`; it stops at the first pod it cannot remove. */
  function RemoveAll(c: Cluster, log: seq<UndoOp>, names: map<Pod, NodeName>, pods: seq<Pod>): (w: Sweep)
    ensures log <= w.log
  {
    if pods == [] then Sweep(c, log, true)
    else
      var prev := RemoveAll(c, log, names, pods[..|pods| - 1]);
      var p := pods[|pods| - 1];
      var n := NameOf(names, p);
      if prev.ok && Removable(prev.cluster, p.Val(), n) then
        Sweep(Pods.Remove(prev.cluster, p.Val(), n), prev.log + [ReAdd(p)], true)
      else
        Sweep(prev.cluster, prev.log, false)
  }

  function ReAdds(pods: seq<Pod>): (ops: seq<UndoOp>) {
    seq(|pods|, i requires 0 <= i < |pods| => ReAdd(pods[i]))
  }

  function Preempt(s: Core, pods: seq<Pod>): (Core, Result<Handle>) {
    if exists p :: p in pods && NameOf(s.names, p) == "" then (s, Err(NoNodeName))
    else
      var w := RemoveAll(s.cluster, s.log, s.names, pods);
      var t := s.(cluster := w.cluster, log := w.log);
      if w.ok then (t, Ok(Handle(pods, s.version, false)))
      else (RestoreTo(t, |s.log|), Err(NotPreempted))
  }

  /** What the caller must get right for all of `pods` to be there to preempt. A pod listed twice has
      to be resident twice. */
  ghost predicate AllResident(c: Cluster, names: map<Pod, NodeName>, pods: seq<Pod>) {
    && (forall p :: p in pods ==> Addable(c, p.Val(), NameOf(names, p)))
    && (forall n :: n in c ==> At(pods, names, n) <= c[n])
  }

  lemma FrontNotResident(s: Core, front: seq<Pod>, p: Pod)
    requires !AllResident(s.cluster, s.names, front)
    ensures !AllResident(s.cluster, s.names, front + [p])
  {
    var pods := front + [p];
    if AllResident(s.cluster, s.names, pods) {
      forall q | q in front ensures Addable(s.cluster, q.Val(), NameOf(s.names, q)) {
        assert q in pods;
      }
      forall n | n in s.cluster ensures At(front, s.names, n) <= s.cluster[n] {
        AtAppend(front, p, s.names, n);
      }
    }
  }

  function With(s: Core, w: Sweep): Core {
    s.(cluster := w.cluster, log := w.log)
  }

  lemma RemoveStep(s: Core, prev: Sweep, p: Pod, content: string -> nat)
    requires Extends(s, With(s, prev)) && Uniform(prev.cluster, content) && p.request == content(p.uid)
    requires Removable(prev.cluster, p.Val(), NameOf(s.names, p))
    ensures var c := Pods.Remove(prev.cluster, p.Val(), NameOf(s.names, p));
      && Extends(s, With(s, Sweep(c, prev.log + [ReAdd(p)], true)))
      && Uniform(c, content) && c.Keys == prev.cluster.Keys
  {
    var n := NameOf(s.names, p);
    AddUndoesRemove(prev.cluster, p.Val(), n, content);
    var c := Pods.Remove(prev.cluster, p.Val(), n);
    ExtendByOne(With(s, prev), c, ReAdd(p));
    ExtendsTransitive(s, With(s, prev), With(s, Sweep(c, prev.log + [ReAdd(p)], true)));
  }

  /** However far the removal loop got, the log takes back exactly what it did. */
  lemma {:induction false} RemoveAllExtends(s: Core, pods: seq<Pod>, content: string -> nat)
    requires Uniform(s.cluster, content) && Faithful(pods, content)
    ensures var w := RemoveAll(s.cluster, s.log, s.names, pods);
      Extends(s, With(s, w)) && Uniform(w.cluster, content) && w.cluster.Keys == s.cluster.Keys
  {
    if pods == [] {
      ExtendsReflexive(s);
    } else {
      var front, p := pods[..|pods| - 1], pods[|pods| - 1];
      RemoveAllExtends(s, front, content);
      var prev := RemoveAll(s.cluster, s.log, s.names, front);
      if prev.ok && Removable(prev.cluster, p.Val(), NameOf(s.names, p)) {
        assert p in pods;
        RemoveStep(s, prev, p, content);
      }
    }
  }

  lemma {:induction false} RemoveAllUniform(s: Core, pods: seq<Pod>, content: string -> nat)
    requires Uniform(s.cluster, content) && Faithful(pods, content)
    ensures var w := RemoveAll(s.cluster, s.log, s.names, pods);
      Uniform(w.cluster, content) && w.cluster.Keys == s.cluster.Keys
  {
    RemoveAllExtends(s, pods, content);
  }

  lemma RemoveAt(c: Cluster, p: Pod, m: NodeName, n: NodeName, content: string -> nat)
    requires Uniform(c, content) && p.request == content(p.uid) && Removable(c, p.Val(), m) && n in c
    ensures c[n] == Pods.Remove(c, p.Val(), m)[n] + (if m == n then multiset{p.Val()} else multiset{})
  {
    RemoveTakesEqual(c, p.Val(), m, content);
  }

  function Without(prev: Sweep, p: Pod, n: NodeName): Sweep
    requires Removable(prev.cluster, p.Val(), n)
  {
    Sweep(Pods.Remove(prev.cluster, p.Val(), n), prev.log + [ReAdd(p)], true)
  }

  /** One more turn of a removal loop that has not failed. */
  lemma RemoveAllTurn(s: Core, front: seq<Pod>, p: Pod)
    requires RemoveAll(s.cluster, s.log, s.names, front + [p]).ok
    ensures var prev := RemoveAll(s.cluster, s.log, s.names, front);
      && prev.ok && Removable(prev.cluster, p.Val(), NameOf(s.names, p))
      && RemoveAll(s.cluster, s.log, s.names, front + [p]) == Without(prev, p, NameOf(s.names, p))
  {
    assert (front + [p])[..|front|] == front;
  }

  /** What a removal loop that runs to its end has done at node `n`: taken exactly the pods listed there. */
  ghost predicate TookListed(s: Core, pods: seq<Pod>, w: Sweep, n: NodeName) {
    && n in s.cluster && n in w.cluster
    && s.cluster[n] == w.cluster[n] + At(pods, s.names, n)
  }

  lemma TakeOneMore(s: Core, front: seq<Pod>, p: Pod, prev: Sweep, n: NodeName, content: string -> nat)
    requires Uniform(prev.cluster, content) && p.request == content(p.uid)
    requires Removable(prev.cluster, p.Val(), NameOf(s.names, p)) && TookListed(s, front, prev, n)
    ensures TookListed(s, front + [p], Without(prev, p, NameOf(s.names, p)), n)
  {
    RemoveAt(prev.cluster, p, NameOf(s.names, p), n, content);
    AtAppend(front, p, s.names, n);
  }

  lemma {:induction false} RemoveAllTakes(s: Core, pods: seq<Pod>, n: NodeName, content: string -> nat)
    requires Uniform(s.cluster, content) && Faithful(pods, content) && n in s.cluster
    ensures var w := RemoveAll(s.cluster, s.log, s.names, pods); w.ok ==> TookListed(s, pods, w, n)
  {
    if pods != [] {
      var front, p := pods[..|pods| - 1], pods[|pods| - 1];
      RemoveAllTakes(s, front, n, content);
      RemoveAllUniform(s, front, content);
      assert pods == front + [p] && p in pods;
      if RemoveAll(s.cluster, s.log, s.names, pods).ok {
        RemoveAllTurn(s, front, p);
        TakeOneMore(s, front, p, RemoveAll(s.cluster, s.log, s.names, front), n, content);
      }
    }
  }

  ghost predicate LoggedListed(s: Core, pods: seq<Pod>, w: Sweep) {
    && w.log == s.log + ReAdds(pods)
    && w.cluster.Keys == s.cluster.Keys
    && (forall p :: p in pods ==> Addable(s.cluster, p.Val(), NameOf(s.names, p)))
  }

  lemma LogOneMore(s: Core, front: seq<Pod>, p: Pod, prev: Sweep)
    requires Removable(prev.cluster, p.Val(), NameOf(s.names, p)) && LoggedListed(s, front, prev)
    ensures LoggedListed(s, front + [p], Without(prev, p, NameOf(s.names, p)))
  {
    assert ReAdds(front + [p]) == ReAdds(front) + [ReAdd(p)];
  }

  lemma {:induction false} RemoveAllLogs(s: Core, pods: seq<Pod>)
    ensures var w := RemoveAll(s.cluster, s.log, s.names, pods); w.ok ==> LoggedListed(s, pods, w)
  {
    if pods == [] {
      assert s.log + ReAdds(pods) == s.log;
    } else {
      var front, p := pods[..|pods| - 1], pods[|pods| - 1];
      RemoveAllLogs(s, front);
      assert pods == front + [p];
      if RemoveAll(s.cluster, s.log, s.names, pods).ok {
        RemoveAllTurn(s, front, p);
        LogOneMore(s, front, p, RemoveAll(s.cluster, s.log, s.names, front));
      }
    }
  }

  /** When the loop stops at `p`, the pods listed so far and `p` are not all there. */
  lemma StuckMeansMissing(s: Core, front: seq<Pod>, p: Pod, content: string -> nat)
    requires Uniform(s.cluster, content) && Faithful(front + [p], content)
    requires RemoveAll(s.cluster, s.log, s.names, front).ok
    requires !Removable(RemoveAll(s.cluster, s.log, s.names, front).cluster, p.Val(), NameOf(s.names, p))
    ensures !AllResident(s.cluster, s.names, front + [p])
  {
    assert p in front + [p];
    forall q | q in front ensures q in front + [p] {}
    RemoveAllExtends(s, front, content);
    var prev := RemoveAll(s.cluster, s.log, s.names, front);
    var n := NameOf(s.names, p);
    RemoveTakesEqual(prev.cluster, p.Val(), n, content);
    AtAppend(front, p, s.names, n);
    if Addable(s.cluster, p.Val(), n) {
      RemoveAllTakes(s, front, n, content);
      assert s.cluster[n][p.Val()] < At(front + [p], s.names, n)[p.Val()];
    }
  }

  lemma {:induction false} RemoveAllSucceeds(s: Core, pods: seq<Pod>, content: string -> nat)
    requires Uniform(s.cluster, content) && Faithful(pods, content)
    ensures RemoveAll(s.cluster, s.log, s.names, pods).ok <==> AllResident(s.cluster, s.names, pods)
  {
    if RemoveAll(s.cluster, s.log, s.names, pods).ok {
      RemoveAllLogs(s, pods);
      forall n | n in s.cluster { RemoveAllTakes(s, pods, n, content); }
    } else {
      var front, p := pods[..|pods| - 1], pods[|pods| - 1];
      assert pods == front + [p];
      if RemoveAll(s.cluster, s.log, s.names, front).ok {
        StuckMeansMissing(s, front, p, content);
      } else {
        RemoveAllSucceeds(s, front, content);
        FrontNotResident(s, front, p);
      }
    }
  }

  /** PreemptPods is all or nothing: it succeeds exactly when every listed pod, counted with
      repetitions, is resident where its object says; then exactly those pods are gone and the log
      grew by one entry each, in order. Otherwise the snapshot is the one before the call, and the error
      tells a pod without a node from one that is not there. */
  lemma PreemptAllOrNothing(s: Core, pods: seq<Pod>, content: string -> nat)
    requires Uniform(s.cluster, content) && Faithful(pods, content)
    ensures var (t, r) := Preempt(s, pods);
      && (r.Ok? <==> (forall p :: p in pods ==> NameOf(s.names, p) != "") && AllResident(s.cluster, s.names, pods))
      && (r.Err? ==> t == s)
      && (r.Err? ==> r.error == if exists p :: p in pods && NameOf(s.names, p) == "" then NoNodeName else NotPreempted)
      && (r.Ok? ==> r.value == Handle(pods, s.version, false))
      && (r.Ok? ==> t == s.(cluster := t.cluster, log := s.log + ReAdds(pods)) && Extends(s, t))
      && (r.Ok? ==> Uniform(t.cluster, content) && t.cluster.Keys == s.cluster.Keys)
      && (r.Ok? ==> forall n :: n in s.cluster ==> s.cluster[n] == t.cluster[n] + At(pods, s.names, n))
  {
    RemoveAllExtends(s, pods, content);
    RemoveAllSucceeds(s, pods, content);
    var w := RemoveAll(s.cluster, s.log, s.names, pods);
    if w.ok {
      RemoveAllLogs(s, pods);
      forall n | n in s.cluster { RemoveAllTakes(s, pods, n, content); }
    }
  }

  // ----- Unpreempt

  /** The loop putting pods back, last first, after it has handled `pods[k..]`. A pod that cannot be
      added is skipped and the loop goes on. */
  function PutBack(c: Cluster, log: seq<UndoOp>, names: map<Pod, NodeName>, pods: seq<Pod>, k: nat): (w: Sweep)
    requires k <= |pods|
    ensures log <= w.log
    decreases |pods| - k
  {
    if k == |pods| then Sweep(c, log, true)
    else PutBackTurn(PutBack(c, log, names, pods, k + 1), pods[k].Val(), NameOf(names, pods[k]))
  }

  /** One turn of that loop. */
  function PutBackTurn(prev: Sweep, v: PodVal, n: NodeName): (w: Sweep)
    ensures prev.log <= w.log
  {
    if Addable(prev.cluster, v, n) then Sweep(Add(prev.cluster, v, n), prev.log + [Drop(v, n)], prev.ok)
    else Sweep(prev.cluster, prev.log, false)
  }

  function Unpreempt(s: Core, h: Handle): (Core, Handle, Result<seq<Pod>>) {
    if s.version != h.version then (s, h, Err(StaleHandle))
    else if h.reverted then (s, h, Err(UsedHandle))
    else
      var w := PutBack(s.cluster, s.log, s.names, h.pods, 0);
      (s.(cluster := w.cluster, log := w.log), h.(reverted := true), if w.ok then Ok(h.pods) else Err(NotPutBack))
  }

  predicate Accepts(s: Core, h: Handle) {
    s.version == h.version && !h.reverted
  }

  lemma PutBackStep(s: Core, prev: Sweep, v: PodVal, n: NodeName, content: string -> nat)
    requires Extends(s, With(s, prev)) && Uniform(prev.cluster, content) && v.request == content(v.uid)
    ensures var w := PutBackTurn(prev, v, n);
      Extends(s, With(s, w)) && Uniform(w.cluster, content) && w.cluster.Keys == prev.cluster.Keys
  {
    if Addable(prev.cluster, v, n) {
      AddKeepsUniform(prev.cluster, v, n, content);
      RemoveUndoesAdd(prev.cluster, v, n, content);
      var c := Add(prev.cluster, v, n);
      ExtendByOne(With(s, prev), c, Drop(v, n));
      ExtendsTransitive(s, With(s, prev), With(s, Sweep(c, prev.log + [Drop(v, n)], prev.ok)));
    }
  }

  lemma {:induction false} PutBackExtends(s: Core, pods: seq<Pod>, k: nat, content: string -> nat)
    requires k <= |pods| && Uniform(s.cluster, content) && Faithful(pods, content)
    ensures var w := PutBack(s.cluster, s.log, s.names, pods, k);
      Extends(s, With(s, w)) && Uniform(w.cluster, content) && w.cluster.Keys == s.cluster.Keys
    decreases |pods| - k
  {
    if k == |pods| {
      ExtendsReflexive(s);
    } else {
      PutBackExtends(s, pods, k + 1, content);
      PutBackStep(s, PutBack(s.cluster, s.log, s.names, pods, k + 1), pods[k].Val(), NameOf(s.names, pods[k]), content);
    }
  }

  lemma {:induction false} PutBackSucceeds(s: Core, pods: seq<Pod>, k: nat)
    requires k <= |pods|
    ensures var w := PutBack(s.cluster, s.log, s.names, pods, k);
      && w.cluster.Keys == s.cluster.Keys
      && (w.ok <==> forall p :: p in pods[k..] ==> Addable(s.cluster, p.Val(), NameOf(s.names, p)))
      && (w.ok ==> |w.log| == |s.log| + |pods| - k)
    decreases |pods| - k
  {
    if k < |pods| {
      PutBackSucceeds(s, pods, k + 1);
      assert pods[k..] == [pods[k]] + pods[k + 1..];
    }
  }

  /** One operation to take each pod away again, in the order in which they are put back. */
  ghost function DropsOf(pods: seq<Pod>, names: map<Pod, NodeName>): seq<UndoOp> {
    if pods == [] then [] else DropsOf(pods[1..], names) + [Drop(pods[0].Val(), NameOf(names, pods[0]))]
  }

  lemma {:induction false} PutBackLogged(s: Core, pods: seq<Pod>, k: nat)
    requires k <= |pods|
    ensures var w := PutBack(s.cluster, s.log, s.names, pods, k); w.ok ==> w.log == s.log + DropsOf(pods[k..], s.names)
    decreases |pods| - k
  {
    if k < |pods| {
      PutBackLogged(s, pods, k + 1);
      assert pods[k..][1..] == pods[k + 1..];
    }
  }

  lemma {:induction false} PutBackGives(s: Core, pods: seq<Pod>, k: nat, n: NodeName)
    requires k <= |pods| && n in s.cluster && PutBack(s.cluster, s.log, s.names, pods, k).ok
    ensures n in PutBack(s.cluster, s.log, s.names, pods, k).cluster
    ensures PutBack(s.cluster, s.log, s.names, pods, k).cluster[n] == s.cluster[n] + At(pods[k..], s.names, n)
    decreases |pods| - k
  {
    if k < |pods| {
      PutBackGives(s, pods, k + 1, n);
      assert pods[k..][1..] == pods[k + 1..];
    }
  }

  /** `after` has in addition those of the listed pods that have a UID. */
  ghost predicate GaveBack(before: multiset<PodVal>, after: multiset<PodVal>, listed: multiset<PodVal>) {
    forall v :: after[v] == before[v] + if v.uid == "" then 0 else listed[v]
  }

  lemma GiveOneMore(start: multiset<PodVal>, prev: multiset<PodVal>, listed: multiset<PodVal>, v: PodVal)
    requires GaveBack(start, prev, listed)
    ensures v.uid != "" ==> GaveBack(start, prev + multiset{v}, listed + multiset{v})
    ensures v.uid == "" ==> GaveBack(start, prev, listed + multiset{v})
  {}

  lemma SkipOrGive(start: multiset<PodVal>, prev: Sweep, listed: multiset<PodVal>, v: PodVal, m: NodeName, n: NodeName)
    requires n in prev.cluster && GaveBack(start, prev.cluster[n], listed)
    ensures var w := PutBackTurn(prev, v, m);
      n in w.cluster && GaveBack(start, w.cluster[n], listed + if m == n then multiset{v} else multiset{})
  {
    GiveOneMore(start, prev.cluster[n], listed, v);
    assert listed + multiset{} == listed;
  }

  lemma {:induction false} PutBackSkips(s: Core, pods: seq<Pod>, k: nat, n: NodeName)
    requires k <= |pods| && n in s.cluster
    ensures var w := PutBack(s.cluster, s.log, s.names, pods, k);
      n in w.cluster && GaveBack(s.cluster[n], w.cluster[n], At(pods[k..], s.names, n))
    decreases |pods| - k
  {
    if k < |pods| {
      PutBackSkips(s, pods, k + 1, n);
      assert pods[k..][1..] == pods[k + 1..];
      SkipOrGive(s.cluster[n], PutBack(s.cluster, s.log, s.names, pods, k + 1), At(pods[k + 1..], s.names, n),
                 pods[k].Val(), NameOf(s.names, pods[k]), n);
    }
  }

  /** An accepted handle gives back exactly its pods, at the nodes their objects name, and every
      version recorded before the call still restores as it did. If some of them cannot be put back, all others
      still are. */
  lemma UnpreemptExact(s: Core, h: Handle, content: string -> nat)
    requires Uniform(s.cluster, content) && Faithful(h.pods, content)
    ensures var (t, h', r) := Unpreempt(s, h);
      && (!Accepts(s, h) ==> t == s && h' == h && r.Err?)
      && (r.Err? ==>
            r.error == if s.version != h.version then StaleHandle else if h.reverted then UsedHandle else NotPutBack)
      && (Accepts(s, h) ==> h' == h.(reverted := true))
      && t == s.(cluster := t.cluster, log := t.log) && Extends(s, t)
      && Uniform(t.cluster, content) && t.cluster.Keys == s.cluster.Keys
      && (r.Ok? <==> Accepts(s, h) && forall p :: p in h.pods ==> Addable(s.cluster, p.Val(), NameOf(s.names, p)))
      && (r.Ok? ==> r.value == h.pods && |t.log| == |s.log| + |h.pods|)
      && (r.Ok? ==> forall n :: n in s.cluster ==> t.cluster[n] == s.cluster[n] + At(h.pods, s.names, n))
      && (Accepts(s, h) ==>
            forall n :: n in s.cluster ==> GaveBack(s.cluster[n], t.cluster[n], At(h.pods, s.names, n)))
  {
    PutBackExtends(s, h.pods, 0, content);
    PutBackSucceeds(s, h.pods, 0);
    forall n | n in s.cluster { PutBackSkips(s, h.pods, 0, n); }
    forall n | n in s.cluster && PutBack(s.cluster, s.log, s.names, h.pods, 0).ok { PutBackGives(s, h.pods, 0, n); }
    assert h.pods[0..] == h.pods;
    ExtendsReflexive(s);
  }

  /** A handle accepted in full is logged pod by pod, last first. */
  lemma UnpreemptLogs(s: Core, h: Handle)
    ensures var (t, _, r) := Unpreempt(s, h); r.Ok? ==> t.log == s.log + DropsOf(h.pods, s.names)
  {
    PutBackLogged(s, h.pods, 0);
    assert h.pods[0..] == h.pods;
  }

  // ----- SchedulePods

  datatype Refusal = For(why: Why) | Internal
  datatype Status = Success | Rejected(refusal: Refusal)

  /** What a scheduling cycle came up with: no framework for the pod (an error of the whole call), no
      host, or a host together with the verdict of the Reserve plugins. */
  datatype Decision = NoFramework | NoHost(refusal: Refusal) | Host(node: NodeName, reserve: Status)

  /** A scheduling cycle reads the snapshot, the pod and the cycle number. */
  type Scheduler = (Cluster, PodVal, nat) -> Decision

  datatype SchedulingResult = SchedulingResult(pod: Pod, status: Status, node: NodeName)

  /** Assume, reserve and, when reserving fails, forget. */
  function ScheduleOne(c: Cluster, v: PodVal, d: Decision): (Cluster, Status)
    requires !d.NoFramework?
  {
    match d
    case NoHost(refusal) => (c, Rejected(refusal))
    case Host(n, reserve) =>
      if !Addable(c, v, n) then (c, Rejected(Internal))
      else if reserve.Success? then (Add(c, v, n), Success)
      else (if Removable(Add(c, v, n), v, n) then Pods.Remove(Add(c, v, n), v, n) else Add(c, v, n), reserve)
  }

  datatype Phase = Going | Stopped | Failed

  datatype Batch = Batch(
    cluster: Cluster, log: seq<UndoOp>, names: map<Pod, NodeName>, results: seq<SchedulingResult>, phase: Phase)

  function BatchStep(b: Batch, p: Pod, d: Decision, stopOnFailure: bool): Batch {
    if d.NoFramework? then b.(phase := Failed)
    else
      var (c, status) := ScheduleOne(b.cluster, p.Val(), d);
      if status.Success? then
        Batch(c, b.log + [Forget(p.Val(), d.node)], b.names[p := d.node],
              b.results + [SchedulingResult(p, status, d.node)], Going)
      else
        Batch(c, b.log, b.names, b.results + [SchedulingResult(p, status, "")],
              if stopOnFailure then Stopped else Going)
  }

  /** The scheduling loop after all of `pods`. */
  function ScheduleAll(s: Core, pods: seq<Pod>, sched: Scheduler, stopOnFailure: bool): (b: Batch)
    ensures s.log <= b.log
  {
    if pods == [] then Batch(s.cluster, s.log, s.names, [], Going)
    else
      var k := |pods| - 1;
      var b := ScheduleAll(s, pods[..k], sched, stopOnFailure);
      if b.phase.Going? then BatchStep(b, pods[k], sched(b.cluster, pods[k].Val(), k), stopOnFailure) else b
  }

  function After(s: Core, b: Batch): Core {
    s.(cluster := b.cluster, log := b.log, names := b.names)
  }

  datatype Options = Options(dryRun: bool, stopOnFailure: bool)

  function Schedule(s: Core, pods: seq<Pod>, placement: seq<NodeName>, assumed: bool, sched: Scheduler, opts: Options)
    : (Core, Result<seq<SchedulingResult>>)
  {
    if placement == [] then (s, Ok([]))
    else if !assumed then (s, Err(PlacementFailed))
    else
      var b := ScheduleAll(s, pods, sched, opts.stopOnFailure);
      var t := After(s, b);
      var u := if b.phase.Failed? || opts.dryRun then RestoreTo(t, |s.log|) else t;
      (if |u.log| != |s.log| then u.(version := u.version + 1) else u,
       if b.phase.Failed? then Err(NoFrameworkForPod) else Ok(b.results))
  }

  /** The results a call hands back, also beside an error: those of the pods attempted so far. */
  function Collected(s: Core, pods: seq<Pod>, placement: seq<NodeName>, assumed: bool, sched: Scheduler, opts: Options)
    : seq<SchedulingResult>
  {
    if placement == [] || !assumed then [] else ScheduleAll(s, pods, sched, opts.stopOnFailure).results
  }

  /** No listed object has its removal still in the log. */
  ghost predicate NoneWaiting(log: seq<UndoOp>, pods: seq<Pod>) {
    forall p :: p in pods ==> !Pending(log, p)
  }

  function Successes(rs: seq<SchedulingResult>): nat {
    if rs == [] then 0 else Successes(rs[..|rs| - 1]) + (if rs[|rs| - 1].status.Success? then 1 else 0)
  }

  /** The pod one result reports as scheduled onto `n`. */
  function PlacedBy(r: SchedulingResult, n: NodeName): multiset<PodVal> {
    if r.status.Success? && r.node == n then multiset{r.pod.Val()} else multiset{}
  }

  /** The pods the results report as scheduled onto `n`. */
  function Placed(rs: seq<SchedulingResult>, n: NodeName): multiset<PodVal> {
    if rs == [] then multiset{}
    else Placed(rs[..|rs| - 1], n) + PlacedBy(rs[|rs| - 1], n)
  }

  lemma ScheduleOneExact(c: Cluster, v: PodVal, d: Decision, content: string -> nat)
    requires !d.NoFramework? && Uniform(c, content) && v.request == content(v.uid)
    ensures var (c', status) := ScheduleOne(c, v, d);
      && Uniform(c', content) && c'.Keys == c.Keys
      && (status.Success? <==> d.Host? && Addable(c, v, d.node) && d.reserve.Success?)
      && (status.Success? ==> c' == Add(c, v, d.node) && Removable(c', v, d.node) && Pods.Remove(c', v, d.node) == c)
      && (!status.Success? ==> c' == c)
  {
    if d.Host? && Addable(c, v, d.node) {
      AddKeepsUniform(c, v, d.node, content);
      RemoveUndoesAdd(c, v, d.node, content);
    }
  }

  /** Undone down to where the batch started, whatever names are read, its log gives the pods there were. */
  ghost predicate TakenBack(s: Core, b: Batch, names: map<Pod, NodeName>) {
    && |s.log| <= |b.log| && b.log[..|s.log|] == s.log
    && UndoTo(b.cluster, b.log, names, |s.log|) == s.cluster
  }

  ghost predicate NoNewReAdd(log: seq<UndoOp>, longer: seq<UndoOp>) {
    forall op :: op in longer && op.ReAdd? ==> op in log
  }

  lemma BatchStepShape(b: Batch, p: Pod, d: Decision, stop: bool, content: string -> nat)
    requires Uniform(b.cluster, content) && p.request == content(p.uid) && !d.NoFramework?
    ensures var e := BatchStep(b, p, d, stop);
      && Uniform(e.cluster, content) && e.cluster.Keys == b.cluster.Keys
      && (e.log == b.log ==> e.cluster == b.cluster)
      && (e.log != b.log ==>
            && d.Host? && e.log == b.log + [Forget(p.Val(), d.node)]
            && Removable(e.cluster, p.Val(), d.node) && Pods.Remove(e.cluster, p.Val(), d.node) == b.cluster)
  {
    ScheduleOneExact(b.cluster, p.Val(), d, content);
  }

  lemma TakenBackStep(s: Core, b: Batch, e: Batch, op: UndoOp, names: map<Pod, NodeName>)
    requires TakenBack(s, b, names) && NoNewReAdd(s.log, b.log)
    requires e.log == b.log ==> e.cluster == b.cluster
    requires e.log != b.log ==> op.Forget? && e.log == b.log + [op] && ApplyUndo(e.cluster, op, names) == b.cluster
    ensures TakenBack(s, e, names) && NoNewReAdd(s.log, e.log)
  {
    if e.log != b.log {
      assert e.log[..|e.log| - 1] == b.log && e.log[|e.log| - 1] == op;
      assert e.log[..|s.log|] == b.log[..|s.log|];
    }
  }

  /** However far the scheduling loop got, the log takes back exactly what it placed. That reads no node
      name, so it works whatever the loop renamed. */
  lemma {:induction false} BatchTakenBack(s: Core, pods: seq<Pod>, sched: Scheduler, stop: bool,
                                          names: map<Pod, NodeName>, content: string -> nat)
    requires Uniform(s.cluster, content) && Faithful(pods, content)
    ensures var b := ScheduleAll(s, pods, sched, stop);
      && TakenBack(s, b, names) && NoNewReAdd(s.log, b.log)
      && Uniform(b.cluster, content) && b.cluster.Keys == s.cluster.Keys
  {
    if pods != [] {
      var k := |pods| - 1;
      BatchTakenBack(s, pods[..k], sched, stop, names, content);
      var b := ScheduleAll(s, pods[..k], sched, stop);
      var d := sched(b.cluster, pods[k].Val(), k);
      if b.phase.Going? && !d.NoFramework? {
        assert pods[k] in pods;
        BatchStepShape(b, pods[k], d, stop, content);
        TakenBackStep(s, b, BatchStep(b, pods[k], d, stop), Forget(pods[k].Val(), if d.Host? then d.node else ""),
            names);
      }
    }
  }

  lemma {:induction false} ScheduleAllPlaces(s: Core, pods: seq<Pod>, sched: Scheduler, stop: bool, n: NodeName,
                                             content: string -> nat)
    requires Uniform(s.cluster, content) && Faithful(pods, content) && n in s.cluster
    ensures var b := ScheduleAll(s, pods, sched, stop);
      n in b.cluster && b.cluster[n] == s.cluster[n] + Placed(b.results, n)
  {
    if pods != [] {
      var k := |pods| - 1;
      var front, p := pods[..k], pods[k];
      ScheduleAllPlaces(s, front, sched, stop, n, content);
      BatchTakenBack(s, front, sched, stop, s.names, content);
      var b := ScheduleAll(s, front, sched, stop);
      var d := sched(b.cluster, p.Val(), k);
      if b.phase.Going? && !d.NoFramework? {
        assert p in pods;
        BatchStepPlaces(b, p, d, stop, n, content);
        var e := BatchStep(b, p, d, stop);
        PlacedGrows(s.cluster[n], b.results, e.results[|b.results|], n);
        assert e.results == b.results + [e.results[|b.results|]];
      }
    }
  }

  lemma PlacedSnoc(rs: seq<SchedulingResult>, r: SchedulingResult, n: NodeName)
    ensures Placed(rs + [r], n) == Placed(rs, n) + PlacedBy(r, n)
  {
    assert (rs + [r])[..|rs|] == rs;
  }

  /** One turn of the loop puts onto each node what its result reports. */
  lemma BatchStepPlaces(b: Batch, p: Pod, d: Decision, stop: bool, n: NodeName, content: string -> nat)
    requires Uniform(b.cluster, content) && p.request == content(p.uid) && !d.NoFramework? && n in b.cluster
    ensures var e := BatchStep(b, p, d, stop);
      && |e.results| == |b.results| + 1 && e.results[..|b.results|] == b.results
      && n in e.cluster && e.cluster[n] == b.cluster[n] + PlacedBy(e.results[|b.results|], n)
  {
    ScheduleOneExact(b.cluster, p.Val(), d, content);
  }

  lemma Regrouped(a: multiset<PodVal>, b: multiset<PodVal>, c: multiset<PodVal>)
    ensures (a + b) + c == a + (b + c)
  {}

  lemma PlacedGrows(start: multiset<PodVal>, rs: seq<SchedulingResult>, r: SchedulingResult, n: NodeName)
    ensures start + Placed(rs, n) + PlacedBy(r, n) == start + Placed(rs + [r], n)
  {
    PlacedSnoc(rs, r, n);
    Regrouped(start, Placed(rs, n), PlacedBy(r, n));
  }

  /** The results answer the listed pods in order, and no pod follows a failure when the loop must stop. */
  ghost predicate Answers(rs: seq<SchedulingResult>, phase: Phase, pods: seq<Pod>, stop: bool) {
    && |rs| <= |pods| && (phase.Going? ==> |rs| == |pods|)
    && (forall i :: 0 <= i < |rs| ==> rs[i].pod == pods[i])
    && (forall i :: 0 <= i < |rs| && stop && (!phase.Stopped? || i < |rs| - 1) ==> rs[i].status.Success?)
    && (phase.Stopped? ==> stop && |rs| > 0 && !rs[|rs| - 1].status.Success?)
  }

  lemma BatchStepAnswers(b: Batch, front: seq<Pod>, p: Pod, d: Decision, stop: bool)
    requires b.phase.Going? && Answers(b.results, Going, front, stop)
    ensures Answers(BatchStep(b, p, d, stop).results, BatchStep(b, p, d, stop).phase, front + [p], stop)
  {}

  lemma {:induction false} ScheduleAllAnswers(s: Core, pods: seq<Pod>, sched: Scheduler, stop: bool)
    ensures var b := ScheduleAll(s, pods, sched, stop); Answers(b.results, b.phase, pods, stop)
  {
    if pods != [] {
      var k := |pods| - 1;
      ScheduleAllAnswers(s, pods[..k], sched, stop);
      var b := ScheduleAll(s, pods[..k], sched, stop);
      assert pods == pods[..k] + [pods[k]];
      if b.phase.Going? {
        BatchStepAnswers(b, pods[..k], pods[k], sched(b.cluster, pods[k].Val(), k), stop);
      }
    }
  }

  ghost predicate Schedulable(s: Core, pods: seq<Pod>, content: string -> nat) {
    Uniform(s.cluster, content) && Faithful(pods, content)
  }

  /** A dry run, and a batch that ends in an error, leave the pods, the log and the preemption version
      as they were, even when pods had been placed; only the node names of listed objects may differ.
      A dry run answers what the real run would, and renames the objects the real run would rename. A kept
      call too can be undone, and all earlier entries of the log with it exactly when none of the objects
      they read got another node name. */
  lemma ScheduleLeavesNoTrace(s: Core, pods: seq<Pod>, placement: seq<NodeName>, assumed: bool, sched: Scheduler,
                              opts: Options, content: string -> nat)
    requires Schedulable(s, pods, content)
    ensures var (t, r) := Schedule(s, pods, placement, assumed, sched, opts);
      && (opts.dryRun || r.Err? ==> t == s.(names := t.names))
      && (var (t', r') := Schedule(s, pods, placement, assumed, sched, opts.(dryRun := !opts.dryRun));
          r == r' && t.names == t'.names)
      && (forall p :: p !in pods ==> NameOf(t.names, p) == NameOf(s.names, p))
      && |s.log| <= |t.log| && t.log[..|s.log|] == s.log && NoNewReAdd(s.log, t.log)
      && UndoTo(t.cluster, t.log, t.names, |s.log|) == s.cluster
      && Uniform(t.cluster, content) && t.cluster.Keys == s.cluster.Keys && t.tx == s.tx
      && (Extends(s, t) <==> SameNames(s.log, s.names, t.names))
  {
    var b := ScheduleAll(s, pods, sched, opts.stopOnFailure);
    BatchTakenBack(s, pods, sched, opts.stopOnFailure, b.names, content);
    ScheduleAllNames(s, pods, sched, opts.stopOnFailure);
  }

  lemma {:induction false} ScheduleAllNames(s: Core, pods: seq<Pod>, sched: Scheduler, stop: bool)
    ensures forall p :: p !in pods ==> NameOf(ScheduleAll(s, pods, sched, stop).names, p) == NameOf(s.names, p)
  {
    if pods != [] {
      ScheduleAllNames(s, pods[..|pods| - 1], sched, stop);
    }
  }

  /** A kept call grows every node and the log by exactly the successful results, and bumps the
      preemption version exactly when there is one. Results answer the pods in order; when the call
      stops at failures, every result but the last is a success. */
  lemma KeptScheduleConserves(s: Core, pods: seq<Pod>, placement: seq<NodeName>, assumed: bool, sched: Scheduler,
                              opts: Options, content: string -> nat)
    requires Schedulable(s, pods, content) && !opts.dryRun
    requires Schedule(s, pods, placement, assumed, sched, opts).1.Ok?
    ensures var (t, r) := Schedule(s, pods, placement, assumed, sched, opts);
      && |t.log| == |s.log| + Successes(r.value) && t.log[..|s.log|] == s.log && t.tx == s.tx
      && t.version == s.version + (if Successes(r.value) > 0 then 1 else 0)
      && (forall n :: n in s.cluster ==> n in t.cluster && t.cluster[n] == s.cluster[n] + Placed(r.value, n))
      && |r.value| <= |pods| && (placement != [] && !opts.stopOnFailure ==> |r.value| == |pods|)
      && (forall i :: 0 <= i < |r.value| ==> r.value[i].pod == pods[i])
      && (forall i :: 0 <= i < |r.value| - 1 && opts.stopOnFailure ==> r.value[i].status.Success?)
      && (placement != [] && opts.stopOnFailure && |r.value| < |pods| ==>
          |r.value| > 0 && !r.value[|r.value| - 1].status.Success?)
  {
    var stop := opts.stopOnFailure;
    if placement != [] {
      BatchTakenBack(s, pods, sched, stop, s.names, content);
      ScheduleAllAnswers(s, pods, sched, stop);
      ScheduleAllLogs(s, pods, sched, stop);
      forall n | n in s.cluster { ScheduleAllPlaces(s, pods, sched, stop, n, content); }
    }
  }

  lemma SuccessesSnoc(rs: seq<SchedulingResult>, r: SchedulingResult)
    ensures Successes(rs + [r]) == Successes(rs) + if r.status.Success? then 1 else 0
  {
    assert (rs + [r])[..|rs|] == rs;
  }

  lemma BatchStepLogs(b: Batch, p: Pod, d: Decision, stop: bool)
    requires !d.NoFramework?
    ensures var e := BatchStep(b, p, d, stop); |e.log| - |b.log| == Successes(e.results) - Successes(b.results)
  {
    var e := BatchStep(b, p, d, stop);
    SuccessesSnoc(b.results, e.results[|b.results|]);
    assert e.results == b.results + [e.results[|b.results|]];
  }

  lemma {:induction false} ScheduleAllLogs(s: Core, pods: seq<Pod>, sched: Scheduler, stop: bool)
    ensures |ScheduleAll(s, pods, sched, stop).log| == |s.log| + Successes(ScheduleAll(s, pods, sched, stop).results)
  {
    if pods != [] {
      var k := |pods| - 1;
      ScheduleAllLogs(s, pods[..k], sched, stop);
      var b := ScheduleAll(s, pods[..k], sched, stop);
      var d := sched(b.cluster, pods[k].Val(), k);
      if b.phase.Going? && !d.NoFramework? {
        BatchStepLogs(b, pods[k], d, stop);
      }
    }
  }

  // ----- ResetMutations and Transaction

  datatype Outcome = Commit | Revert | Failure

  function Reset(s: Core): (Core, Result<()>) {
    if s.tx.Open? then (s, Err(InTransaction))
    else if |s.log| > 0 then (RestoreTo(s, 0).(version := s.version + 1), Ok(()))
    else (s, Ok(()))
  }

  /** Transaction up to the call of its function. */
  function Begin(s: Core): (Core, Result<()>) {
    if s.tx.Open? then (s, Err(InTransaction))
    else (s.(tx := Open(|s.log|, s.version), version := s.version + 1), Ok(()))
  }

  /** Transaction from the return of its function on. */
  function End(s: Core, outcome: Outcome): Core
    requires s.tx.Open? && s.tx.len <= |s.log|
  {
    if outcome.Commit? then s.(version := s.version + 1, tx := NoTx)
    else RestoreTo(s, s.tx.len).(version := s.tx.version, tx := NoTx)
  }
}
