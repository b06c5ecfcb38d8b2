/** Removing goes by UID, putting back copies the caller's object: what that means when the two differ.
    Nothing here assumes that a UID identifies a content. */
module Contents {
  import opened Pods
  import opened Undo
  import opened Operations

  ghost predicate DistinctUids(pods: seq<Pod>) {
    forall i, j :: 0 <= i < j < |pods| ==> pods[i].uid != pods[j].uid
  }

  /** The resident that is removed for `p`. */
  ghost function ResidentOf(c: Cluster, names: map<Pod, NodeName>, p: Pod): PodVal
    requires Removable(c, p.Val(), NameOf(names, p))
  {
    Resident(c[NameOf(names, p)], p.uid)
  }

  ghost predicate AllRemovable(c: Cluster, names: map<Pod, NodeName>, pods: seq<Pod>) {
    forall p :: p in pods ==> Removable(c, p.Val(), NameOf(names, p))
  }

  /** The residents removed from node `n` for the listed pods. */
  ghost function Taken(c: Cluster, names: map<Pod, NodeName>, pods: seq<Pod>, n: NodeName): multiset<PodVal>
    requires AllRemovable(c, names, pods)
  {
    if pods == [] then multiset{}
    else Taken(c, names, pods[..|pods| - 1], n) + TakenOne(c, names, pods[|pods| - 1], n)
  }

  ghost function TakenOne(c: Cluster, names: map<Pod, NodeName>, p: Pod, n: NodeName): multiset<PodVal>
    requires Removable(c, p.Val(), NameOf(names, p))
  {
    if NameOf(names, p) == n then multiset{ResidentOf(c, names, p)} else multiset{}
  }

  lemma TakenSnoc(c: Cluster, names: map<Pod, NodeName>, front: seq<Pod>, p: Pod, n: NodeName)
    requires AllRemovable(c, names, front) && Removable(c, p.Val(), NameOf(names, p))
    ensures AllRemovable(c, names, front + [p])
    ensures Taken(c, names, front + [p], n) == Taken(c, names, front, n) + TakenOne(c, names, p, n)
  {
    assert (front + [p])[..|front|] == front;
  }

  /** The copy put back for `p`. */
  ghost function BackOne(names: map<Pod, NodeName>, p: Pod, n: NodeName): multiset<PodVal> {
    if NameOf(names, p) == n then multiset{p.Val()} else multiset{}
  }

  // ----- Removing one UID leaves the residents of the others

  lemma {:induction false} FromLeast(pods: multiset<PodVal>, uid: string, k: nat, w: PodVal)
    requires w in pods && w.uid == uid && k <= w.request
    ensures forall j: nat :: k <= j < ResidentFrom(pods, uid, k, w).request ==> PodVal(uid, j) !in pods
    ensures k <= ResidentFrom(pods, uid, k, w).request
    decreases w.request - k
  {
    if PodVal(uid, k) !in pods { FromLeast(pods, uid, k + 1, w); }
  }

  lemma ResidentLeast(pods: multiset<PodVal>, uid: string)
    requires HasUid(pods, uid)
    ensures forall j: nat :: j < Resident(pods, uid).request ==> PodVal(uid, j) !in pods
  {
    forall w: PodVal | w in pods && w.uid == uid
      ensures forall j: nat :: j < ResidentFrom(pods, uid, 0, w).request ==> PodVal(uid, j) !in pods
    {
      FromLeast(pods, uid, 0, w);
    }
  }

  lemma ResidentStays(pods: multiset<PodVal>, v: PodVal, uid: string)
    requires v in pods && v.uid != uid
    ensures HasUid(pods - multiset{v}, uid) <==> HasUid(pods, uid)
    ensures HasUid(pods, uid) ==> Resident(pods - multiset{v}, uid) == Resident(pods, uid)
  {
    var rest := pods - multiset{v};
    assert forall r: PodVal :: r.uid == uid ==> (r in rest <==> r in pods);
    if HasUid(pods, uid) {
      ResidentLeast(pods, uid);
      ResidentLeast(rest, uid);
      var a, b := Resident(pods, uid), Resident(rest, uid);
      assert PodVal(uid, a.request) == a && PodVal(uid, b.request) == b;
    }
  }

  // ----- What the removal loop takes

  lemma {:induction false} OthersStay(s: Core, pods: seq<Pod>, uid: string, n: NodeName)
    requires n in s.cluster && forall p :: p in pods ==> p.uid != uid
    ensures var w := RemoveAll(s.cluster, s.log, s.names, pods);
      && n in w.cluster && (HasUid(w.cluster[n], uid) <==> HasUid(s.cluster[n], uid))
      && (HasUid(s.cluster[n], uid) ==> Resident(w.cluster[n], uid) == Resident(s.cluster[n], uid))
  {
    if pods != [] {
      var front, p := pods[..|pods| - 1], pods[|pods| - 1];
      OthersStay(s, front, uid, n);
      var prev := RemoveAll(s.cluster, s.log, s.names, front);
      if prev.ok && Removable(prev.cluster, p.Val(), NameOf(s.names, p)) && NameOf(s.names, p) == n {
        assert p in pods;
        ResidentStays(prev.cluster[n], Resident(prev.cluster[n], p.uid), uid);
      }
    }
  }

  ghost predicate TookAll(s: Core, pods: seq<Pod>, n: NodeName) {
    && n in s.cluster && AllRemovable(s.cluster, s.names, pods)
    && var w := RemoveAll(s.cluster, s.log, s.names, pods);
       n in w.cluster && w.cluster[n] + Taken(s.cluster, s.names, pods, n) == s.cluster[n]
  }

  lemma {:induction false} TakesResidents(s: Core, pods: seq<Pod>, n: NodeName)
    requires DistinctUids(pods) && n in s.cluster && RemoveAll(s.cluster, s.log, s.names, pods).ok
    ensures TookAll(s, pods, n)
  {
    if pods != [] {
      var front, p := pods[..|pods| - 1], pods[|pods| - 1];
      assert pods == front + [p];
      RemoveAllTurn(s, front, p);
      TakesResidents(s, front, n);
      RemoveAllLogs(s, front);
      forall q | q in front ensures q.uid != p.uid {}
      OthersStay(s, front, p.uid, NameOf(s.names, p));
      TakesOneMore(s, front, p, n);
    }
  }

  lemma TakesOneMore(s: Core, front: seq<Pod>, p: Pod, n: NodeName)
    requires n in s.cluster && TookAll(s, front, n)
    requires var prev, m := RemoveAll(s.cluster, s.log, s.names, front), NameOf(s.names, p);
      && Removable(s.cluster, p.Val(), m) && Removable(prev.cluster, p.Val(), m)
      && Resident(prev.cluster[m], p.uid) == ResidentOf(s.cluster, s.names, p)
      && RemoveAll(s.cluster, s.log, s.names, front + [p]) == Without(prev, p, m)
    ensures TookAll(s, front + [p], n)
  {
    var now, taken := RemoveAll(s.cluster, s.log, s.names, front).cluster[n], Taken(s.cluster, s.names, front, n);
    TakenSnoc(s.cluster, s.names, front, p, n);
    if NameOf(s.names, p) == n {
      MoveOver(now, taken, Resident(now, p.uid));
    } else {
      assert taken + multiset{} == taken;
    }
  }

  lemma MoveOver(now: multiset<PodVal>, taken: multiset<PodVal>, r: PodVal)
    requires r in now
    ensures now - multiset{r} + (taken + multiset{r}) == now + taken
  {}

  // ----- What undoing it puts back

  ghost predicate PutBackAt(c: Cluster, u: Cluster, back: multiset<PodVal>, n: NodeName) {
    n in c && u.Keys == c.Keys && u[n] == c[n] + back
  }

  lemma AddedThenPutBack(c: Cluster, u: Cluster, front: multiset<PodVal>, names: map<Pod, NodeName>, p: Pod,
                         n: NodeName)
    requires n in c && NameOf(names, p) in c && PutBackAt(Add(c, p.Val(), NameOf(names, p)), u, front, n)
    ensures PutBackAt(c, u, front + BackOne(names, p, n), n)
  {
    if NameOf(names, p) == n {
      assert c[n] + multiset{p.Val()} + front == c[n] + (front + multiset{p.Val()});
    } else {
      assert front + multiset{} == front;
    }
  }

  ghost predicate AllAddable(c: Cluster, names: map<Pod, NodeName>, pods: seq<Pod>) {
    forall p :: p in pods ==> Addable(c, p.Val(), NameOf(names, p))
  }

  /** The nodes once copies of the listed pods are back, the last one first. */
  ghost function BackTo(c: Cluster, names: map<Pod, NodeName>, pods: seq<Pod>): Cluster
    requires AllAddable(c, names, pods)
  {
    if pods == [] then c
    else
      var p := pods[|pods| - 1];
      BackTo(Add(c, p.Val(), NameOf(names, p)), names, pods[..|pods| - 1])
  }

  lemma AtSnoc(front: seq<Pod>, p: Pod, names: map<Pod, NodeName>, pods: seq<Pod>, n: NodeName)
    requires pods != [] && front == pods[..|pods| - 1] && p == pods[|pods| - 1]
    ensures At(pods, names, n) == At(front, names, n) + BackOne(names, p, n)
  {
    assert pods == front + [p];
    AtAppend(front, p, names, n);
  }

  lemma {:induction false} BackToAdds(c: Cluster, names: map<Pod, NodeName>, pods: seq<Pod>, n: NodeName)
    requires n in c && AllAddable(c, names, pods)
    ensures PutBackAt(c, BackTo(c, names, pods), At(pods, names, n), n)
  {
    if pods == [] {
      assert c[n] + multiset{} == c[n];
    } else {
      var front, p := pods[..|pods| - 1], pods[|pods| - 1];
      var more := Add(c, p.Val(), NameOf(names, p));
      assert BackTo(c, names, pods) == BackTo(more, names, front);
      BackToAdds(more, names, front, n);
      AddedThenPutBack(c, BackTo(more, names, front), At(front, names, n), names, p, n);
      AtSnoc(front, p, names, pods, n);
    }
  }

  lemma UndoSnoc(c: Cluster, log: seq<UndoOp>, op: UndoOp, names: map<Pod, NodeName>, i: nat)
    requires i <= |log|
    ensures UndoTo(c, log + [op], names, i) == UndoTo(ApplyUndo(c, op, names), log, names, i)
  {
    assert (log + [op])[..|log|] == log;
  }

  lemma {:induction false} ReAddsPutBack(c: Cluster, log: seq<UndoOp>, names: map<Pod, NodeName>, pods: seq<Pod>)
    requires AllAddable(c, names, pods)
    ensures UndoTo(c, log + ReAdds(pods), names, |log|) == BackTo(c, names, pods)
  {
    if pods == [] {
      assert log + ReAdds(pods) == log;
    } else {
      var front, p := pods[..|pods| - 1], pods[|pods| - 1];
      assert log + ReAdds(pods) == log + ReAdds(front) + [ReAdd(p)];
      UndoSnoc(c, log + ReAdds(front), ReAdd(p), names, |log|);
      ReAddsPutBack(Add(c, p.Val(), NameOf(names, p)), log, names, front);
    }
  }

  ghost predicate SameContents(c: Cluster, names: map<Pod, NodeName>, pods: seq<Pod>)
    requires AllRemovable(c, names, pods)
  {
    forall p :: p in pods ==> ResidentOf(c, names, p) == p.Val()
  }

  lemma {:induction false} SameTaken(c: Cluster, names: map<Pod, NodeName>, pods: seq<Pod>, n: NodeName)
    requires AllRemovable(c, names, pods) && SameContents(c, names, pods)
    ensures Taken(c, names, pods, n) == At(pods, names, n)
  {
    if pods != [] {
      var front, p := pods[..|pods| - 1], pods[|pods| - 1];
      assert pods == front + [p];
      assert p in pods && ResidentOf(c, names, p) == p.Val();
      SameTaken(c, names, front, n);
      TakenSnoc(c, names, front, p, n);
      AtAppend(front, p, names, n);
      assert TakenOne(c, names, p, n) == BackOne(names, p, n);
    }
  }

  lemma {:induction false} ListedAt(pods: seq<Pod>, names: map<Pod, NodeName>, p: Pod)
    requires p in pods
    ensures p.Val() in At(pods, names, NameOf(names, p))
  {
    if pods[0] != p { ListedAt(pods[1..], names, p); }
  }

  lemma {:induction false} TakenFor(c: Cluster, names: map<Pod, NodeName>, pods: seq<Pod>, n: NodeName, v: PodVal)
    returns (q: Pod)
    requires AllRemovable(c, names, pods) && v in Taken(c, names, pods, n)
    ensures q in pods && NameOf(names, q) == n && ResidentOf(c, names, q) == v
  {
    var front, p := pods[..|pods| - 1], pods[|pods| - 1];
    if NameOf(names, p) == n && ResidentOf(c, names, p) == v {
      q := p;
    } else {
      q := TakenFor(c, names, front, n, v);
    }
  }

  lemma EqualTakenSame(c: Cluster, names: map<Pod, NodeName>, pods: seq<Pod>)
    requires DistinctUids(pods) && AllRemovable(c, names, pods)
    requires forall n :: n in c ==> Taken(c, names, pods, n) == At(pods, names, n)
    ensures SameContents(c, names, pods)
  {
    forall p | p in pods ensures ResidentOf(c, names, p) == p.Val() {
      ListedAt(pods, names, p);
      var q := TakenFor(c, names, pods, NameOf(names, p), p.Val());
      assert q.uid == p.uid;
    }
  }

  lemma Balance(now: multiset<PodVal>, taken: multiset<PodVal>, back: multiset<PodVal>, before: multiset<PodVal>)
    requires now + taken == before
    ensures now + back == before <==> taken == back
  {
    if now + back == before {
      forall v ensures taken[v] == back[v] { assert (now + taken)[v] == (now + back)[v]; }
    }
  }

  /** Undoing a preemption, on top of any log, gives back the pods on every node exactly when each listed
      object has the content of the resident that was removed for it. */
  lemma PreemptRestoresExactlySameContent(s: Core, pods: seq<Pod>)
    requires DistinctUids(pods) && Preempt(s, pods).1.Ok?
    ensures AllRemovable(s.cluster, s.names, pods)
    ensures RestoreTo(Preempt(s, pods).0, |s.log|).cluster == s.cluster <==> SameContents(s.cluster, s.names, pods)
  {
    var c := RemoveAll(s.cluster, s.log, s.names, pods).cluster;
    RemoveAllLogs(s, pods);
    RemovableAll(s, pods);
    ReAddsPutBack(c, s.log, s.names, pods);
    var u := BackTo(c, s.names, pods);
    forall n | n in s.cluster ensures BackExactly(s, pods, u, n) {
      TakesResidents(s, pods, n);
      BackToAdds(c, s.names, pods, n);
      Balance(c[n], Taken(s.cluster, s.names, pods, n), At(pods, s.names, n), s.cluster[n]);
    }
    BackToKeys(c, s.names, pods);
    SameEverywhere(s, pods, u);
  }

  /** Node `n` is as it was exactly when the copies put there are the residents taken from there. */
  ghost predicate BackExactly(s: Core, pods: seq<Pod>, u: Cluster, n: NodeName)
    requires AllRemovable(s.cluster, s.names, pods) && n in s.cluster
  {
    n in u && (u[n] == s.cluster[n] <==> Taken(s.cluster, s.names, pods, n) == At(pods, s.names, n))
  }

  lemma SameEverywhere(s: Core, pods: seq<Pod>, u: Cluster)
    requires DistinctUids(pods) && AllRemovable(s.cluster, s.names, pods) && u.Keys == s.cluster.Keys
    requires forall n :: n in s.cluster ==> BackExactly(s, pods, u, n)
    ensures u == s.cluster <==> SameContents(s.cluster, s.names, pods)
  {
    if SameContents(s.cluster, s.names, pods) {
      forall n | n in s.cluster ensures u[n] == s.cluster[n] {
        assert BackExactly(s, pods, u, n);
        SameTaken(s.cluster, s.names, pods, n);
      }
    } else if u == s.cluster {
      forall n | n in s.cluster ensures Taken(s.cluster, s.names, pods, n) == At(pods, s.names, n) {
        assert BackExactly(s, pods, u, n);
      }
      EqualTakenSame(s.cluster, s.names, pods);
    }
  }

  lemma {:induction false} BackToKeys(c: Cluster, names: map<Pod, NodeName>, pods: seq<Pod>)
    requires AllAddable(c, names, pods)
    ensures BackTo(c, names, pods).Keys == c.Keys
  {
    if pods != [] {
      var p := pods[|pods| - 1];
      BackToKeys(Add(c, p.Val(), NameOf(names, p)), names, pods[..|pods| - 1]);
    }
  }

  lemma RemovableAll(s: Core, pods: seq<Pod>)
    requires DistinctUids(pods) && RemoveAll(s.cluster, s.log, s.names, pods).ok
    ensures AllRemovable(s.cluster, s.names, pods)
  {
    if pods != [] {
      RemoveAllLogs(s, pods);
      assert pods[0] in pods;
      TakesResidents(s, pods, NameOf(s.names, pods[0]));
    }
  }

  /** So preempting one pod and resetting restores its node exactly when the object equals the resident. */
  lemma ResetRestoresExactlySameContent(s: Core, p: Pod)
    requires s.log == [] && s.tx == NoTx
    requires NameOf(s.names, p) != "" && Removable(s.cluster, p.Val(), NameOf(s.names, p))
    ensures var (t, r) := Preempt(s, [p]);
      r.Ok? && (Reset(t).0.cluster == s.cluster <==> Resident(s.cluster[NameOf(s.names, p)], p.uid) == p.Val())
  {
    assert [p][..0] == [];
    assert RemoveAll(s.cluster, s.log, s.names, []) == Sweep(s.cluster, s.log, true);
    PreemptRestoresExactlySameContent(s, [p]);
  }
}
