/** A wrapper that remembers, by UID, what was added to and removed from a snapshot, and can take it back. */
module Mutating {
  import opened Pods
  import opened Store

  /** The pod a restore callback closes over, with the node it names. */
  datatype PodAt = PodAt(val: PodVal, node: NodeName)

  type Marks = map<string, PodAt>

  /** The wrapped snapshot as a value. */
  datatype Wrapped = Wrapped(cluster: Cluster, added: Marks, removed: Marks)

  function AddTracked(w: Wrapped, v: PodVal, n: NodeName): Wrapped {
    if !Addable(w.cluster, v, n) then w
    else if v.uid in w.removed then Wrapped(Add(w.cluster, v, n), w.added, w.removed - {v.uid})
    else Wrapped(Add(w.cluster, v, n), w.added[v.uid := PodAt(v, n)], w.removed)
  }

  function RemoveTracked(w: Wrapped, v: PodVal, n: NodeName): Wrapped {
    if !Removable(w.cluster, v, n) then w
    else if v.uid in w.added then Wrapped(Remove(w.cluster, v, n), w.added - {v.uid}, w.removed)
    else Wrapped(Remove(w.cluster, v, n), w.added, w.removed[v.uid := PodAt(v, n)])
  }

  /** How often `marks` names pod `v` on node `n`: the marks are keyed by UID, so at most once. */
  function Marked(marks: Marks, v: PodVal, n: NodeName): nat {
    if v.uid in marks && marks[v.uid] == PodAt(v, n) then 1 else 0
  }

  ghost predicate Proper(marks: Marks, c: Cluster, content: string -> nat) {
    forall k :: k in marks ==>
      && k != "" && marks[k].val.uid == k && marks[k].val.request == content(k) && marks[k].node in c
  }

  /** What every sequence of calls keeps, however the pods move: no UID is marked both ways, and every pod
      marked as added is still where it was added. */
  ghost predicate Consistent(w: Wrapped, content: string -> nat) {
    && Uniform(w.cluster, content)
    && Proper(w.added, w.cluster, content) && Proper(w.removed, w.cluster, content)
    && w.added.Keys !! w.removed.Keys
    && (forall k :: k in w.added ==> w.added[k].val in w.cluster[w.added[k].node])
  }

  /** At node `n` the marks account for every copy of `v` that came or went. */
  ghost predicate Accounted(w: Wrapped, start: Cluster, n: NodeName, v: PodVal)
    requires n in w.cluster && n in start
  {
    w.cluster[n][v] + Marked(w.removed, v, n) == start[n][v] + Marked(w.added, v, n)
  }

  /** The marks are the net difference between the current and the initial pods. */
  ghost predicate Balanced(w: Wrapped, start: Cluster) {
    && w.cluster.Keys == start.Keys
    && forall n, v :: n in start ==> Accounted(w, start, n, v)
  }

  /** What a caller can check before adding a pod: if its UID is marked as removed, this very pod was
      removed from this very node; if not, its UID is not marked as added either. */
  predicate AddGuard(w: Wrapped, v: PodVal, n: NodeName) {
    if v.uid in w.removed then w.removed[v.uid] == PodAt(v, n) else v.uid !in w.added
  }

  predicate RemoveGuard(w: Wrapped, v: PodVal, n: NodeName) {
    if v.uid in w.added then w.added[v.uid] == PodAt(v, n) else v.uid !in w.removed
  }

  lemma AddedKeepsConsistent(w: Wrapped, v: PodVal, n: NodeName, content: string -> nat)
    requires Consistent(w, content) && v.request == content(v.uid) && Addable(w.cluster, v, n)
    requires Uniform(Add(w.cluster, v, n), content)
    ensures var c := Add(w.cluster, v, n);
      && (v.uid in w.removed ==> Consistent(Wrapped(c, w.added, w.removed - {v.uid}), content))
      && (v.uid !in w.removed ==> Consistent(Wrapped(c, w.added[v.uid := PodAt(v, n)], w.removed), content))
  {}

  lemma AddKeepsConsistent(w: Wrapped, v: PodVal, n: NodeName, content: string -> nat)
    requires Consistent(w, content) && v.request == content(v.uid)
    ensures Consistent(AddTracked(w, v, n), content)
  {
    if Addable(w.cluster, v, n) {
      AddKeepsUniform(w.cluster, v, n, content);
      AddedKeepsConsistent(w, v, n, content);
    }
  }

  /** With uniform contents, removing by UID takes the very pod named. */
  lemma RemoveTrackedIs(w: Wrapped, v: PodVal, n: NodeName, content: string -> nat)
    requires Uniform(w.cluster, content) && v.request == content(v.uid) && Removable(w.cluster, v, n)
    ensures v in w.cluster[n]
    ensures var c := w.cluster[n := w.cluster[n] - multiset{v}];
      && Uniform(c, content)
      && RemoveTracked(w, v, n) ==
         if v.uid in w.added then Wrapped(c, w.added - {v.uid}, w.removed)
         else Wrapped(c, w.added, w.removed[v.uid := PodAt(v, n)])
  {
    RemoveTakesEqual(w.cluster, v, n, content);
  }

  lemma RemoveKeepsConsistent(w: Wrapped, v: PodVal, n: NodeName, content: string -> nat)
    requires Consistent(w, content) && v.request == content(v.uid)
    ensures Consistent(RemoveTracked(w, v, n), content)
  {
    if Removable(w.cluster, v, n) {
      RemoveTrackedIs(w, v, n, content);
      TakenKeepsConsistent(w, v, n, content);
    }
  }

  lemma TakenKeepsConsistent(w: Wrapped, v: PodVal, n: NodeName, content: string -> nat)
    requires Consistent(w, content) && v.request == content(v.uid) && v.uid != "" && n in w.cluster && v in w.cluster[n]
    requires Uniform(w.cluster[n := w.cluster[n] - multiset{v}], content)
    ensures var c := w.cluster[n := w.cluster[n] - multiset{v}];
      && (v.uid in w.added ==> Consistent(Wrapped(c, w.added - {v.uid}, w.removed), content))
      && (v.uid !in w.added ==> Consistent(Wrapped(c, w.added, w.removed[v.uid := PodAt(v, n)]), content))
  {}

  /** With the guard held a call changes pods and marks in step, pod by pod. */
  lemma AddLevel(w: Wrapped, start: Cluster, v: PodVal, n: NodeName, m: NodeName, u: PodVal, content: string -> nat)
    requires Consistent(w, content) && m in w.cluster && m in start
    requires Addable(w.cluster, v, n) && AddGuard(w, v, n)
    ensures Accounted(AddTracked(w, v, n), start, m, u) <==> Accounted(w, start, m, u)
  {}

  lemma TakenCount(c: Cluster, v: PodVal, n: NodeName, m: NodeName, u: PodVal)
    requires n in c && m in c && v in c[n]
    ensures c[n := c[n] - multiset{v}][m][u] == c[m][u] - (if m == n && u == v then 1 else 0)
  {}

  lemma RemoveMarks(added: Marks, removed: Marks, v: PodVal, n: NodeName, m: NodeName, u: PodVal)
    requires if v.uid in added then added[v.uid] == PodAt(v, n) else v.uid !in removed
    ensures v.uid in added ==>
      Marked(added - {v.uid}, u, m) == Marked(added, u, m) - (if m == n && u == v then 1 else 0)
    ensures v.uid !in added ==>
      Marked(removed[v.uid := PodAt(v, n)], u, m) == Marked(removed, u, m) + (if m == n && u == v then 1 else 0)
  {}

  /** Taking one copy away and marking it, or dropping its mark, are the same to the count. */
  lemma TakenLevel(w: Wrapped, t: Wrapped, start: Cluster, m: NodeName, u: PodVal, one: nat)
    requires m in w.cluster && m in start && m in t.cluster
    requires t.cluster[m][u] == w.cluster[m][u] - one
    requires Marked(t.removed, u, m) - Marked(t.added, u, m) == Marked(w.removed, u, m) - Marked(w.added, u, m) + one
    ensures Accounted(t, start, m, u) <==> Accounted(w, start, m, u)
  {}

  lemma RemoveLevel(w: Wrapped, start: Cluster, v: PodVal, n: NodeName, m: NodeName, u: PodVal, content: string -> nat)
    requires Consistent(w, content) && m in w.cluster && m in start
    requires Removable(w.cluster, v, n) && v.request == content(v.uid) && RemoveGuard(w, v, n)
    ensures m in RemoveTracked(w, v, n).cluster
    ensures Accounted(RemoveTracked(w, v, n), start, m, u) <==> Accounted(w, start, m, u)
  {
    RemoveTrackedIs(w, v, n, content);
    TakenCount(w.cluster, v, n, m, u);
    RemoveMarks(w.added, w.removed, v, n, m, u);
    TakenLevel(w, RemoveTracked(w, v, n), start, m, u, if m == n && u == v then 1 else 0);
  }

  lemma AddInStep(w: Wrapped, start: Cluster, v: PodVal, n: NodeName, content: string -> nat)
    requires Consistent(w, content) && Addable(w.cluster, v, n) && AddGuard(w, v, n)
    ensures Balanced(AddTracked(w, v, n), start) <==> Balanced(w, start)
  {
    var t := AddTracked(w, v, n);
    assert t.cluster.Keys == w.cluster.Keys;
    if w.cluster.Keys == start.Keys {
      forall m, u | m in start ensures Accounted(t, start, m, u) <==> Accounted(w, start, m, u) {
        AddLevel(w, start, v, n, m, u, content);
      }
    }
  }

  lemma RemoveInStep(w: Wrapped, start: Cluster, v: PodVal, n: NodeName, content: string -> nat)
    requires Consistent(w, content) && Removable(w.cluster, v, n) && v.request == content(v.uid) && RemoveGuard(w, v, n)
    ensures Balanced(RemoveTracked(w, v, n), start) <==> Balanced(w, start)
  {
    RemoveTrackedIs(w, v, n, content);
    var t := RemoveTracked(w, v, n);
    assert t.cluster.Keys == w.cluster.Keys;
    if w.cluster.Keys == start.Keys {
      forall m, u | m in start ensures Accounted(t, start, m, u) <==> Accounted(w, start, m, u) {
        RemoveLevel(w, start, v, n, m, u, content);
      }
    }
  }

  /** The mark that goes wrong when the guard fails. */
  lemma AddUnlevel(w: Wrapped, start: Cluster, v: PodVal, n: NodeName, x: PodAt, content: string -> nat)
    requires Consistent(w, content) && Balanced(w, start) && Addable(w.cluster, v, n) && !AddGuard(w, v, n)
    requires x == if v.uid in w.removed then w.removed[v.uid] else w.added[v.uid]
    ensures x.node in start && !Accounted(AddTracked(w, v, n), start, x.node, x.val)
  {
    assert Accounted(w, start, x.node, x.val);
  }

  lemma RemoveUnlevel(w: Wrapped, start: Cluster, v: PodVal, n: NodeName, x: PodAt, content: string -> nat)
    requires Consistent(w, content) && Balanced(w, start) && Removable(w.cluster, v, n) && !RemoveGuard(w, v, n)
    requires v.request == content(v.uid)
    requires x == if v.uid in w.added then w.added[v.uid] else w.removed[v.uid]
    ensures x.node in start && x.node in RemoveTracked(w, v, n).cluster
    ensures !Accounted(RemoveTracked(w, v, n), start, x.node, x.val)
  {
    RemoveTrackedIs(w, v, n, content);
    assert Accounted(w, start, x.node, x.val);
  }

  /** From marks that are right, an added pod leaves them right exactly when the guard held. */
  lemma AddBalancedExactly(w: Wrapped, start: Cluster, v: PodVal, n: NodeName, content: string -> nat)
    requires Consistent(w, content) && Balanced(w, start) && Addable(w.cluster, v, n)
    ensures Balanced(AddTracked(w, v, n), start) <==> AddGuard(w, v, n)
  {
    if AddGuard(w, v, n) {
      AddInStep(w, start, v, n, content);
    } else {
      AddUnlevel(w, start, v, n, if v.uid in w.removed then w.removed[v.uid] else w.added[v.uid], content);
    }
  }

  lemma RemoveBalancedExactly(w: Wrapped, start: Cluster, v: PodVal, n: NodeName, content: string -> nat)
    requires Consistent(w, content) && Balanced(w, start) && Removable(w.cluster, v, n) && v.request == content(v.uid)
    ensures Balanced(RemoveTracked(w, v, n), start) <==> RemoveGuard(w, v, n)
  {
    RemoveTrackedIs(w, v, n, content);
    if RemoveGuard(w, v, n) {
      RemoveInStep(w, start, v, n, content);
    } else {
      RemoveUnlevel(w, start, v, n, if v.uid in w.added then w.added[v.uid] else w.removed[v.uid], content);
    }
  }

  /** A call on the wrapper. */
  datatype Change = Adds(val: PodVal, node: NodeName) | Takes(val: PodVal, node: NodeName)

  function Track(w: Wrapped, changes: seq<Change>): Wrapped {
    if changes == [] then w
    else
      var t := Track(w, changes[..|changes| - 1]);
      match changes[|changes| - 1]
      case Adds(v, n) => AddTracked(t, v, n)
      case Takes(v, n) => RemoveTracked(t, v, n)
  }

  predicate Careful(w: Wrapped, change: Change) {
    match change
    case Adds(v, n) => Addable(w.cluster, v, n) ==> AddGuard(w, v, n)
    case Takes(v, n) => Removable(w.cluster, v, n) ==> RemoveGuard(w, v, n)
  }

  predicate CarefulRun(w: Wrapped, changes: seq<Change>) {
    changes == [] || (
      && CarefulRun(w, changes[..|changes| - 1])
      && Careful(Track(w, changes[..|changes| - 1]), changes[|changes| - 1]))
  }

  /** After any calls on a new wrapper its marks are consistent; as long as the first call without the
      guard is still to come, they are also the net difference from the initial pods, and that call is
      where they stop being so. */
  lemma {:induction false} RunBalanced(start: Cluster, changes: seq<Change>, content: string -> nat)
    requires Uniform(start, content)
    requires forall c :: c in changes ==> c.val.request == content(c.val.uid)
    ensures Consistent(Track(Wrapped(start, map[], map[]), changes), content)
    ensures changes != [] && CarefulRun(Wrapped(start, map[], map[]), changes[..|changes| - 1]) ==>
      (Balanced(Track(Wrapped(start, map[], map[]), changes), start) <==>
          CarefulRun(Wrapped(start, map[], map[]), changes))
    ensures CarefulRun(Wrapped(start, map[], map[]), changes) ==>
        Balanced(Track(Wrapped(start, map[], map[]), changes), start)
  {
    var w := Wrapped(start, map[], map[]);
    if changes != [] {
      var front, last := changes[..|changes| - 1], changes[|changes| - 1];
      RunBalanced(start, front, content);
      assert last in changes;
      ChangeBalanced(Track(w, front), start, last, content);
    }
  }

  lemma ChangeBalanced(w: Wrapped, start: Cluster, change: Change, content: string -> nat)
    requires Consistent(w, content) && change.val.request == content(change.val.uid)
    ensures var t := match change { case Adds(v, n) => AddTracked(w, v, n) case Takes(v, n) => RemoveTracked(w, v, n) };
      Consistent(t, content) && (Balanced(w, start) ==> (Balanced(t, start) <==> Careful(w, change)))
  {
    match change
    case Adds(v, n) =>
      AddKeepsConsistent(w, v, n, content);
      if Addable(w.cluster, v, n) && Balanced(w, start) { AddBalancedExactly(w, start, v, n, content); }
    case Takes(v, n) =>
      RemoveKeepsConsistent(w, v, n, content);
      if Removable(w.cluster, v, n) && Balanced(w, start) { RemoveBalancedExactly(w, start, v, n, content); }
  }

  lemma NoMarksLeft(w: Wrapped, start: Cluster)
    requires w.added == map[] && w.removed == map[]
    ensures Balanced(w, start) <==> w.cluster == start
  {
    if Balanced(w, start) {
      forall n | n in start ensures w.cluster[n] == start[n] {
        forall v ensures w.cluster[n][v] == start[n][v] { assert Accounted(w, start, n, v); }
      }
    }
  }

  /** When no pod is listed twice, the marks of a balanced wrapper are the two set differences. */
  lemma MarksAreDifferences(w: Wrapped, start: Cluster, content: string -> nat, v: PodVal, n: NodeName)
    requires Consistent(w, content) && Balanced(w, start) && n in start && start[n][v] <= 1 && w.cluster[n][v] <= 1
    ensures Marked(w.added, v, n) == 1 <==> v in w.cluster[n] && v !in start[n]
    ensures Marked(w.removed, v, n) == 1 <==> v in start[n] && v !in w.cluster[n]
  {
    assert Accounted(w, start, n, v);
  }

  lemma GenerationPutBack(generations: map<NodeName, nat>, n: NodeName, g: nat)
    requires n in generations
    ensures generations[n := g][n := generations[n]] == generations && generations[n := generations[n]] == generations
  {}

  class MutatingSnapshot {
    const store: SchedulerSnapshot
    var addedPods: Marks
    var removedPods: Marks

    ghost function View(): Wrapped
      reads this, store
    {
      Wrapped(store.nodes, addedPods, removedPods)
    }

    constructor (store: SchedulerSnapshot)
      ensures this.store == store && addedPods == map[] && removedPods == map[]
    {
      this.store, addedPods, removedPods := store, map[], map[];
    }

    /** Fails without a trace when the pod has no UID or names an unknown node. A success leaves the
        generation of the node as it was. */
    method AddPod(v: PodVal, n: NodeName) returns (ok: bool)
      requires store.Valid()
      modifies this, store
      ensures store.Valid() && store.generations == old(store.generations)
      ensures ok <==> Addable(old(store.nodes), v, n)
      ensures View() == AddTracked(old(View()), v, n)
    {
      if v.uid == "" || n !in store.nodes { return false; }
      var oldGeneration := store.generations[n];
      store.AddPodInfo(v, n);
      if v.uid in removedPods {
        removedPods := removedPods - {v.uid};
      } else {
        addedPods := addedPods[v.uid := PodAt(v, n)];
      }
      GenerationPutBack(old(store.generations), n, store.clock);
      store.generations := store.generations[n := oldGeneration];
      ok := true;
    }

    /** Removes from the node and gives it back the generation it had. */
    method RemoveFromNode(v: PodVal, n: NodeName) returns (ok: bool)
      requires store.Valid() && n in store.nodes
      modifies store
      ensures store.Valid() && store.generations == old(store.generations)
      ensures ok <==> Removable(old(store.nodes), v, n)
      ensures store.nodes == if ok then Remove(old(store.nodes), v, n) else old(store.nodes)
    {
      var oldGeneration := store.generations[n];
      ok := store.RemovePodInfo(v, n);
      GenerationPutBack(old(store.generations), n, store.clock);
      store.generations := store.generations[n := oldGeneration];
    }

    /** Fails without a trace when the node does not list the pod's UID. */
    method RemovePod(v: PodVal, n: NodeName) returns (ok: bool)
      requires store.Valid()
      modifies this, store
      ensures store.Valid() && store.generations == old(store.generations)
      ensures ok <==> Removable(old(store.nodes), v, n)
      ensures View() == RemoveTracked(old(View()), v, n)
    {
      if v.uid == "" || n !in store.nodes { return false; }
      ok := RemoveFromNode(v, n);
      if ok {
        if v.uid in addedPods {
          addedPods := addedPods - {v.uid};
        } else {
          removedPods := removedPods[v.uid := PodAt(v, n)];
        }
      }
    }

    /** The first loop of RestoreState. The walk may take the keys in any order: each callback deletes
        its own key from the map being walked, and no other. */
    method RestoreAdded(ghost start: Cluster, ghost content: string -> nat)
      requires store.Valid() && Consistent(View(), content)
      modifies this, store
      ensures store.Valid() && store.generations == old(store.generations)
      ensures Consistent(View(), content) && addedPods == map[]
      ensures Balanced(View(), start) <==> Balanced(old(View()), start)
    {
      var keys := addedPods.Keys;
      while keys != {}
        invariant store.Valid() && store.generations == old(store.generations)
        invariant Consistent(View(), content) && keys == addedPods.Keys
        invariant Balanced(View(), start) <==> Balanced(old(View()), start)
        decreases keys
      {
        var k :| k in keys;
        keys := keys - {k};
        var x := addedPods[k];
        assert x.val.uid == k && x.val.request == content(k) && x.val in store.nodes[x.node];
        ghost var w := View();
        RemoveTakesEqual(store.nodes, x.val, x.node, content);
        RemoveInStep(w, start, x.val, x.node, content);
        RemoveKeepsConsistent(w, x.val, x.node, content);
        var _ := RemovePod(x.val, x.node);
        assert addedPods == w.added - {k};
      }
    }

    /** The second loop of RestoreState. */
    method RestoreRemoved(ghost start: Cluster, ghost content: string -> nat)
      requires store.Valid() && Consistent(View(), content) && addedPods == map[]
      modifies this, store
      ensures store.Valid() && store.generations == old(store.generations)
      ensures Consistent(View(), content) && addedPods == map[] && removedPods == map[]
      ensures Balanced(View(), start) <==> Balanced(old(View()), start)
    {
      var keys := removedPods.Keys;
      while keys != {}
        invariant store.Valid() && store.generations == old(store.generations)
        invariant Consistent(View(), content) && addedPods == map[] && keys == removedPods.Keys
        invariant Balanced(View(), start) <==> Balanced(old(View()), start)
        decreases keys
      {
        var k :| k in keys;
        keys := keys - {k};
        var x := removedPods[k];
        assert x.val.uid == k && x.val.request == content(k) && x.node in store.nodes;
        ghost var w := View();
        AddInStep(w, start, x.val, x.node, content);
        AddKeepsConsistent(w, x.val, x.node, content);
        var _ := AddPod(x.val, x.node);
        assert removedPods == w.removed - {k};
      }
    }

    /** Takes back every mark. The nodes end up as `start`, whatever that is, exactly when the marks were
        the net difference from `start`. */
    method RestoreState(ghost start: Cluster, ghost content: string -> nat)
      requires store.Valid() && Consistent(View(), content)
      modifies this, store
      ensures store.Valid() && store.generations == old(store.generations)
      ensures addedPods == map[] && removedPods == map[]
      ensures store.nodes == start <==> Balanced(old(View()), start)
    {
      RestoreAdded(start, content);
      RestoreRemoved(start, content);
      addedPods, removedPods := map[], map[];
      NoMarksLeft(View(), start);
    }
  }
}
