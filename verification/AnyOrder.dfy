/** Putting preempted pods back in whatever order. */
module AnyOrder {
  import opened Pods
  import opened Undo
  import opened Operations
  import opened Machine
  import opened Handles

  function Uses(order: seq<nat>): seq<Call> {
    if order == [] then [] else Uses(order[..|order| - 1]) + [DoUnpreempt(order[|order| - 1])]
  }

  ghost predicate Usable(w: World, i: nat, base: Cluster) {
    && i < |w.handles| && Accepts(w.core, w.handles[i])
    && forall p :: p in w.handles[i].pods ==> Addable(base, p.Val(), NameOf(w.core.names, p))
  }

  /** Different handles, each of which could be used now. */
  ghost predicate Choice(w: World, order: seq<nat>, base: Cluster) {
    && (forall k :: 0 <= k < |order| ==> Usable(w, order[k], base))
    && Distinct(order)
  }

  ghost predicate Issued(w: World, order: seq<nat>) {
    forall k :: 0 <= k < |order| ==> order[k] < |w.handles|
  }

  ghost function Gives(w: World, order: seq<nat>, n: NodeName): multiset<PodVal>
    requires Issued(w, order)
  {
    if order == [] then multiset{}
    else Gives(w, order[..|order| - 1], n) + At(w.handles[order[|order| - 1]].pods, w.core.names, n)
  }

  /** What using the handles in `order` has done: only they are spent, and every node has their pods back. */
  ghost predicate Returned(w: World, v: World, order: seq<nat>)
    requires Issued(w, order)
  {
    && v.core.names == w.core.names && v.core.version == w.core.version && v.core.tx == w.core.tx
    && |v.handles| == |w.handles|
    && (forall i :: 0 <= i < |w.handles| && i !in order ==> v.handles[i] == w.handles[i])
    && v.core.cluster.Keys == w.core.cluster.Keys
    && (forall n :: n in w.core.cluster ==> v.core.cluster[n] == w.core.cluster[n] + Gives(w, order, n))
  }

  lemma UseOneMore(w: World, v: World, front: seq<nat>, i: nat, base: Cluster, content: string -> nat)
    requires Choice(w, front + [i], base) && Sound(v, base, content)
    requires Issued(w, front) && Returned(w, v, front) && v.core.cluster.Keys == base.Keys
    ensures Issued(w, front + [i])
    ensures Returned(w, Exec(v, DoUnpreempt(i)), front + [i])
  {
    var order := front + [i];
    assert forall k :: 0 <= k < |order| ==> Usable(w, order[k], base);
    assert order[|front|] == i && Usable(w, i, base);
    forall j | 0 <= j < |front| ensures front[j] != i { assert order[j] != order[|front|]; }
    assert v.handles[i] == w.handles[i] && v.handles[i] in v.handles;
    UnpreemptExact(v.core, v.handles[i], content);
    assert order[..|order| - 1] == front;
    var u := Exec(v, DoUnpreempt(i));
    forall n | n in w.core.cluster ensures u.core.cluster[n] == w.core.cluster[n] + Gives(w, order, n) {
      assert Gives(w, order, n) == Gives(w, front, n) + At(w.handles[i].pods, w.core.names, n);
    }
  }

  lemma {:induction false} UseAll(w: World, order: seq<nat>, base: Cluster, content: string -> nat)
    requires Sound(w, base, content) && Choice(w, order, base)
    ensures Issued(w, order) && Returned(w, Run(w, Uses(order)), order) && Sound(Run(w, Uses(order)), base, content)
    ensures Extends(w.core, Run(w, Uses(order)).core)
  {
    assert forall k :: 0 <= k < |order| ==> Usable(w, order[k], base);
    if order == [] {
      ExtendsReflexive(w.core);
    } else {
      var front, i := order[..|order| - 1], order[|order| - 1];
      assert order == front + [i];
      assert forall k :: 0 <= k < |front| ==> front[k] == order[k];
      UseAll(w, front, base, content);
      var v := Run(w, Uses(front));
      assert Run(w, Uses(order)) == Exec(v, DoUnpreempt(i)) by {
        assert Uses(order)[..|Uses(order)| - 1] == Uses(front);
      }
      UseOneMore(w, v, front, i, base, content);
      ExecSound(v, DoUnpreempt(i), base, content);
      ExecExtends(v, DoUnpreempt(i), base, content);
      ExtendsTransitive(w.core, v.core, Exec(v, DoUnpreempt(i)).core);
    }
  }

  lemma GivesSnoc(w: World, front: seq<nat>, i: nat, n: NodeName)
    requires Issued(w, front) && i < |w.handles|
    ensures Issued(w, front + [i])
        && Gives(w, front + [i], n) == Gives(w, front, n) + At(w.handles[i].pods, w.core.names, n)
  {
    assert (front + [i])[..|front|] == front;
  }

  lemma Regroup(a: multiset<PodVal>, b: multiset<PodVal>, c: multiset<PodVal>)
    ensures a + b + c == a + c + b
  {}

  lemma {:induction false} GivesSplit(w: World, order: seq<nat>, k: nat, n: NodeName)
    requires k < |order| && Issued(w, order)
    ensures Gives(w, order, n) == Gives(w, order[..k] + order[k + 1..], n)
        + At(w.handles[order[k]].pods, w.core.names, n)
  {
    var m := |order| - 1;
    var front, last := order[..m], order[m];
    assert order == front + [last];
    GivesSnoc(w, front, last, n);
    if k == m {
      assert order[..k] + order[k + 1..] == front;
    } else {
      var rest := front[..k] + front[k + 1..];
      assert order[..k] + order[k + 1..] == rest + [last];
      GivesSplit(w, front, k, n);
      GivesSnoc(w, rest, last, n);
      Regroup(Gives(w, rest, n), At(w.handles[front[k]].pods, w.core.names, n),
          At(w.handles[last].pods, w.core.names, n));
    }
  }

  lemma {:induction false} GivesPermuted(w: World, a: seq<nat>, b: seq<nat>, n: NodeName)
    requires multiset(a) == multiset(b) && Issued(w, a) && Issued(w, b)
    ensures Gives(w, a, n) == Gives(w, b, n)
    decreases |a|
  {
    if a == [] {
      assert |multiset(b)| == 0;
    } else {
      var m := |a| - 1;
      var k := Position(b, a[m], a);
      var rest := b[..k] + b[k + 1..];
      RestPermuted(a, b, k);
      assert Issued(w, rest);
      GivesPermuted(w, a[..m], rest, n);
      GivesSplit(w, b, k, n);
    }
  }

  lemma Position(b: seq<nat>, x: nat, a: seq<nat>) returns (k: nat)
    requires multiset(a) == multiset(b) && x in a
    ensures k < |b| && b[k] == x
  {
    assert x in multiset(b);
    k :| 0 <= k < |b| && b[k] == x;
  }

  lemma RestPermuted(a: seq<nat>, b: seq<nat>, k: nat)
    requires a != [] && multiset(a) == multiset(b) && k < |b| && b[k] == a[|a| - 1]
    ensures multiset(a[..|a| - 1]) == multiset(b[..k] + b[k + 1..])
  {
    assert a == a[..|a| - 1] + [a[|a| - 1]];
    assert b == b[..k] + [b[k]] + b[k + 1..];
    assert multiset(a[..|a| - 1]) == multiset(a) - multiset{b[k]};
    assert multiset(b[..k] + b[k + 1..]) == multiset(b) - multiset{b[k]};
  }

  /** Different handles that are accepted now. Of those from a rolled-back transaction it is also asked that
      their pods can be put back; for all others that follows. */
  ghost predicate Accepted(w: World, order: seq<nat>, base: Cluster) {
    && Distinct(order)
    && (forall k :: 0 <= k < |order| ==> order[k] < |w.handles| && Accepts(w.core, w.handles[order[k]]))
    && (forall k :: 0 <= k < |order| && order[k] in w.lost ==> Usable(w, order[k], base))
  }

  lemma AcceptedUsable(w: World, order: seq<nat>, base: Cluster, content: string -> nat)
    requires Sound(w, base, content) && HandlesWait(w) && Accepted(w, order, base)
    ensures Choice(w, order, base)
  {
    forall k | 0 <= k < |order| ensures Usable(w, order[k], base) {
      if order[k] !in w.lost { AcceptedAddable(w, order[k], base, content); }
    }
  }

  /** Any set of usable handles can be used in any order with the same pods on every node. */
  lemma UnpreemptInAnyOrder(w: World, a: seq<nat>, b: seq<nat>, base: Cluster, content: string -> nat)
    requires Sound(w, base, content) && HandlesWait(w)
    requires Accepted(w, a, base) && Accepted(w, b, base) && multiset(a) == multiset(b)
    ensures Run(w, Uses(a)).core.cluster == Run(w, Uses(b)).core.cluster
  {
    AcceptedUsable(w, a, base, content);
    AcceptedUsable(w, b, base, content);
    UseAll(w, a, base, content);
    UseAll(w, b, base, content);
    forall n { GivesPermuted(w, a, b, n); }
    SameNodes(w, Run(w, Uses(a)), Run(w, Uses(b)), a, b);
  }

  lemma SameNodes(w: World, v: World, u: World, a: seq<nat>, b: seq<nat>)
    requires Issued(w, a) && Issued(w, b) && Returned(w, v, a) && Returned(w, u, b)
    requires forall n :: Gives(w, a, n) == Gives(w, b, n)
    ensures v.core.cluster == u.core.cluster
  {}

  /** From any point along the way, every version recorded before the first use still restores as it did,
      so resetting or reverting brings back the state before the preemptions. */
  lemma UnpreemptKeepsPast(w: World, order: seq<nat>, base: Cluster, content: string -> nat, i: nat)
    requires Sound(w, base, content) && HandlesWait(w) && Accepted(w, order, base) && i <= |w.core.log|
    ensures var t := Run(w, Uses(order)).core;
      i <= |t.log| && Past(t, i) == Past(w.core, i) && t.log[..i] == w.core.log[..i]
  {
    AcceptedUsable(w, order, base, content);
    UseAll(w, order, base, content);
    ExtendsKeepsHistory(w.core, Run(w, Uses(order)).core, i);
  }
}
