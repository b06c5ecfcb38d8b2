/** Unpreempt undoes PreemptPods: however much happened in between, an accepted handle gives every node
    exactly what the preemption took from it. */
module RoundTrip {
  import opened Pods
  import opened Undo
  import opened Operations
  import opened Machine
  import opened Handles

  /** The named objects have the same node names in both states. */
  ghost predicate NamesKept(w: World, v: World, pods: seq<Pod>) {
    forall p :: p in pods ==> NameOf(v.core.names, p) == NameOf(w.core.names, p)
  }

  lemma OtherCallsKeepNames(w: World, call: Call)
    requires !call.DoSchedule?
    ensures Exec(w, call).core.names == w.core.names
  {}

  /** A disciplined call does not rename an object whose removal is in the log. */
  lemma StepKeepsNames(w: World, call: Call, pods: seq<Pod>, content: string -> nat)
    requires AllPending(w.core.log, pods) && Disciplined(w, call, content)
    ensures NamesKept(w, Exec(w, call), pods)
  {
    if call.DoSchedule? {
      PendingKeepNames(w.core.log, w.core.names, Exec(w, call).core.names, pods);
    } else {
      OtherCallsKeepNames(w, call);
    }
  }

  // ----- Handles taken outside transactions

  /** Handle `i` was not taken in the open transaction, nor in one that was rolled back. */
  ghost predicate Older(w: World, i: nat) {
    i < |w.handles| && i !in w.lost && (w.core.tx.Open? ==> i < w.found)
  }

  lemma ExecOlder(w: World, call: Call, i: nat)
    requires Ordered(w) && Older(w, i)
    ensures Older(Exec(w, call), i)
  {
    ExecShape(w, call);
  }

  /** While such a handle can still be accepted outside transactions, its pods wait in the log. */
  lemma OlderWaits(w: World, i: nat)
    requires HandlesWait(w) && Older(w, i) && !w.handles[i].reverted && w.handles[i].version == Level(w.core)
    ensures AllPending(w.core.log, w.handles[i].pods)
  {
    assert Counts(w, i, Level(w.core));
    if w.core.tx.Open? {
      PendingLonger(w.core.log[..w.core.tx.len], w.core.log, w.handles[i].pods);
    }
  }

  lemma {:induction false} OlderKeepsNames(w: World, calls: seq<Call>, i: nat, content: string -> nat)
    requires Ordered(w) && HandlesWait(w) && Older(w, i) && w.handles[i].version == Level(w.core)
    requires DisciplinedRun(w, calls, content)
    requires Level(Run(w, calls).core) == Level(w.core)
    requires i < |Run(w, calls).handles| && !Run(w, calls).handles[i].reverted
    ensures var v := Run(w, calls);
      Older(v, i) && v.handles[i].pods == w.handles[i].pods && NamesKept(w, v, w.handles[i].pods)
  {
    if calls != [] {
      var front, last := calls[..|calls| - 1], calls[|calls| - 1];
      var y := Run(w, front);
      RunLevel(w, front);
      RunWaits(w, front);
      ExecLevel(y, last);
      ExecShape(y, last);
      OlderKeepsNames(w, front, i, content);
      RunLevel(w, front);
      OlderWaits(y, i);
      StepKeepsNames(y, last, y.handles[i].pods, content);
      ExecOlder(y, last, i);
    }
  }

  // ----- Handles taken inside a transaction

  lemma {:induction false} InsideKeepsNames(w: World, calls: seq<Call>, i: nat, content: string -> nat)
    requires Ordered(w) && HandlesWait(w) && w.core.tx.Open? && NoEnd(calls) && DisciplinedRun(w, calls, content)
    requires i < |w.handles| && i !in w.lost && w.handles[i].version == w.core.version == Run(w, calls).core.version
    requires i < |Run(w, calls).handles| && !Run(w, calls).handles[i].reverted
    ensures var v := Run(w, calls);
      && v.lost == w.lost && v.core.tx == w.core.tx
      && v.handles[i].pods == w.handles[i].pods && NamesKept(w, v, w.handles[i].pods)
  {
    if calls != [] {
      var front, last := calls[..|calls| - 1], calls[|calls| - 1];
      var y := Run(w, front);
      assert last in calls;
      RunLevel(w, front);
      RunInside(w, front);
      RunWaits(w, front);
      ExecShape(y, last);
      InsideKeepsNames(w, front, i, content);
      assert Counts(y, i, y.core.version);
      StepKeepsNames(y, last, y.handles[i].pods, content);
    }
  }

  // ----- The round trip

  /** Node `n` has got back what it had in `w` and not after the preemption, `t`. */
  ghost predicate GotBack(w: World, t: World, v: World, u: World, n: NodeName) {
    n in w.core.cluster && n in t.core.cluster && n in v.core.cluster && n in u.core.cluster
    && u.core.cluster[n] == v.core.cluster[n] + (w.core.cluster[n] - t.core.cluster[n])
  }

  lemma GivesBack(w: World, v: World, pods: seq<Pod>, i: nat, base: Cluster, content: string -> nat, n: NodeName)
    requires Sound(w, base, content) && Faithful(pods, content) && Preempt(w.core, pods).1.Ok?
    requires Sound(v, base, content) && HandlesWait(v) && i < |v.handles| && i !in v.lost
        && Accepts(v.core, v.handles[i])
    requires v.handles[i].pods == pods && NamesKept(w, v, pods) && n in base
    ensures GotBack(w, Exec(w, DoPreempt(pods)), v, Exec(v, DoUnpreempt(i)), n)
  {
    TakesAway(w, pods, base, content, n);
    AcceptedAddable(v, i, base, content);
    PutsBack(v, i, base, content, n);
    AtReadsOwnNames(pods, w.core.names, v.core.names, n);
    Difference(w.core.cluster[n], Exec(w, DoPreempt(pods)).core.cluster[n], At(pods, w.core.names, n));
  }

  lemma TakesAway(w: World, pods: seq<Pod>, base: Cluster, content: string -> nat, n: NodeName)
    requires Sound(w, base, content) && Faithful(pods, content) && Preempt(w.core, pods).1.Ok? && n in base
    ensures var t := Exec(w, DoPreempt(pods));
      && n in w.core.cluster && n in t.core.cluster
      && w.core.cluster[n] == t.core.cluster[n] + At(pods, w.core.names, n)
  {
    PreemptAllOrNothing(w.core, pods, content);
  }

  lemma PutsBack(v: World, i: nat, base: Cluster, content: string -> nat, n: NodeName)
    requires Sound(v, base, content) && i < |v.handles| && n in base
    requires Accepts(v.core, v.handles[i])
    requires forall p :: p in v.handles[i].pods ==> Addable(v.core.cluster, p.Val(), NameOf(v.core.names, p))
    ensures var t := Exec(v, DoUnpreempt(i));
      && n in v.core.cluster && n in t.core.cluster
      && t.core.cluster[n] == v.core.cluster[n] + At(v.handles[i].pods, v.core.names, n)
  {
    assert v.handles[i] in v.handles;
    UnpreemptExact(v.core, v.handles[i], content);
  }

  lemma Difference(before: multiset<PodVal>, after: multiset<PodVal>, taken: multiset<PodVal>)
    requires before == after + taken
    ensures before - after == taken
  {}

  /** A handle taken outside transactions and accepted after any disciplined run puts back on every node
      exactly what the preemption took from it. */
  lemma UnpreemptUndoesPreempt(w: World, pods: seq<Pod>, calls: seq<Call>, base: Cluster, content: string -> nat,
                               n: NodeName)
    requires Sound(w, base, content) && Ordered(w) && HandlesWait(w) && w.core.tx.NoTx? && n in base
    requires Faithful(pods, content) && Preempt(w.core, pods).1.Ok?
    requires DisciplinedRun(Exec(w, DoPreempt(pods)), calls, content)
    requires var v := Run(Exec(w, DoPreempt(pods)), calls);
      |w.handles| < |v.handles| && Accepts(v.core, v.handles[|w.handles|])
    ensures var t := Exec(w, DoPreempt(pods));
      GotBack(w, t, Run(t, calls), Exec(Run(t, calls), DoUnpreempt(|w.handles|)), n)
  {
    var i, t := |w.handles|, Exec(w, DoPreempt(pods));
    AcceptedExactly(w, pods, calls);
    ExecOrdered(w, DoPreempt(pods));
    ExecWaits(w, DoPreempt(pods));
    ExecSound(w, DoPreempt(pods), base, content);
    RunLevel(t, calls);
    assert t.handles[i] == Handle(pods, w.core.version, false);
    OlderKeepsNames(t, calls, i, content);
    RunSound(t, calls, base, content);
    RunWaits(t, calls);
    GivesBack(w, Run(t, calls), pods, i, base, content, n);
  }

  /** The same for a handle taken inside a transaction and accepted before the transaction ends. */
  lemma UnpreemptUndoesPreemptInside(w: World, pods: seq<Pod>, calls: seq<Call>, base: Cluster, content: string -> nat,
                                     n: NodeName)
    requires Sound(w, base, content) && Ordered(w) && HandlesWait(w) && w.core.tx.Open? && n in base
    requires Faithful(pods, content) && Preempt(w.core, pods).1.Ok? && NoEnd(calls)
    requires DisciplinedRun(Exec(w, DoPreempt(pods)), calls, content)
    requires var v := Run(Exec(w, DoPreempt(pods)), calls);
      |w.handles| < |v.handles| && Accepts(v.core, v.handles[|w.handles|])
    ensures var t := Exec(w, DoPreempt(pods));
      GotBack(w, t, Run(t, calls), Exec(Run(t, calls), DoUnpreempt(|w.handles|)), n)
  {
    var i, t := |w.handles|, Exec(w, DoPreempt(pods));
    ExecInside(w, DoPreempt(pods));
    ExecOrdered(w, DoPreempt(pods));
    ExecWaits(w, DoPreempt(pods));
    ExecSound(w, DoPreempt(pods), base, content);
    RunLevel(t, calls);
    assert t.handles[i] == Handle(pods, w.core.version, false);
    InsideKeepsNames(t, calls, i, content);
    RunSound(t, calls, base, content);
    RunWaits(t, calls);
    GivesBack(w, Run(t, calls), pods, i, base, content, n);
  }
}
