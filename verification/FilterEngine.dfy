/** The parallel search for nodes that pass the filters: workers claim slots of a shared buffer with an
    atomic add, a compare and, when they came too late, an atomic subtract.

    Every atomic step of every worker is one step here, and a run is any sequence of picks of which
    piece of work moves next. */
module FilterEngine {
  import opened Pods

  datatype Verdict = Pass | Reject(why: Why) | Fail
  datatype Option<+T> = None | Some(value: T)

  /** Where a piece of work is. `Added(n)` has done its atomic add and read `n` from it. */
  datatype Piece =
    | Idle
    | Running
    | Passed
    | Added(length: int)
    | Over
    | Sent
    | Took(slot: nat)
    | Refused
    | Rejected
    | Failed

  /** The shared state. `takers` and `late` are history: the pieces that took a slot, in slot order, and
      those that have added themselves too late and not yet subtracted. */
  datatype Engine = Engine(
    pieces: seq<Piece>,
    counter: int,
    slots: seq<Option<nat>>,
    rejected: seq<Option<Why>>,
    error: bool,
    cancelled: bool,
    takers: seq<nat>,
    late: set<nat>)

  function Start(n: nat, limit: nat): Engine {
    Engine(seq(n, _ => Idle), 0, seq(limit, _ => None), seq(n, _ => None), false, false, [], {})
  }

  /** Piece `i` has read `length` from its atomic add: it has a slot if `length` is within the buffer. */
  predicate InBuffer(length: int, limit: nat) {
    0 < length <= limit
  }

  function Claim(e: Engine, i: nat): Engine
    requires i < |e.pieces|
  {
    var length := e.counter + 1;
    var f := e.(pieces := e.pieces[i := Added(length)], counter := length);
    if InBuffer(length, |e.slots|) then f.(takers := e.takers + [i]) else f.(late := e.late + {i})
  }

  function Settle(e: Engine, i: nat, length: int): Engine
    requires i < |e.pieces|
  {
    if InBuffer(length, |e.slots|) then
      e.(pieces := e.pieces[i := Took(length - 1)], slots := e.slots[length - 1 := Some(i)])
    else
      e.(pieces := e.pieces[i := Over], cancelled := true)
  }

  function Check(e: Engine, i: nat, verdict: Verdict): Engine
    requires i < |e.pieces| == |e.rejected|
  {
    match verdict
    case Pass => e.(pieces := e.pieces[i := Passed])
    case Reject(why) => e.(pieces := e.pieces[i := Rejected], rejected := e.rejected[i := Some(why)])
    case Fail => e.(pieces := e.pieces[i := Sent], error := true)
  }

  /** The next step of piece `i`. A worker looks at the context before it starts a piece, never later. */
  function Step(e: Engine, i: nat, verdicts: seq<Verdict>): Engine
    requires |e.pieces| == |e.rejected| == |verdicts|
  {
    if i >= |e.pieces| then e
    else
      match e.pieces[i]
      case Idle => if e.cancelled then e else e.(pieces := e.pieces[i := Running])
      case Running => Check(e, i, verdicts[i])
      case Sent => e.(pieces := e.pieces[i := Failed], cancelled := true)
      case Passed => Claim(e, i)
      case Added(length) => Settle(e, i, length)
      case Over => e.(pieces := e.pieces[i := Refused], counter := e.counter - 1, late := e.late - {i})
      case _ => e
  }

  // ---- What every interleaving keeps ----

  /** Piece `p` holds a slot, written or about to be. */
  ghost predicate HasSlot(p: Piece, limit: nat) {
    (p.Added? && InBuffer(p.length, limit)) || p.Took?
  }

  ghost function SlotOf(p: Piece, limit: nat): nat
    requires HasSlot(p, limit)
  {
    if p.Took? then p.slot else p.length - 1
  }

  /** Piece `p` claimed too late and has not yet taken its claim back. */
  ghost predicate TooLate(p: Piece, limit: nat) {
    (p.Added? && !InBuffer(p.length, limit)) || p.Over?
  }

  ghost predicate Failing(p: Piece) {
    p.Sent? || p.Failed?
  }

  ghost predicate Sized(e: Engine, verdicts: seq<Verdict>, limit: nat) {
    |e.pieces| == |e.rejected| == |verdicts| && |e.slots| == limit
  }

  ghost predicate Counted(e: Engine, limit: nat) {
    && e.counter == |e.takers| + |e.late|
    && |e.takers| <= limit
    && (e.late != {} ==> |e.takers| == limit)
  }

  ghost predicate TakersHold(e: Engine, limit: nat) {
    forall k :: 0 <= k < |e.takers| ==>
      e.takers[k] < |e.pieces| && HasSlot(e.pieces[e.takers[k]], limit) && SlotOf(e.pieces[e.takers[k]], limit) == k
  }

  ghost predicate HoldersTook(e: Engine, limit: nat) {
    forall i :: 0 <= i < |e.pieces| && HasSlot(e.pieces[i], limit) ==>
      SlotOf(e.pieces[i], limit) < |e.takers| && e.takers[SlotOf(e.pieces[i], limit)] == i
  }

  ghost predicate LateRight(e: Engine, limit: nat) {
    && (forall i :: i in e.late ==> i < |e.pieces|)
    && (forall i :: 0 <= i < |e.pieces| ==> (i in e.late <==> TooLate(e.pieces[i], limit)))
  }

  ghost predicate FullOnceRefused(e: Engine, limit: nat) {
    forall i :: 0 <= i < |e.pieces| && e.pieces[i].Refused? ==> |e.takers| == limit
  }

  /** A slot holds exactly the piece that took it, once that piece has written. */
  ghost predicate SlotRight(e: Engine, k: nat)
    requires k < |e.slots|
  {
    && (e.slots[k].Some? ==> k < |e.takers| && e.slots[k].value == e.takers[k])
    && (k < |e.takers| && e.takers[k] < |e.pieces| ==> (e.slots[k].Some? <==> e.pieces[e.takers[k]].Took?))
  }

  ghost predicate SlotsRight(e: Engine) {
    forall k :: 0 <= k < |e.slots| ==> SlotRight(e, k)
  }

  ghost predicate Agrees(p: Piece, verdict: Verdict, rejected: Option<Why>) {
    && (p.Passed? || p.Added? || p.Over? || p.Took? || p.Refused? ==> verdict == Pass)
    && (p.Added? ==> p.length > 0)
    && (Failing(p) ==> verdict == Fail)
    && (p.Rejected? ==> verdict.Reject? && rejected == Some(verdict.why))
    && (!p.Rejected? ==> rejected == None)
  }

  ghost predicate VerdictsRight(e: Engine, verdicts: seq<Verdict>)
    requires |e.pieces| == |e.rejected| == |verdicts|
  {
    forall i :: 0 <= i < |e.pieces| ==> Agrees(e.pieces[i], verdicts[i], e.rejected[i])
  }

  ghost predicate SomeFailing(pieces: seq<Piece>) {
    exists i :: 0 <= i < |pieces| && Failing(pieces[i])
  }

  /** Piece `p` has cancelled the search: it came too late or its filters failed. */
  ghost predicate Cancels(p: Piece) {
    p.Over? || p.Refused? || p.Failed?
  }

  ghost predicate SomeCancels(pieces: seq<Piece>) {
    exists i :: 0 <= i < |pieces| && Cancels(pieces[i])
  }

  ghost predicate Inv(e: Engine, verdicts: seq<Verdict>, limit: nat) {
    && Sized(e, verdicts, limit)
    && Counted(e, limit)
    && TakersHold(e, limit)
    && HoldersTook(e, limit)
    && LateRight(e, limit)
    && FullOnceRefused(e, limit)
    && SlotsRight(e)
    && VerdictsRight(e, verdicts)
    && (e.error <==> SomeFailing(e.pieces))
    && (e.cancelled <==> SomeCancels(e.pieces))
  }

  lemma StartInv(verdicts: seq<Verdict>, limit: nat)
    ensures Inv(Start(|verdicts|, limit), verdicts, limit)
  {}

  lemma OneMoreLate(e: Engine, i: nat)
    requires i !in e.late
    ensures |e.late + {i}| == |e.late| + 1
  {}

  /** A step of piece `i` that records what its verdict says leaves all verdicts right. */
  lemma VerdictsKept(e: Engine, f: Engine, i: nat, verdicts: seq<Verdict>)
    requires i < |e.pieces| == |e.rejected| == |verdicts| && VerdictsRight(e, verdicts)
    requires |f.pieces| == |f.rejected| == |e.pieces|
    requires f.pieces == e.pieces[i := f.pieces[i]] && f.rejected == e.rejected[i := f.rejected[i]]
    requires Agrees(f.pieces[i], verdicts[i], f.rejected[i])
    ensures VerdictsRight(f, verdicts)
  {
    forall j | 0 <= j < |f.pieces| ensures Agrees(f.pieces[j], verdicts[j], f.rejected[j]) {
      assert Agrees(e.pieces[j], verdicts[j], e.rejected[j]);
    }
  }

  lemma LateKept(e: Engine, f: Engine, i: nat, limit: nat)
    requires i < |e.pieces| == |f.pieces| && LateRight(e, limit)
    requires f.pieces == e.pieces[i := f.pieces[i]]
    requires f.late == if TooLate(f.pieces[i], limit) then e.late + {i} else e.late - {i}
    ensures LateRight(f, limit)
  {
    forall j | 0 <= j < |f.pieces| ensures j in f.late <==> TooLate(f.pieces[j], limit) {
      assert j in e.late <==> TooLate(e.pieces[j], limit);
    }
  }

  lemma RefusedKept(e: Engine, f: Engine, i: nat, limit: nat)
    requires i < |e.pieces| == |f.pieces| && FullOnceRefused(e, limit)
    requires f.pieces == e.pieces[i := f.pieces[i]]
    requires f.pieces[i].Refused? ==> |f.takers| == limit
    requires |e.takers| == limit ==> |f.takers| == limit
    ensures FullOnceRefused(f, limit)
  {
    forall j | 0 <= j < |f.pieces| && f.pieces[j].Refused? ensures |f.takers| == limit {
      assert j == i || e.pieces[j].Refused?;
    }
  }

  /** The parts of the invariant that concern only the piece that moved. */
  lemma PieceKept(e: Engine, f: Engine, i: nat, verdicts: seq<Verdict>, limit: nat)
    requires Inv(e, verdicts, limit) && i < |e.pieces|
    requires |f.pieces| == |f.rejected| == |e.pieces|
    requires f.pieces == e.pieces[i := f.pieces[i]] && f.rejected == e.rejected[i := f.rejected[i]]
    requires Agrees(f.pieces[i], verdicts[i], f.rejected[i])
    requires f.late == if TooLate(f.pieces[i], limit) then e.late + {i} else e.late - {i}
    requires f.pieces[i].Refused? ==> |f.takers| == limit
    requires |e.takers| == limit ==> |f.takers| == limit
    ensures VerdictsRight(f, verdicts) && LateRight(f, limit) && FullOnceRefused(f, limit)
  {
    VerdictsKept(e, f, i, verdicts);
    LateKept(e, f, i, limit);
    RefusedKept(e, f, i, limit);
  }

  lemma ClaimKeepsInv(e: Engine, i: nat, verdicts: seq<Verdict>, limit: nat)
    requires Inv(e, verdicts, limit) && i < |e.pieces| && e.pieces[i].Passed?
    ensures Inv(Claim(e, i), verdicts, limit)
  {
    if InBuffer(e.counter + 1, limit) {
      ClaimTakesSlot(e, Claim(e, i), i, verdicts, limit);
    } else {
      ClaimTooLate(e, Claim(e, i), i, verdicts, limit);
    }
  }

  lemma ClaimTooLate(e: Engine, f: Engine, i: nat, verdicts: seq<Verdict>, limit: nat)
    requires Inv(e, verdicts, limit) && i < |e.pieces| && e.pieces[i].Passed?
    requires !InBuffer(e.counter + 1, limit)
    requires f == e.(pieces := e.pieces[i := Added(e.counter + 1)], counter := e.counter + 1, late := e.late + {i})
    ensures Inv(f, verdicts, limit)
  {
    FailingSame(e.pieces, i, Added(e.counter + 1));
    CancelsSame(e.pieces, i, Added(e.counter + 1));
    assert i !in e.late && Agrees(e.pieces[i], verdicts[i], e.rejected[i]);
    assert f.rejected == e.rejected[i := e.rejected[i]];
    OneMoreLate(e, i);
    PieceKept(e, f, i, verdicts, limit);
    TakersStay(e, f, i, limit);
  }

  lemma ClaimTakesSlot(e: Engine, f: Engine, i: nat, verdicts: seq<Verdict>, limit: nat)
    requires Inv(e, verdicts, limit) && i < |e.pieces| && e.pieces[i].Passed?
    requires InBuffer(e.counter + 1, limit)
    requires f == e.(pieces := e.pieces[i := Added(e.counter + 1)], counter := e.counter + 1, takers := e.takers + [i])
    ensures Inv(f, verdicts, limit)
  {
    FailingSame(e.pieces, i, Added(e.counter + 1));
    CancelsSame(e.pieces, i, Added(e.counter + 1));
    assert i !in e.late && Agrees(e.pieces[i], verdicts[i], e.rejected[i]);
    assert f.rejected == e.rejected[i := e.rejected[i]];
    assert e.late == {};
    PieceKept(e, f, i, verdicts, limit);
    TakersGrow(e, f, i, limit);
  }

  /** A new taker gets the next slot. */
  lemma TakersGrow(e: Engine, f: Engine, i: nat, limit: nat)
    requires |e.slots| == limit && TakersHold(e, limit) && HoldersTook(e, limit) && SlotsRight(e)
    requires i < |e.pieces| && !HasSlot(e.pieces[i], limit) && |e.takers| < limit
    requires f.pieces == e.pieces[i := Added(|e.takers| + 1)] && f.takers == e.takers + [i] && f.slots == e.slots
    ensures TakersHold(f, limit) && HoldersTook(f, limit) && SlotsRight(f)
  {
    forall k | 0 <= k < |f.slots| ensures SlotRight(f, k) {
      assert SlotRight(e, k);
    }
  }

  /** A step that gives no slot leaves all slots as they are. */
  lemma TakersStay(e: Engine, f: Engine, i: nat, limit: nat)
    requires |e.slots| == limit && TakersHold(e, limit) && HoldersTook(e, limit) && SlotsRight(e)
    requires i < |e.pieces| == |f.pieces| && !HasSlot(e.pieces[i], limit) && !HasSlot(f.pieces[i], limit)
    requires f.pieces == e.pieces[i := f.pieces[i]] && f.takers == e.takers && f.slots == e.slots
    ensures TakersHold(f, limit) && HoldersTook(f, limit) && SlotsRight(f)
  {
    forall k | 0 <= k < |f.slots| ensures SlotRight(f, k) {
      assert SlotRight(e, k);
    }
  }

  /** A holder writes into its own slot. */
  lemma TakerWrites(e: Engine, f: Engine, i: nat, limit: nat)
    requires |e.slots| == limit && TakersHold(e, limit) && HoldersTook(e, limit) && SlotsRight(e)
    requires i < |e.pieces| && e.pieces[i].Added? && HasSlot(e.pieces[i], limit)
    requires var k := SlotOf(e.pieces[i], limit);
      f.pieces == e.pieces[i := Took(k)] && f.slots == e.slots[k := Some(i)] && f.takers == e.takers
    ensures TakersHold(f, limit) && HoldersTook(f, limit) && SlotsRight(f)
  {
    forall k | 0 <= k < |f.slots| ensures SlotRight(f, k) {
      assert SlotRight(e, k);
    }
  }

  /** A step that neither enters nor leaves the failing states. */
  lemma FailingSame(pieces: seq<Piece>, i: nat, p: Piece)
    requires i < |pieces| && (Failing(pieces[i]) <==> Failing(p))
    ensures SomeFailing(pieces[i := p]) <==> SomeFailing(pieces)
  {
    var after := pieces[i := p];
    forall j | 0 <= j < |pieces| ensures Failing(pieces[j]) <==> Failing(after[j]) {}
    if SomeFailing(pieces) {
      var j :| 0 <= j < |pieces| && Failing(pieces[j]);
      assert Failing(after[j]);
    }
    if SomeFailing(after) {
      var j :| 0 <= j < |after| && Failing(after[j]);
      assert Failing(pieces[j]);
    }
  }

  /** A step that neither enters nor leaves the cancelling states. */
  lemma CancelsSame(pieces: seq<Piece>, i: nat, p: Piece)
    requires i < |pieces| && (Cancels(pieces[i]) <==> Cancels(p))
    ensures SomeCancels(pieces[i := p]) <==> SomeCancels(pieces)
  {
    var after := pieces[i := p];
    forall j | 0 <= j < |pieces| ensures Cancels(pieces[j]) <==> Cancels(after[j]) {}
    if SomeCancels(pieces) {
      var j :| 0 <= j < |pieces| && Cancels(pieces[j]);
      assert Cancels(after[j]);
    }
    if SomeCancels(after) {
      var j :| 0 <= j < |after| && Cancels(after[j]);
      assert Cancels(pieces[j]);
    }
  }

  lemma SettleKeepsInv(e: Engine, i: nat, verdicts: seq<Verdict>, limit: nat)
    requires Inv(e, verdicts, limit) && i < |e.pieces| && e.pieces[i].Added?
    ensures Inv(Settle(e, i, e.pieces[i].length), verdicts, limit)
  {
    var length := e.pieces[i].length;
    var f := Settle(e, i, length);
    FailingSame(e.pieces, i, f.pieces[i]);
    if InBuffer(length, limit) {
      CancelsSame(e.pieces, i, f.pieces[i]);
      SettleWrites(e, f, i, verdicts, limit);
    } else {
      assert Cancels(f.pieces[i]);
      SettleGivesUp(e, f, i, verdicts, limit);
    }
  }

  lemma SettleWrites(e: Engine, f: Engine, i: nat, verdicts: seq<Verdict>, limit: nat)
    requires Inv(e, verdicts, limit) && i < |e.pieces| && e.pieces[i].Added?
    requires var length := e.pieces[i].length;
      && InBuffer(length, limit)
      && f == e.(pieces := e.pieces[i := Took(length - 1)], slots := e.slots[length - 1 := Some(i)])
    ensures TakersHold(f, limit) && HoldersTook(f, limit) && SlotsRight(f)
    ensures VerdictsRight(f, verdicts) && LateRight(f, limit) && FullOnceRefused(f, limit)
  {
    assert i !in e.late && Agrees(e.pieces[i], verdicts[i], e.rejected[i]);
    assert f.rejected == e.rejected[i := e.rejected[i]];
    PieceKept(e, f, i, verdicts, limit);
    TakerWrites(e, f, i, limit);
  }

  lemma SettleGivesUp(e: Engine, f: Engine, i: nat, verdicts: seq<Verdict>, limit: nat)
    requires Inv(e, verdicts, limit) && i < |e.pieces| && e.pieces[i].Added? && !InBuffer(e.pieces[i].length, limit)
    requires f == e.(pieces := e.pieces[i := Over], cancelled := true)
    ensures TakersHold(f, limit) && HoldersTook(f, limit) && SlotsRight(f) && |f.takers| == limit
    ensures VerdictsRight(f, verdicts) && LateRight(f, limit) && FullOnceRefused(f, limit)
  {
    assert i in e.late && Agrees(e.pieces[i], verdicts[i], e.rejected[i]);
    assert f.rejected == e.rejected[i := e.rejected[i]];
    assert e.late + {i} == e.late;
    PieceKept(e, f, i, verdicts, limit);
    TakersStay(e, f, i, limit);
  }

  lemma SubtractKeepsInv(e: Engine, i: nat, verdicts: seq<Verdict>, limit: nat)
    requires Inv(e, verdicts, limit) && i < |e.pieces| && e.pieces[i].Over?
    ensures Inv(Step(e, i, verdicts), verdicts, limit)
  {
    var f := Step(e, i, verdicts);
    FailingSame(e.pieces, i, Refused);
    CancelsSame(e.pieces, i, Refused);
    TakersStay(e, f, i, limit);
    assert i in e.late && Agrees(e.pieces[i], verdicts[i], e.rejected[i]);
    assert f.rejected == e.rejected[i := e.rejected[i]];
    PieceKept(e, f, i, verdicts, limit);
    assert |e.late - {i}| == |e.late| - 1;
  }

  /** A step that leaves the counter and the slots alone and does not make the engine forget an error. */
  lemma PlainKeepsInv(e: Engine, f: Engine, i: nat, verdicts: seq<Verdict>, limit: nat)
    requires Inv(e, verdicts, limit) && i < |e.pieces|
        && (e.pieces[i].Idle? || e.pieces[i].Running? || e.pieces[i].Sent?)
    requires |f.pieces| == |f.rejected| == |e.pieces|
    requires f == e.(pieces := e.pieces[i := f.pieces[i]], rejected := e.rejected[i := f.rejected[i]], error := f.error,
                     cancelled := f.cancelled)
    requires Agrees(f.pieces[i], verdicts[i], f.rejected[i])
    requires !f.pieces[i].Added? && !f.pieces[i].Took? && !f.pieces[i].Over? && !f.pieces[i].Refused?
    requires f.error <==> SomeFailing(f.pieces)
    requires f.cancelled <==> SomeCancels(f.pieces)
    ensures Inv(f, verdicts, limit)
  {
    TakersStay(e, f, i, limit);
    assert i !in e.late;
    PieceKept(e, f, i, verdicts, limit);
  }

  lemma CheckKeepsInv(e: Engine, i: nat, verdicts: seq<Verdict>, limit: nat)
    requires Inv(e, verdicts, limit) && i < |e.pieces| && e.pieces[i].Running?
    ensures Inv(Check(e, i, verdicts[i]), verdicts, limit)
  {
    var f := Check(e, i, verdicts[i]);
    assert Agrees(e.pieces[i], verdicts[i], e.rejected[i]);
    if verdicts[i].Fail? {
      assert Failing(f.pieces[i]);
    } else {
      FailingSame(e.pieces, i, f.pieces[i]);
    }
    CancelsSame(e.pieces, i, f.pieces[i]);
    assert f.rejected == e.rejected[i := f.rejected[i]];
    PlainKeepsInv(e, f, i, verdicts, limit);
  }

  lemma IdleKeepsInv(e: Engine, i: nat, verdicts: seq<Verdict>, limit: nat)
    requires Inv(e, verdicts, limit) && i < |e.pieces| && e.pieces[i].Idle? && !e.cancelled
    ensures Inv(Step(e, i, verdicts), verdicts, limit)
  {
    var f := Step(e, i, verdicts);
    assert Agrees(e.pieces[i], verdicts[i], e.rejected[i]);
    FailingSame(e.pieces, i, Running);
    CancelsSame(e.pieces, i, Running);
    assert f.rejected == e.rejected[i := e.rejected[i]];
    PlainKeepsInv(e, f, i, verdicts, limit);
  }

  lemma SentKeepsInv(e: Engine, i: nat, verdicts: seq<Verdict>, limit: nat)
    requires Inv(e, verdicts, limit) && i < |e.pieces| && e.pieces[i].Sent?
    ensures Inv(Step(e, i, verdicts), verdicts, limit)
  {
    var f := Step(e, i, verdicts);
    assert Agrees(e.pieces[i], verdicts[i], e.rejected[i]) && Failing(e.pieces[i]);
    FailingSame(e.pieces, i, Failed);
    assert Cancels(f.pieces[i]);
    assert f.rejected == e.rejected[i := e.rejected[i]];
    PlainKeepsInv(e, f, i, verdicts, limit);
  }

  lemma StepKeepsInv(e: Engine, i: nat, verdicts: seq<Verdict>, limit: nat)
    requires Inv(e, verdicts, limit)
    ensures Inv(Step(e, i, verdicts), verdicts, limit)
  {
    if i < |e.pieces| {
      match e.pieces[i]
      case Passed => ClaimKeepsInv(e, i, verdicts, limit);
      case Added(_) => SettleKeepsInv(e, i, verdicts, limit);
      case Over => SubtractKeepsInv(e, i, verdicts, limit);
      case Idle => if !e.cancelled { IdleKeepsInv(e, i, verdicts, limit); }
      case Running => CheckKeepsInv(e, i, verdicts, limit);
      case Sent => SentKeepsInv(e, i, verdicts, limit);
      case _ =>
    }
  }

  // ---- Runs ----

  ghost function Interleaved(limit: nat, picks: seq<nat>, verdicts: seq<Verdict>): (e: Engine)
    ensures |e.pieces| == |e.rejected| == |verdicts|
  {
    if picks == [] then Start(|verdicts|, limit)
    else Step(Interleaved(limit, picks[..|picks| - 1], verdicts), picks[|picks| - 1], verdicts)
  }

  lemma {:induction false} RunInv(limit: nat, picks: seq<nat>, verdicts: seq<Verdict>)
    ensures Inv(Interleaved(limit, picks, verdicts), verdicts, limit)
  {
    if picks == [] {
      StartInv(verdicts, limit);
    } else {
      var front := picks[..|picks| - 1];
      RunInv(limit, front, verdicts);
      StepKeepsInv(Interleaved(limit, front, verdicts), picks[|picks| - 1], verdicts, limit);
    }
  }

  ghost predicate Finished(p: Piece) {
    p.Took? || p.Refused? || p.Rejected? || p.Failed?
  }

  /** Piece `i` will never move again. */
  ghost predicate Done(e: Engine, i: nat)
    requires i < |e.pieces|
  {
    Finished(e.pieces[i]) || (e.pieces[i].Idle? && e.cancelled)
  }

  /** All workers are done: whatever was started has ended, and nothing more may start. */
  ghost predicate Terminal(e: Engine) {
    forall i :: 0 <= i < |e.pieces| ==> Done(e, i)
  }

  /** How many more steps a piece takes at most. */
  ghost function Ahead(p: Piece): nat {
    match p
    case Idle => 5
    case Running => 4
    case Passed => 3
    case Added(_) => 2
    case Over => 1
    case Sent => 1
    case _ => 0
  }

  ghost function AllAhead(pieces: seq<Piece>): nat {
    if pieces == [] then 0 else Ahead(pieces[0]) + AllAhead(pieces[1..])
  }

  lemma {:induction false} AheadAfter(pieces: seq<Piece>, i: nat, p: Piece)
    requires i < |pieces|
    ensures AllAhead(pieces[i := p]) == AllAhead(pieces) - Ahead(pieces[i]) + Ahead(p)
  {
    if i > 0 {
      AheadAfter(pieces[1..], i - 1, p);
      assert pieces[i := p][1..] == pieces[1..][i - 1 := p];
    } else {
      assert pieces[i := p][1..] == pieces[1..];
    }
  }

  /** The search always ends: while not all workers are done some piece can move, and every move of any
      piece, whatever the interleaving, uses up one of finitely many steps. */
  lemma SearchEnds(e: Engine, verdicts: seq<Verdict>)
    requires |e.pieces| == |e.rejected| == |verdicts|
    ensures !Terminal(e) <==> exists i: nat :: i < |verdicts| && Step(e, i, verdicts) != e
    ensures forall i: nat :: Step(e, i, verdicts) == e || AllAhead(Step(e, i, verdicts).pieces) < AllAhead(e.pieces)
  {
    forall i: nat
      ensures Step(e, i, verdicts) == e || AllAhead(Step(e, i, verdicts).pieces) < AllAhead(e.pieces)
      ensures i < |verdicts| ==> (Step(e, i, verdicts) != e <==> !Done(e, i))
    {
      if i < |verdicts| && !Done(e, i) {
        StepShrinks(e, i, verdicts);
      }
    }
  }

  lemma StepShrinks(e: Engine, i: nat, verdicts: seq<Verdict>)
    requires |e.pieces| == |e.rejected| == |verdicts| && i < |verdicts| && !Done(e, i)
    ensures AllAhead(Step(e, i, verdicts).pieces) < AllAhead(e.pieces)
  {
    var p := Step(e, i, verdicts).pieces[i];
    assert Step(e, i, verdicts).pieces == e.pieces[i := p];
    AheadAfter(e.pieces, i, p);
  }

  lemma InterleavedSnoc(limit: nat, picks: seq<nat>, i: nat, verdicts: seq<Verdict>)
    ensures Interleaved(limit, picks + [i], verdicts) == Step(Interleaved(limit, picks, verdicts), i, verdicts)
  {
    assert (picks + [i])[..|picks|] == picks;
  }

  lemma SomeMove(e: Engine, verdicts: seq<Verdict>) returns (i: nat)
    requires |e.pieces| == |e.rejected| == |verdicts| && !Terminal(e)
    ensures i < |verdicts| && AllAhead(Step(e, i, verdicts).pieces) < AllAhead(e.pieces)
  {
    i :| i < |e.pieces| && !Done(e, i);
    StepShrinks(e, i, verdicts);
  }

  /** From every state some choice of moves brings all workers to their end. */
  lemma {:induction false} SearchCanFinish(limit: nat, picks: seq<nat>, verdicts: seq<Verdict>) returns (more: seq<nat>)
    ensures Terminal(Interleaved(limit, picks + more, verdicts))
    decreases AllAhead(Interleaved(limit, picks, verdicts).pieces)
  {
    if Terminal(Interleaved(limit, picks, verdicts)) {
      more := [];
      assert picks + more == picks;
    } else {
      var i := SomeMove(Interleaved(limit, picks, verdicts), verdicts);
      InterleavedSnoc(limit, picks, i, verdicts);
      var rest := SearchCanFinish(limit, picks + [i], verdicts);
      more := [i] + rest;
      assert picks + more == picks + [i] + rest;
    }
  }

  // ---- What a run achieves ----

  /** The pieces whose filters ran and succeeded, among the first `n`. */
  ghost function Succeeded(pieces: seq<Piece>, n: nat): (r: set<nat>)
    requires n <= |pieces|
    ensures forall i: nat :: i in r <==> i < n && (pieces[i].Took? || pieces[i].Refused?)
  {
    if n == 0 then {}
    else Succeeded(pieces, n - 1) + if pieces[n - 1].Took? || pieces[n - 1].Refused? then {n - 1} else {}
  }

  lemma {:induction false} SizeOfDistinct<T>(xs: seq<T>, s: set<T>)
    requires (forall x :: x in xs <==> x in s) && Distinct(xs)
    ensures |s| == |xs|
  {
    if xs == [] {
      assert s == {};
    } else {
      var last := xs[|xs| - 1];
      var front := xs[..|xs| - 1];
      forall x ensures x in front <==> x in s - {last} {
        if x in s && x != last {
          var k :| 0 <= k < |xs| && xs[k] == x;
          assert front[k] == x;
        }
      }
      SizeOfDistinct(front, s - {last});
      assert s == (s - {last}) + {last};
    }
  }

  lemma {:induction false} SubsetSmaller<T>(a: set<T>, b: set<T>)
    requires a <= b
    ensures |a| <= |b|
    decreases |a|
  {
    if a != {} {
      var x :| x in a;
      SubsetSmaller(a - {x}, b - {x});
    }
  }

  /** At every moment of every interleaving: the slots claimed so far are 0, 1, 2 and so on without gaps,
      each held by exactly one piece, which passed. */
  lemma ClaimsAreDense(limit: nat, picks: seq<nat>, verdicts: seq<Verdict>)
    ensures var e := Interleaved(limit, picks, verdicts);
      && e.counter == |e.takers| + |e.late| && |e.takers| <= limit
      && TakersHold(e, limit) && HoldersTook(e, limit) && Distinct(e.takers)
      && (forall k :: 0 <= k < |e.takers| ==> e.takers[k] < |verdicts| && verdicts[e.takers[k]] == Pass)
  {
    RunInv(limit, picks, verdicts);
    var e := Interleaved(limit, picks, verdicts);
    forall k | 0 <= k < |e.takers| ensures e.takers[k] < |verdicts| && verdicts[e.takers[k]] == Pass {
      assert Agrees(e.pieces[e.takers[k]], verdicts[e.takers[k]], e.rejected[e.takers[k]]);
    }
  }

  /** A piece that came too late exists only once every slot is taken, and from then on no claim is ever
      accepted: no step, now or later, adds a taker. */
  lemma NoClaimAfterOverflow(limit: nat, picks: seq<nat>, more: seq<nat>, verdicts: seq<Verdict>)
    requires exists i :: 0 <= i < |verdicts| && LateOrRefused(Interleaved(limit, picks, verdicts).pieces[i], limit)
    ensures |Interleaved(limit, picks, verdicts).takers| == limit
    ensures Interleaved(limit, picks + more, verdicts).takers == Interleaved(limit, picks, verdicts).takers
  {
    RunInv(limit, picks, verdicts);
    FullStaysFull(limit, picks, more, verdicts);
  }

  ghost predicate LateOrRefused(p: Piece, limit: nat) {
    TooLate(p, limit) || p.Refused?
  }

  lemma FullTakesNoMore(e: Engine, i: nat, verdicts: seq<Verdict>, limit: nat)
    requires Inv(e, verdicts, limit) && |e.takers| == limit
    ensures Step(e, i, verdicts).takers == e.takers
  {}

  lemma {:induction false} FullStaysFull(limit: nat, picks: seq<nat>, more: seq<nat>, verdicts: seq<Verdict>)
    requires |Interleaved(limit, picks, verdicts).takers| == limit
    ensures Interleaved(limit, picks + more, verdicts).takers == Interleaved(limit, picks, verdicts).takers
  {
    if more == [] {
      assert picks + more == picks;
    } else {
      var front, last := more[..|more| - 1], more[|more| - 1];
      FullStaysFull(limit, picks, front, verdicts);
      assert picks + more == picks + front + [last];
      InterleavedSnoc(limit, picks + front, last, verdicts);
      RunInv(limit, picks + front, verdicts);
      FullTakesNoMore(Interleaved(limit, picks + front, verdicts), last, verdicts, limit);
    }
  }

  /** Once the search is cancelled no piece is started any more, whatever moves. */
  lemma {:induction false} CancelledStartsNothing(limit: nat, picks: seq<nat>, more: seq<nat>, verdicts: seq<Verdict>,
                                                  i: nat)
    requires Interleaved(limit, picks, verdicts).cancelled && i < |verdicts|
    requires Interleaved(limit, picks, verdicts).pieces[i].Idle?
    ensures Interleaved(limit, picks + more, verdicts).cancelled
    ensures Interleaved(limit, picks + more, verdicts).pieces[i].Idle?
  {
    if more == [] {
      assert picks + more == picks;
    } else {
      var front, last := more[..|more| - 1], more[|more| - 1];
      CancelledStartsNothing(limit, picks, front, verdicts, i);
      assert picks + more == picks + front + [last];
      InterleavedSnoc(limit, picks + front, last, verdicts);
    }
  }

  lemma NoOneLate(limit: nat, picks: seq<nat>, verdicts: seq<Verdict>)
    requires Terminal(Interleaved(limit, picks, verdicts))
    ensures Interleaved(limit, picks, verdicts).late == {}
  {
    RunInv(limit, picks, verdicts);
    var e := Interleaved(limit, picks, verdicts);
    forall i: nat ensures i !in e.late {
      if i < |e.pieces| {
        assert Done(e, i) && (i in e.late <==> TooLate(e.pieces[i], limit));
      }
    }
  }

  /** When all workers are done the counter is the number of slots written, and those are the first ones. */
  lemma FinalSlots(limit: nat, picks: seq<nat>, verdicts: seq<Verdict>)
    requires Terminal(Interleaved(limit, picks, verdicts))
    ensures var e := Interleaved(limit, picks, verdicts);
      && |e.slots| == limit && e.counter == |e.takers| <= limit
      && forall k :: 0 <= k < limit ==> e.slots[k] == if k < e.counter then Some(e.takers[k]) else None
  {
    RunInv(limit, picks, verdicts);
    NoOneLate(limit, picks, verdicts);
    var e := Interleaved(limit, picks, verdicts);
    forall k | 0 <= k < limit ensures e.slots[k] == if k < e.counter then Some(e.takers[k]) else None {
      assert SlotRight(e, k);
      if k < e.counter {
        assert HasSlot(e.pieces[e.takers[k]], limit) && Done(e, e.takers[k]);
      }
    }
  }

  /** The final counter is the smaller of the limit and the number of checks that ran and succeeded. */
  lemma FinalCount(limit: nat, picks: seq<nat>, verdicts: seq<Verdict>)
    requires Terminal(Interleaved(limit, picks, verdicts))
    ensures var e := Interleaved(limit, picks, verdicts);
      e.counter == if |Succeeded(e.pieces, |e.pieces|)| <= limit then |Succeeded(e.pieces, |e.pieces|)| else limit
  {
    RunInv(limit, picks, verdicts);
    FinalSlots(limit, picks, verdicts);
    TakersAndSuccesses(Interleaved(limit, picks, verdicts), limit);
  }

  lemma TakersAndSuccesses(e: Engine, limit: nat)
    requires TakersHold(e, limit) && HoldersTook(e, limit) && FullOnceRefused(e, limit) && Terminal(e)
        && |e.takers| <= limit
    ensures var succeeded := Succeeded(e.pieces, |e.pieces|);
      |e.takers| == if |succeeded| <= limit then |succeeded| else limit
  {
    TakersAreThoseWhoTook(e, limit);
    var succeeded := Succeeded(e.pieces, |e.pieces|);
    forall i | i in e.takers ensures i in succeeded {}
    if |e.takers| < limit {
      forall i | i in succeeded ensures i in e.takers {
        assert !e.pieces[i].Refused?;
      }
    }
    SmallerOf(e.takers, succeeded, limit);
  }

  lemma SmallerOf(takers: seq<nat>, succeeded: set<nat>, limit: nat)
    requires Distinct(takers) && |takers| <= limit && (forall i :: i in takers ==> i in succeeded)
    requires |takers| < limit ==> forall i :: i in succeeded ==> i in takers
    ensures |takers| == if |succeeded| <= limit then |succeeded| else limit
  {
    var took := Elements(takers);
    SizeOfDistinct(takers, took);
    SubsetSmaller(took, succeeded);
    if |takers| < limit {
      SubsetSmaller(succeeded, took);
    }
  }

  ghost function Elements<T(!new)>(xs: seq<T>): (s: set<T>)
    ensures forall x :: x in s <==> x in xs
  {
    if xs == [] then {} else {xs[0]} + Elements(xs[1..])
  }

  lemma TakersAreThoseWhoTook(e: Engine, limit: nat)
    requires TakersHold(e, limit) && HoldersTook(e, limit) && Terminal(e)
    ensures forall i: nat :: i in e.takers <==> i < |e.pieces| && e.pieces[i].Took?
    ensures Distinct(e.takers)
  {
    forall i: nat ensures i in e.takers <==> i < |e.pieces| && e.pieces[i].Took? {
      if i in e.takers {
        var k :| 0 <= k < |e.takers| && e.takers[k] == i;
        assert HasSlot(e.pieces[e.takers[k]], limit) && Done(e, i);
      }
      if i < |e.pieces| && e.pieces[i].Took? {
        assert HasSlot(e.pieces[i], limit);
        assert e.takers[SlotOf(e.pieces[i], limit)] == i;
      }
    }
  }

  ghost predicate Examined(e: Engine, i: nat, verdicts: seq<Verdict>)
    requires i < |e.pieces| == |e.rejected| == |verdicts|
  {
    && (i in e.takers <==> verdicts[i] == Pass)
    && e.rejected[i] == (if verdicts[i].Reject? then Some(verdicts[i].why) else None)
    && !verdicts[i].Fail?
  }

  ghost predicate AllExamined(e: Engine, verdicts: seq<Verdict>)
    requires |e.pieces| == |e.rejected| == |verdicts|
  {
    forall i :: 0 <= i < |verdicts| ==> Examined(e, i, verdicts)
  }

  /** The pieces whose filters let their node pass. */
  ghost function Passes(verdicts: seq<Verdict>): (r: set<nat>)
    ensures forall i: nat :: i in r <==> i < |verdicts| && verdicts[i] == Pass
  {
    set i: nat | i < |verdicts| && verdicts[i] == Pass
  }

  /** At the end, if no piece cancelled the search, nothing was left out. */
  lemma UncancelledExamined(e: Engine, verdicts: seq<Verdict>, limit: nat)
    requires Inv(e, verdicts, limit) && Terminal(e) && !e.cancelled
    ensures AllExamined(e, verdicts)
  {
    TakersAreThoseWhoTook(e, limit);
    forall i | 0 <= i < |verdicts| ensures Examined(e, i, verdicts) {
      assert Done(e, i) && !Cancels(e.pieces[i]) && Agrees(e.pieces[i], verdicts[i], e.rejected[i]);
    }
  }

  lemma TakersPass(e: Engine, verdicts: seq<Verdict>, limit: nat)
    requires Inv(e, verdicts, limit)
    ensures Elements(e.takers) <= Passes(verdicts) && |Elements(e.takers)| == |e.takers|
  {
    forall i | i in e.takers ensures i in Passes(verdicts) {
      var k :| 0 <= k < |e.takers| && e.takers[k] == i;
      assert Agrees(e.pieces[i], verdicts[i], e.rejected[i]);
    }
    SizeOfDistinct(e.takers, Elements(e.takers));
  }

  /** Without an error the search is cancelled only by a piece that came too late, and that one passed beside
      those that fill the buffer. */
  lemma CancelMeansMore(e: Engine, verdicts: seq<Verdict>, limit: nat)
    requires Inv(e, verdicts, limit) && !e.error && e.cancelled
    ensures |e.takers| == limit && |Passes(verdicts)| > limit
  {
    var i :| 0 <= i < |e.pieces| && Cancels(e.pieces[i]);
    TakersPass(e, verdicts, limit);
    assert !Failing(e.pieces[i]) && Agrees(e.pieces[i], verdicts[i], e.rejected[i]);
    assert i in Passes(verdicts) && i !in e.takers;
    SubsetSmaller(Elements(e.takers), Passes(verdicts) - {i});
  }

  lemma EnoughRoomExamined(e: Engine, verdicts: seq<Verdict>, limit: nat)
    requires Inv(e, verdicts, limit) && Terminal(e) && !e.error && |Passes(verdicts)| <= limit
    ensures AllExamined(e, verdicts) && |e.takers| == |Passes(verdicts)|
  {
    if e.cancelled {
      CancelMeansMore(e, verdicts, limit);
      assert false;
    }
    UncancelledExamined(e, verdicts, limit);
    TakersPass(e, verdicts, limit);
    assert forall i: nat :: i in Passes(verdicts) ==> Examined(e, i, verdicts);
    assert Elements(e.takers) == Passes(verdicts);
  }

  lemma TooManyFill(e: Engine, verdicts: seq<Verdict>, limit: nat)
    requires Inv(e, verdicts, limit) && Terminal(e) && !e.error && |Passes(verdicts)| > limit
    ensures |e.takers| == limit && !AllExamined(e, verdicts)
  {
    TakersPass(e, verdicts, limit);
    if AllExamined(e, verdicts) {
      assert forall i: nat :: i in Passes(verdicts) ==> Examined(e, i, verdicts);
      SubsetSmaller(Passes(verdicts), Elements(e.takers));
      assert false;
    }
    if e.cancelled {
      CancelMeansMore(e, verdicts, limit);
    } else {
      UncancelledExamined(e, verdicts, limit);
    }
  }

  /** Without an error, every interleaving takes as many pieces as pass, up to the limit, and has examined every
      piece exactly when no more pass than the limit: then those that passed are the takers, once each, and
      the others are rejected, each with its reason. */
  lemma FullOrAllExamined(limit: nat, picks: seq<nat>, verdicts: seq<Verdict>)
    requires var e := Interleaved(limit, picks, verdicts); Terminal(e) && !e.error
    ensures var e := Interleaved(limit, picks, verdicts);
      && Distinct(e.takers)
      && (forall i: nat :: i in e.takers ==> i < |verdicts|)
      && |e.takers| == (if |Passes(verdicts)| <= limit then |Passes(verdicts)| else limit)
      && (AllExamined(e, verdicts) <==> |Passes(verdicts)| <= limit)
  {
    RunInv(limit, picks, verdicts);
    var e := Interleaved(limit, picks, verdicts);
    TakersAreThoseWhoTook(e, limit);
    if |Passes(verdicts)| <= limit {
      EnoughRoomExamined(e, verdicts, limit);
    } else {
      TooManyFill(e, verdicts, limit);
    }
  }

  /** When no more pieces pass than the limit, an interleaving ends in an error exactly when some check fails. */
  lemma FailsExactly(limit: nat, picks: seq<nat>, verdicts: seq<Verdict>)
    requires Terminal(Interleaved(limit, picks, verdicts)) && |Passes(verdicts)| <= limit
    ensures Interleaved(limit, picks, verdicts).error <==> exists i :: 0 <= i < |verdicts| && verdicts[i].Fail?
  {
    var e := Interleaved(limit, picks, verdicts);
    if e.error {
      ErrorHasCause(limit, picks, verdicts);
    } else {
      FullOrAllExamined(limit, picks, verdicts);
      forall i | 0 <= i < |verdicts| ensures !verdicts[i].Fail? {
        assert Examined(e, i, verdicts);
      }
    }
  }

  /** The search reports an error only if some check failed. */
  lemma ErrorHasCause(limit: nat, picks: seq<nat>, verdicts: seq<Verdict>)
    requires Interleaved(limit, picks, verdicts).error
    ensures exists i :: 0 <= i < |verdicts| && verdicts[i].Fail?
  {
    RunInv(limit, picks, verdicts);
    var e := Interleaved(limit, picks, verdicts);
    var i :| 0 <= i < |e.pieces| && Failing(e.pieces[i]);
    assert Agrees(e.pieces[i], verdicts[i], e.rejected[i]);
  }

  /** No false "unschedulable": when the search ends with no node and no error although it looked for at
      least one, then in every interleaving every node was examined and rejected. */
  lemma EmptyMeansAllRejected(limit: nat, picks: seq<nat>, verdicts: seq<Verdict>)
    requires limit > 0
    requires var e := Interleaved(limit, picks, verdicts); Terminal(e) && e.counter == 0 && !e.error
    ensures forall i :: 0 <= i < |verdicts| ==>
              verdicts[i].Reject? && Interleaved(limit, picks, verdicts).rejected[i] == Some(verdicts[i].why)
  {
    RunInv(limit, picks, verdicts);
    FinalSlots(limit, picks, verdicts);
    var e := Interleaved(limit, picks, verdicts);
    forall i | 0 <= i < |verdicts| ensures verdicts[i].Reject? && e.rejected[i] == Some(verdicts[i].why) {
      assert Done(e, i) && !Failing(e.pieces[i]) && Agrees(e.pieces[i], verdicts[i], e.rejected[i]);
    }
  }
}
