/** What a winner leaves at Activepieces: which connections survive a failed or compensated callback. */
module VaultConnections {
  import opened Wrappers
  import opened Vault
  import opened VaultFrames
  import opened VaultCallbacks
  import opened VaultLinks

  /** Activepieces has a connection that this callback created. */
  ghost predicate OwnsConnection(w: World, cb: CallbackId) {
    exists x :: x in w.conns && x in w.extOwner && w.extOwner[x] == cb
  }

  // ------------------------------------------------------------------
  // Who changes a callback's connection
  // ------------------------------------------------------------------

  /** Only the callback that created a connection deletes it, and only by an undo that takes effect. */
  lemma OnlyUndoRemoves(w: World, w': World, e: Event, x: ExtId)
    requires CallbackInv(w) && Next(w, w', e) && x in w.conns && x !in w'.conns
    ensures x in w.extOwner && e == Front(w.extOwner[x], Undo(true))
  {
    if e.Work? { WorkConns(w, w', e.t, e.op); }
    else if e.Front? { RemovedByFront(w, w', e.cb, e.cop, x); }
    else { OtherFrame(w, w', e); }
  }

  lemma RemovedByFront(w: World, w': World, cb: CallbackId, op: CallbackOp, x: ExtId)
    requires CallbackAt(w, cb) && CallbackNext(w, w', cb, op) && x in w.conns && x !in w'.conns
    requires Settled(w, cb, w.callbacks[cb].pc)
    ensures op == Undo(true) && x in w.extOwner && w.extOwner[x] == cb
  {
  }

  /** The step neither creates nor deletes a connection of this callback. */
  ghost predicate SameConnections(w: World, w': World, cb: CallbackId) {
    forall x :: x in w.extOwner && w.extOwner[x] == cb ==> (x in w'.conns <==> x in w.conns)
  }

  lemma WorkLeavesConnections(w: World, w': World, t: TaskId, op: TaskOp, cb: CallbackId)
    requires LinksInv(w) && TaskAt(w, t) && TaskNext(w, w', t, op)
    ensures SameConnections(w, w', cb)
  {
    WorkConns(w, w', t, op);
    var k := w.tasks[t];
    assert SnapLinked(w, k);
    if Snap(k.pc).Some? && Snap(k.pc).value.ext.Some? {
      SnapRow(w, k);
      assert Settled(w, w.rowOwner[k.id], w.callbacks[w.rowOwner[k.id]].pc);
    }
  }

  lemma OthersLeaveConnections(w: World, w': World, c: CallbackId, op: CallbackOp, cb: CallbackId)
    requires CallbackInv(w) && CallbackAt(w, c) && CallbackNext(w, w', c, op) && cb != c
    ensures SameConnections(w, w', cb)
  {
    FrontExtDelta(w, w', c, op);
    assert Settled(w, c, w.callbacks[c].pc);
    forall x | x in w.extOwner && w.extOwner[x] == cb ensures x in w'.conns <==> x in w.conns {
      NotAnothers(w, w', c, op, x);
    }
  }

  lemma NotAnothers(w: World, w': World, c: CallbackId, op: CallbackOp, x: ExtId)
    requires CallbackAt(w, c) && CallbackNext(w, w', c, op) && x in w.extOwner && w.extOwner[x] != c
    requires Settled(w, c, w.callbacks[c].pc)
    ensures x in w'.conns <==> x in w.conns
  {
  }

  // ------------------------------------------------------------------
  // What the events so far have left
  // ------------------------------------------------------------------

  /** The create call took effect and reported a failure. */
  predicate LostCreate(e: Event, cb: CallbackId) {
    e.Front? && e.cb == cb && e.cop.Link? && e.cop.outcome == ApLost
  }

  ghost predicate EverLost(es: seq<Event>, n: nat, cb: CallbackId)
    requires n <= |es|
  {
    exists m :: 0 <= m < n && LostCreate(es[m], cb)
  }

  /** The deletion after a failed finalize did not take effect. */
  predicate LostUndo(e: Event, cb: CallbackId) { e == Front(cb, Undo(false)) }

  ghost predicate EverKept(es: seq<Event>, n: nat, cb: CallbackId)
    requires n <= |es|
  {
    exists m :: 0 <= m < n && LostUndo(es[m], cb)
  }

  /** The connection of a callback told from its program counter and those two facts. */
  ghost predicate Trace(w: World, cb: CallbackId, lost: bool, kept: bool) {
    if cb !in w.callbacks then !lost && !kept
    else
      var pc := w.callbacks[cb].pc;
      if pc.Compensating? || pc.Compensated? || pc.Abandoned? then OwnsConnection(w, cb) <==> lost || kept
      else !lost && !kept && (pc.Linked? || pc.Undoing? || pc.Completed? ==> pc.ext in w.conns)
  }

  /** A create call opens the trace, a failed undo keeps the connection. */
  lemma FrontTrace(w: World, w': World, cb: CallbackId, op: CallbackOp, lost: bool, kept: bool)
    requires CallbackInv(w) && CallbackAt(w, cb) && CallbackNext(w, w', cb, op) && Trace(w, cb, lost, kept)
    ensures Trace(w', cb, lost || LostCreate(Front(cb, op), cb), kept || LostUndo(Front(cb, op), cb))
  {
    assert Settled(w, cb, w.callbacks[cb].pc);
    if op.Link? { LinkTrace(w, w', cb, op.ext, op.outcome); }
    else if op.Undo? { UndoTrace(w, w', cb, op.commit); }
    else { QuietTrace(w, w', cb, op, lost, kept); }
  }

  lemma LinkTrace(w: World, w': World, cb: CallbackId, ext: ExtId, outcome: ApOutcome)
    requires OwnerInv(w) && LinkStep(w, w', cb, ext, outcome)
    ensures Trace(w', cb, outcome == ApLost, false)
  {
    assert forall x :: x in w.extOwner ==> w.extOwner[x] != cb;
    if outcome == ApLost { assert ext in w'.conns && w'.extOwner[ext] == cb; }
  }

  lemma UndoTrace(w: World, w': World, cb: CallbackId, commit: bool)
    requires OwnerInv(w) && UndoStep(w, w', cb, commit) && w.callbacks[cb].pc.ext in w.conns
    ensures Trace(w', cb, false, !commit)
  {
    var x := w.callbacks[cb].pc.ext;
    assert Settled(w, cb, w.callbacks[cb].pc);
    if !commit { assert x in w'.conns && w'.extOwner[x] == cb; }
  }

  lemma QuietTrace(w: World, w': World, cb: CallbackId, op: CallbackOp, lost: bool, kept: bool)
    requires CallbackAt(w, cb) && CallbackNext(w, w', cb, op) && !op.Link? && !op.Undo? && Trace(w, cb, lost, kept)
    ensures Trace(w', cb, lost, kept)
  {
  }

  /** Nobody else's step changes what the trace says. */
  lemma ElsewhereTrace(w: World, w': World, cb: CallbackId, lost: bool, kept: bool)
    requires Trace(w, cb, lost, kept) && CallbackInv(w)
    requires cb in w.callbacks && cb in w'.callbacks && w'.callbacks[cb].pc == w.callbacks[cb].pc
    requires forall x :: x in w'.extOwner && w'.extOwner[x] == cb <==> x in w.extOwner && w.extOwner[x] == cb
    requires SameConnections(w, w', cb)
    ensures Trace(w', cb, lost, kept)
  {
    assert Settled(w, cb, w.callbacks[cb].pc);
  }

  lemma TraceNext(w: World, w': World, e: Event, cb: CallbackId, lost: bool, kept: bool)
    requires LinksInv(w) && Next(w, w', e) && Trace(w, cb, lost, kept)
    ensures Trace(w', cb, lost || LostCreate(e, cb), kept || LostUndo(e, cb))
  {
    if e.Front? && e.cb == cb {
      FrontTrace(w, w', cb, e.cop, lost, kept);
    } else if cb in w.callbacks {
      TraceElsewhere(w, w', e, cb, lost, kept);
    } else {
      Newcomer(w, w', e, cb);
    }
  }

  lemma Newcomer(w: World, w': World, e: Event, cb: CallbackId)
    requires Next(w, w', e) && cb !in w.callbacks
    ensures cb in w'.callbacks ==> w'.callbacks[cb].pc == Checked
  {
    if e.Work? { WorkFrame(w, w', e.t, e.op); }
    else if e.Front? { FrontFrame(w, w', e.cb, e.cop); }
    else { ArriveOnly(w, w', e); }
  }

  lemma TraceElsewhere(w: World, w': World, e: Event, cb: CallbackId, lost: bool, kept: bool)
    requires LinksInv(w) && Next(w, w', e) && Trace(w, cb, lost, kept)
    requires cb in w.callbacks && (e.Front? ==> e.cb != cb)
    ensures Trace(w', cb, lost, kept)
  {
    if e.Work? {
      WorkFrame(w, w', e.t, e.op);
      WorkLeavesConnections(w, w', e.t, e.op, cb);
    } else if e.Front? {
      FrontFrame(w, w', e.cb, e.cop);
      FrontExtDelta(w, w', e.cb, e.cop);
      OthersLeaveConnections(w, w', e.cb, e.cop, cb);
    } else {
      OtherFrame(w, w', e);
      ArriveOnly(w, w', e);
    }
    ElsewhereTrace(w, w', cb, lost, kept);
  }

  // ------------------------------------------------------------------
  // Runs
  // ------------------------------------------------------------------

  lemma {:induction false} TraceBySteps(ws: seq<World>, es: seq<Event>, n: nat, cb: CallbackId)
    requires |ws| == |es| + 1 && n < |ws| && Trace(ws[0], cb, false, false)
    requires forall k :: 0 <= k < n ==> Traced(ws[k], ws[k + 1], es[k], cb)
    ensures Trace(ws[n], cb, EverLost(es, n, cb), EverKept(es, n, cb))
  {
    if n > 0 {
      TraceBySteps(ws, es, n - 1, cb);
      assert Traced(ws[n - 1], ws[n - 1 + 1], es[n - 1], cb);
      assert TraceStep(ws[n - 1], ws[n], es[n - 1], cb, EverLost(es, n - 1, cb), EverKept(es, n - 1, cb));
      EventsExtend(es, n, cb);
    }
  }

  lemma RunTrace(ws: seq<World>, es: seq<Event>, n: nat, cb: CallbackId)
    requires IsRun(ws, es) && n < |ws|
    ensures Trace(ws[n], cb, EverLost(es, n, cb), EverKept(es, n, cb))
  {
    assert ws[0].callbacks == map[];
    forall k | 0 <= k < n ensures Traced(ws[k], ws[k + 1], es[k], cb) { TraceExtends(ws, es, k, cb); }
    TraceBySteps(ws, es, n, cb);
  }

  lemma TraceExtends(ws: seq<World>, es: seq<Event>, k: nat, cb: CallbackId)
    requires IsRun(ws, es) && k < |es|
    ensures Traced(ws[k], ws[k + 1], es[k], cb)
  {
    RunLinks(ws, es, k);
    TracedNext(ws[k], ws[k + 1], es[k], cb);
  }

  /** Whatever was lost or kept before. */
  ghost predicate Traced(w: World, w': World, e: Event, cb: CallbackId) {
    forall lost, kept :: TraceStep(w, w', e, cb, lost, kept)
  }

  lemma TracedNext(w: World, w': World, e: Event, cb: CallbackId)
    requires LinksInv(w) && Next(w, w', e)
    ensures Traced(w, w', e, cb)
  {
    forall lost, kept ensures TraceStep(w, w', e, cb, lost, kept) { TraceStepNext(w, w', e, cb, lost, kept); }
  }

  ghost predicate TraceStep(w: World, w': World, e: Event, cb: CallbackId, lost: bool, kept: bool) {
    Trace(w, cb, lost, kept) ==> Trace(w', cb, lost || LostCreate(e, cb), kept || LostUndo(e, cb))
  }

  lemma TraceStepNext(w: World, w': World, e: Event, cb: CallbackId, lost: bool, kept: bool)
    requires LinksInv(w) && Next(w, w', e)
    ensures TraceStep(w, w', e, cb, lost, kept)
  {
    if Trace(w, cb, lost, kept) { TraceNext(w, w', e, cb, lost, kept); }
  }

  lemma EventsExtend(es: seq<Event>, n: nat, cb: CallbackId)
    requires 0 < n <= |es|
    ensures EverLost(es, n, cb) <==> EverLost(es, n - 1, cb) || LostCreate(es[n - 1], cb)
    ensures EverKept(es, n, cb) <==> EverKept(es, n - 1, cb) || LostUndo(es[n - 1], cb)
  {
  }

  /**
   In every run: after a compensation has run, committed or not, Activepieces still has a connection
   of this callback if and only if the create call took effect and reported a failure, or the undo
   after a failed finalize did not take effect.
   */
  lemma ConnectionRemainsIff(ws: seq<World>, es: seq<Event>, n: nat, cb: CallbackId)
    requires IsRun(ws, es) && n < |ws| && cb in ws[n].callbacks
    requires ws[n].callbacks[cb].pc.Compensated? || ws[n].callbacks[cb].pc.Abandoned?
    ensures OwnsConnection(ws[n], cb) <==> EverLost(es, n, cb) || EverKept(es, n, cb)
  {
    RunTrace(ws, es, n, cb);
  }

  /** A callback that has not stored a row, a failed winner included, owns no row and no connection. */
  lemma FailedLeavesNothing(ws: seq<World>, es: seq<Event>, n: nat, cb: CallbackId)
    requires IsRun(ws, es) && n < |ws| && cb in ws[n].callbacks && RowOf(ws[n].callbacks[cb].pc).None?
    ensures forall id :: id in ws[n].rows ==> id in ws[n].rowOwner && ws[n].rowOwner[id] != cb
    ensures !OwnsConnection(ws[n], cb)
  {
    RunCallbacks(ws, es, n);
  }
}
