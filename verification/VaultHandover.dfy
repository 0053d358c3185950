/**
 The moment a row is linked: whether Activepieces then holds the row's token.  A worker that
 refreshes the row before finalize has no connection to push to.
 */
module VaultHandover {
  import opened Wrappers
  import opened Envelope
  import opened Vault
  import opened VaultFrames
  import opened VaultSecrets
  import opened VaultLease
  import opened VaultCallbacks
  import opened VaultLinks
  import opened VaultSync

  // ------------------------------------------------------------------
  // Unlinked rows
  // ------------------------------------------------------------------

  /** No pass has settled an unlinked row since its first rotation. */
  predicate Untouched(r: Row) { r.ext.None? ==> (r.h.unsettled <==> r.h.rotations > 0) }

  ghost predicate AllUntouched(w: World) { forall id :: id in w.rows ==> Untouched(w.rows[id]) }

  lemma UntouchedWork(w: World, w': World, t: TaskId, op: TaskOp, id: RowId)
    requires LinksInv(w) && AllUntouched(w) && TaskAt(w, t) && TaskNext(w, w', t, op) && id in w'.rows
    ensures Untouched(w'.rows[id])
  {
    WorkFrame(w, w', t, op);
    var k := w.tasks[t];
    if id != k.id {
      WorkOtherRow(w, w', t, op, id);
    } else {
      WorkOwnRow(w, w', t, op);
      assert SnapLinked(w, k);
      if Snap(k.pc).Some? && Snap(k.pc).value.ext.Some? { SnapRow(w, k); }
      UntouchedOwn(w, w', t, op);
    }
  }

  lemma UntouchedOwn(w: World, w': World, t: TaskId, op: TaskOp)
    requires TaskAt(w, t) && TaskNext(w, w', t, op) && w.tasks[t].id in w.rows && w.tasks[t].id in w'.rows
    requires Untouched(w.rows[w.tasks[t].id])
    requires w'.rows[w.tasks[t].id].ext == w.rows[w.tasks[t].id].ext
    requires Snap(w.tasks[t].pc).Some? && Snap(w.tasks[t].pc).value.ext.Some? ==> w.rows[w.tasks[t].id].ext.Some?
    ensures Untouched(w'.rows[w.tasks[t].id])
  {
  }

  lemma UntouchedFront(w: World, w': World, cb: CallbackId, op: CallbackOp, id: RowId)
    requires CallbackAt(w, cb) && CallbackNext(w, w', cb, op) && id in w'.rows
    requires w.rows.Keys <= w.rowOwner.Keys && (id in w.rows ==> Untouched(w.rows[id]))
    requires id in w.rows && w.rows[id].ext.Some? ==> w'.rows[id].ext.Some?
    ensures Untouched(w'.rows[id])
  {
    FrontRow(w, w', cb, op, id);
  }

  /** A link is never taken away. */
  lemma LinkStays(w: World, w': World, cb: CallbackId, op: CallbackOp, id: RowId)
    requires CallbackAt(w, cb) && CallbackNext(w, w', cb, op) && id in w.rows && id in w'.rows
    requires w.rows.Keys <= w.rowOwner.Keys
    ensures w.rows[id].ext.Some? ==> w'.rows[id].ext.Some?
  {
  }

  lemma UntouchedNext(w: World, w': World, e: Event)
    requires LinksInv(w) && AllUntouched(w) && Next(w, w', e)
    ensures AllUntouched(w')
  {
    forall id | id in w'.rows ensures Untouched(w'.rows[id]) {
      if e.Work? {
        UntouchedWork(w, w', e.t, e.op, id);
      } else if e.Front? {
        if id in w.rows { LinkStays(w, w', e.cb, e.cop, id); }
        UntouchedFront(w, w', e.cb, e.cop, id);
      } else {
        OtherFrame(w, w', e);
        OtherRow(w, w', e, id);
      }
    }
  }

  lemma {:induction false} RunUntouched(ws: seq<World>, es: seq<Event>, n: nat)
    requires IsRun(ws, es) && n < |ws|
    ensures AllUntouched(ws[n])
  {
    if n > 0 {
      RunUntouched(ws, es, n - 1);
      UntouchedExtends(ws, es, n);
    }
  }

  lemma UntouchedExtends(ws: seq<World>, es: seq<Event>, n: nat)
    requires IsRun(ws, es) && 0 < n < |ws| && AllUntouched(ws[n - 1])
    ensures AllUntouched(ws[n])
  {
    RunLinks(ws, es, n - 1);
    UntouchedNext(ws[n - 1], ws[n], es[n - 1]);
  }

  // ------------------------------------------------------------------
  // The exchanged token at Activepieces
  // ------------------------------------------------------------------

  /** A live task that read the row before it was linked. */
  predicate ReadUnlinked(k: Task, id: RowId) {
    k.Live() && k.id == id && Snap(k.pc).Some? && Snap(k.pc).value.ext.None?
  }

  ghost predicate ReadByOne(w: World, id: RowId) {
    exists t :: t in w.tasks && ReadUnlinked(w.tasks[t], id)
  }

  /**
   The callback is past its create call.  Until its finalize, and after it for as long as a task is
   alive that read the row unlinked, its connection holds the exchanged token.
   */
  ghost predicate Untold(w: World, cb: CallbackId, ext: ExtId, token: Bytes) {
    && cb in w.callbacks && ext in w.extOwner && w.extOwner[ext] == cb
    && var pc := w.callbacks[cb].pc;
       && PastLink(pc)
       && (pc.Linked? || pc.Completed? ==> pc.ext == ext)
       && (pc.Linked? || (pc.Completed? && ReadByOne(w, pc.id)) ==> Holds(w, ext, token))
  }

  // ------------------------------------------------------------------
  // Worker steps
  // ------------------------------------------------------------------

  /** A task that has read a link to this connection works on this callback's row. */
  lemma ReaderOfLink(w: World, u: TaskId, cb: CallbackId, ext: ExtId)
    requires LinksInv(w) && u in w.tasks && Snap(w.tasks[u].pc).Some? && Snap(w.tasks[u].pc).value.ext == Some(ext)
    requires cb in w.callbacks && ext in w.extOwner && w.extOwner[ext] == cb
    ensures w.callbacks[cb].pc == Completed(w.tasks[u].id, ext)
  {
    assert SnapLinked(w, w.tasks[u]);
    SnapRow(w, w.tasks[u]);
  }

  /** Whoever has read the row unlinked after the step had read it so before: the row is linked now. */
  lemma ReadersShrink(w: World, w': World, u: TaskId, op: TaskOp, cb: CallbackId, t: TaskId)
    requires LinksInv(w) && TaskAt(w, u) && TaskNext(w, w', u, op)
    requires cb in w.callbacks && w.callbacks[cb].pc.Completed?
    requires t in w'.tasks && ReadUnlinked(w'.tasks[t], w.callbacks[cb].pc.id)
    ensures t in w.tasks && ReadUnlinked(w.tasks[t], w.callbacks[cb].pc.id)
    ensures t == u ==> Snap(w.tasks[u].pc) == Snap(w'.tasks[u].pc)
  {
    if t == u {
      FinishedIsLinked(w, cb);
      ReaderBefore(w, w', u, op, w.callbacks[cb].pc.id);
    } else {
      WorkFrame(w, w', u, op);
    }
  }

  lemma FinishedIsLinked(w: World, cb: CallbackId)
    requires OwnerInv(w) && cb in w.callbacks && w.callbacks[cb].pc.Completed?
    ensures w.callbacks[cb].pc.id in w.rows ==> w.rows[w.callbacks[cb].pc.id].ext.Some?
  {
    assert Settled(w, cb, w.callbacks[cb].pc);
  }

  lemma ReaderBefore(w: World, w': World, u: TaskId, op: TaskOp, id: RowId)
    requires TaskAt(w, u) && TaskNext(w, w', u, op) && (id in w.rows ==> w.rows[id].ext.Some?)
    requires u in w'.tasks && ReadUnlinked(w'.tasks[u], id)
    ensures ReadUnlinked(w.tasks[u], id) && Snap(w.tasks[u].pc) == Snap(w'.tasks[u].pc)
  {
    WorkTask(w, w', u, op);
  }

  lemma UntoldWork(w: World, w': World, u: TaskId, op: TaskOp, cb: CallbackId, ext: ExtId, token: Bytes)
    requires Base(w) && TaskAt(w, u) && TaskNext(w, w', u, op) && Untold(w, cb, ext, token)
    ensures Untold(w', cb, ext, token)
  {
    assert w'.callbacks == w.callbacks && w'.extOwner == w.extOwner by { WorkFrame(w, w', u, op); }
    assert ConnsDelta(w, w', w.tasks[u]) by { WorkConnsDelta(w, w', u, op); }
    var pc := w.callbacks[cb].pc;
    if pc.Linked? {
      NotYetPushed(w, u, cb, ext);
    } else if pc.Completed? && ReadByOne(w', pc.id) {
      ReaderRemains(w, w', u, op, cb, ext);
    }
  }

  /** Before the finalize no task has read the link. */
  lemma NotYetPushed(w: World, u: TaskId, cb: CallbackId, ext: ExtId)
    requires LinksInv(w) && u in w.tasks
    requires cb in w.callbacks && ext in w.extOwner && w.extOwner[ext] == cb && !w.callbacks[cb].pc.Completed?
    ensures Snap(w.tasks[u].pc).Some? ==> Snap(w.tasks[u].pc).value.ext != Some(ext)
  {
    if Snap(w.tasks[u].pc).Some? && Snap(w.tasks[u].pc).value.ext == Some(ext) { ReaderOfLink(w, u, cb, ext); }
  }

  lemma ReaderRemains(w: World, w': World, u: TaskId, op: TaskOp, cb: CallbackId, ext: ExtId)
    requires Base(w) && TaskAt(w, u) && TaskNext(w, w', u, op)
    requires cb in w.callbacks && ext in w.extOwner && w.extOwner[ext] == cb && w.callbacks[cb].pc.Completed?
    requires ReadByOne(w', w.callbacks[cb].pc.id)
    ensures ReadByOne(w, w.callbacks[cb].pc.id)
    ensures Snap(w.tasks[u].pc).Some? ==> Snap(w.tasks[u].pc).value.ext != Some(ext)
  {
    var id := w.callbacks[cb].pc.id;
    var t :| t in w'.tasks && ReadUnlinked(w'.tasks[t], id);
    ReadersShrink(w, w', u, op, cb, t);
    NoLinkedPush(w, u, t, cb, ext);
  }

  /** Exclusion: while a task that read the row unlinked is alive, no other one pushes to its connection. */
  lemma NoLinkedPush(w: World, u: TaskId, t: TaskId, cb: CallbackId, ext: ExtId)
    requires Base(w) && TaskAt(w, u) && t in w.tasks
    requires cb in w.callbacks && ext in w.extOwner && w.extOwner[ext] == cb && w.callbacks[cb].pc.Completed?
    requires ReadUnlinked(w.tasks[t], w.callbacks[cb].pc.id)
    ensures Snap(w.tasks[u].pc).Some? ==> Snap(w.tasks[u].pc).value.ext != Some(ext)
  {
    if Snap(w.tasks[u].pc).Some? && Snap(w.tasks[u].pc).value.ext == Some(ext) {
      ReaderOfLink(w, u, cb, ext);
    }
  }

  // ------------------------------------------------------------------
  // Callback steps and other events
  // ------------------------------------------------------------------

  lemma UntoldFront(w: World, w': World, c: CallbackId, op: CallbackOp, cb: CallbackId, ext: ExtId, token: Bytes)
    requires CallbackInv(w) && CallbackAt(w, c) && CallbackNext(w, w', c, op) && Untold(w, cb, ext, token)
    ensures Untold(w', cb, ext, token)
  {
    assert Settled(w, c, w.callbacks[c].pc);
    if c == cb {
      UntoldOwn(w, w', cb, op, ext, token);
    } else {
      assert w'.callbacks == w.callbacks[c := w'.callbacks[c]] && w'.tasks == w.tasks by { FrontFrame(w, w', c, op); }
      FrontConns(w, w', c, op);
      assert ext in w'.extOwner && w'.extOwner[ext] == cb by { FrontExtDelta(w, w', c, op); }
      UntoldElsewhere(w, w', c, cb, ext, token);
    }
  }

  lemma UntoldOwn(w: World, w': World, cb: CallbackId, op: CallbackOp, ext: ExtId, token: Bytes)
    requires CallbackInv(w) && CallbackAt(w, cb) && CallbackNext(w, w', cb, op) && Untold(w, cb, ext, token)
    ensures Untold(w', cb, ext, token)
  {
    assert OwnKept(w, w', cb) by {
      assert Settled(w, cb, w.callbacks[cb].pc);
      FrontOwn(w, w', cb, op);
    }
    assert w'.tasks == w.tasks by { FrontFrame(w, w', cb, op); }
    assert ext in w'.extOwner && w'.extOwner[ext] == cb by { FrontExtDelta(w, w', cb, op); }
    OwnStep(w, w', cb, op);
  }

  /** Past its create call a callback finishes, or gives up; neither touches the connection of a finished one. */
  lemma OwnStep(w: World, w': World, cb: CallbackId, op: CallbackOp)
    requires CallbackAt(w, cb) && CallbackNext(w, w', cb, op) && PastLink(w.callbacks[cb].pc)
    ensures cb in w'.callbacks
    ensures var pc, pc' := w.callbacks[cb].pc, w'.callbacks[cb].pc;
            pc'.Linked? || pc'.Completed? ==>
              w'.conns == w.conns && (pc' == pc || (pc.Linked? && pc' == Completed(pc.id, pc.ext)))
  {
  }

  lemma UntoldElsewhere(w: World, w': World, c: CallbackId, cb: CallbackId, ext: ExtId, token: Bytes)
    requires c in w.callbacks && c != cb && ConnsKeptBut(w, w', w.callbacks[c].pc) && Settled(w, c, w.callbacks[c].pc)
    requires Untold(w, cb, ext, token) && w'.tasks == w.tasks
    requires cb in w'.callbacks && w'.callbacks[cb] == w.callbacks[cb]
    requires ext in w'.extOwner && w'.extOwner[ext] == cb
    ensures Untold(w', cb, ext, token)
  {
    assert ReadByOne(w', w.callbacks[cb].pc.id) <==> ReadByOne(w, w.callbacks[cb].pc.id) by { SameReaders(w, w'); }
  }

  lemma SameReaders(w: World, w': World)
    requires w'.tasks == w.tasks
    ensures forall id :: ReadByOne(w', id) <==> ReadByOne(w, id)
  {
    forall id ensures ReadByOne(w', id) <==> ReadByOne(w, id) { }
  }

  lemma UntoldOther(w: World, w': World, e: Event, cb: CallbackId, ext: ExtId, token: Bytes)
    requires Next(w, w', e) && !e.Work? && !e.Front? && Untold(w, cb, ext, token)
    ensures Untold(w', cb, ext, token)
  {
    OtherFrame(w, w', e);
    ArriveOnly(w, w', e);
    var pc := w.callbacks[cb].pc;
    if pc.Completed? && ReadByOne(w', pc.id) {
      var t :| t in w'.tasks && ReadUnlinked(w'.tasks[t], pc.id);
      OtherTask(w, w', e, t);
    }
  }

  lemma UntoldNext(w: World, w': World, e: Event, cb: CallbackId, ext: ExtId, token: Bytes)
    requires Base(w) && Next(w, w', e) && Untold(w, cb, ext, token)
    ensures Untold(w', cb, ext, token)
  {
    if e.Work? { UntoldWork(w, w', e.t, e.op, cb, ext, token); }
    else if e.Front? { UntoldFront(w, w', e.cb, e.cop, cb, ext, token); }
    else { UntoldOther(w, w', e, cb, ext, token); }
  }

  // ------------------------------------------------------------------
  // Runs
  // ------------------------------------------------------------------

  lemma {:induction false} RunUntold(ws: seq<World>, es: seq<Event>, m: nat, n: nat,
                                     cb: CallbackId, ext: ExtId, token: Bytes)
    requires TimelyRun(ws, es) && m <= n < |ws| && Untold(ws[m], cb, ext, token)
    ensures Untold(ws[n], cb, ext, token)
    decreases n
  {
    if m < n {
      RunUntold(ws, es, m, n - 1, cb, ext, token);
      UntoldExtends(ws, es, n, cb, ext, token);
    }
  }

  lemma UntoldExtends(ws: seq<World>, es: seq<Event>, n: nat, cb: CallbackId, ext: ExtId, token: Bytes)
    requires TimelyRun(ws, es) && 0 < n < |ws| && Untold(ws[n - 1], cb, ext, token)
    ensures Untold(ws[n], cb, ext, token)
  {
    RunBase(ws, es, n - 1);
    UntoldNext(ws[n - 1], ws[n], es[n - 1], cb, ext, token);
  }

  lemma LinkStarts(w: World, w': World, cb: CallbackId, ext: ExtId)
    requires Next(w, w', Front(cb, Link(ext, ApOk)))
    ensures cb in w.callbacks && w.callbacks[cb].pc.Persisted? && Untold(w', cb, ext, w.callbacks[cb].pc.access)
  {
  }

  lemma UntoldSinceLink(ws: seq<World>, es: seq<Event>, m: nat, n: nat, cb: CallbackId, ext: ExtId)
    requires TimelyRun(ws, es) && m < n < |ws| && es[m] == Front(cb, Link(ext, ApOk))
    ensures cb in ws[m].callbacks && ws[m].callbacks[cb].pc.Persisted?
    ensures Untold(ws[n], cb, ext, ws[m].callbacks[cb].pc.access)
  {
    LinkStarts(ws[m], ws[m + 1], cb, ext);
    RunUntold(ws, es, m + 1, n, cb, ext, ws[m].callbacks[cb].pc.access);
  }

  // ------------------------------------------------------------------
  // The handover
  // ------------------------------------------------------------------

  /**
   In every timely run, a finalize that commits links the row to a connection that at that moment
   holds the row's token if and only if no worker rotated the row before it, or the token it rotated
   to is the exchanged one again.  A rotated row is linked all the same.
   */
  lemma HandedOverInSyncIff(ws: seq<World>, es: seq<Event>, m: nat, n: nat, cb: CallbackId, ext: ExtId)
    requires TimelyRun(ws, es) && m < n < |es|
    requires es[m] == Front(cb, Link(ext, ApOk)) && es[n] == Front(cb, Finalize(true))
    ensures cb in ws[m].callbacks && ws[m].callbacks[cb].pc.Persisted?
    ensures var id := ws[m].callbacks[cb].pc.id;
            id in ws[n + 1].rows ==>
              var r := ws[n + 1].rows[id];
              && r.ext == Some(ext)
              && (Holds(ws[n + 1], ext, Token(r)) <==>
                  r.h.rotations == 0 || Token(r) == ws[m].callbacks[cb].pc.access)
  {
    UntoldSinceLink(ws, es, m, n, cb, ext);
    RunSync(ws, es, n);
    RunUntouched(ws, es, n);
    RunLinks(ws, es, n);
    RunOwnId(ws, es, m, n, cb);
    assert CallbackSync(ws[n], ws[n].callbacks[cb].pc) && Settled(ws[n], cb, ws[n].callbacks[cb].pc);
    Handover(ws[n], ws[n + 1], cb, ext, ws[m].callbacks[cb].pc.access);
  }

  lemma Handover(w: World, w': World, cb: CallbackId, ext: ExtId, token: Bytes)
    requires FinalizeStep(w, w', cb, true) && Untold(w, cb, ext, token)
    requires CallbackSync(w, w.callbacks[cb].pc) && Settled(w, cb, w.callbacks[cb].pc) && AllUntouched(w)
    ensures var id := w.callbacks[cb].pc.id;
            id in w'.rows ==>
              && w'.rows[id].ext == Some(ext)
              && (Holds(w', ext, Token(w'.rows[id])) <==>
                  w'.rows[id].h.rotations == 0 || Token(w'.rows[id]) == token)
  {
  }

  /**
   In every timely run, a full pass whose flag write commits and leaves its row linked and not
   pending has left the row's token at Activepieces if and only if the pass had read the link, or
   the token is the exchanged one.  The pass may have read the row before the link was written and
   rotated it before or after.
   */
  lemma CompletedPassInSyncIff(ws: seq<World>, es: seq<Event>, m: nat, n: nat, cb: CallbackId, ext: ExtId, t: TaskId)
    requires TimelyRun(ws, es) && m < n < |es|
    requires es[m] == Front(cb, Link(ext, ApOk)) && es[n] == Work(t, Flag(true))
    requires t in ws[n].tasks && ws[n].tasks[t].pc.Pushed?
    requires var id := ws[n].tasks[t].id;
             id in ws[n + 1].rows && ws[n + 1].rows[id].ext == Some(ext) && !ws[n + 1].rows[id].syncPending
    ensures cb in ws[m].callbacks && ws[m].callbacks[cb].pc.Persisted?
    ensures var r := ws[n + 1].rows[ws[n].tasks[t].id];
            Holds(ws[n + 1], ext, Token(r)) <==>
            ws[n].tasks[t].pc.row.ext.Some? || Token(r) == ws[m].callbacks[cb].pc.access
  {
    UntoldSinceLink(ws, es, m, n, cb, ext);
    PassFacts(ws, es, n, t);
    PassEnds(ws[n], ws[n + 1], t, cb, ext, ws[m].callbacks[cb].pc.access);
  }

  lemma PassFacts(ws: seq<World>, es: seq<Event>, n: nat, t: TaskId)
    requires TimelyRun(ws, es) && n < |es| && es[n] == Work(t, Flag(true))
    ensures FlagStep(ws[n], ws[n + 1], t, true)
    ensures OwnerInv(ws[n]) && TaskSync(ws[n], ws[n].tasks[t]) && SnapLinked(ws[n], ws[n].tasks[t])
  {
    assert Next(ws[n], ws[n + 1], es[n]);
    PassInvariants(ws, es, n, t);
  }

  lemma PassInvariants(ws: seq<World>, es: seq<Event>, n: nat, t: TaskId)
    requires TimelyRun(ws, es) && n < |ws| && t in ws[n].tasks
    ensures OwnerInv(ws[n]) && TaskSync(ws[n], ws[n].tasks[t]) && SnapLinked(ws[n], ws[n].tasks[t])
  {
    RunSync(ws, es, n);
    RunBase(ws, es, n);
  }

  lemma PassEnds(w: World, w': World, t: TaskId, cb: CallbackId, ext: ExtId, token: Bytes)
    requires FlagStep(w, w', t, true) && w.tasks[t].pc.Pushed? && Untold(w, cb, ext, token)
    requires OwnerInv(w) && TaskSync(w, w.tasks[t]) && SnapLinked(w, w.tasks[t])
    requires var id := w.tasks[t].id;
             id in w'.rows && w'.rows[id].ext == Some(ext) && !w'.rows[id].syncPending
    ensures var r := w'.rows[w.tasks[t].id];
            Holds(w', ext, Token(r)) <==> w.tasks[t].pc.row.ext.Some? || Token(r) == token
  {
    var k := w.tasks[t];
    assert k.id in w.rows && w.rows[k.id].ext == Some(ext) && w'.conns == w.conns;
    LinkedOwner(w, k.id);
    if k.pc.row.ext.Some? {
      SnapRow(w, k);
    } else {
      assert ReadUnlinked(k, w.callbacks[cb].pc.id);
    }
  }

  /** A callback keeps the id of the row it stored. */
  lemma {:induction false} RunOwnId(ws: seq<World>, es: seq<Event>, m: nat, n: nat, cb: CallbackId)
    requires IsRun(ws, es) && m <= n < |ws| && cb in ws[m].callbacks && RowOf(ws[m].callbacks[cb].pc).Some?
    ensures cb in ws[n].callbacks && RowOf(ws[n].callbacks[cb].pc) == RowOf(ws[m].callbacks[cb].pc)
    decreases n
  {
    if m < n {
      RunOwnId(ws, es, m, n - 1, cb);
      OwnIdExtends(ws, es, n, cb);
    }
  }

  lemma OwnIdExtends(ws: seq<World>, es: seq<Event>, n: nat, cb: CallbackId)
    requires IsRun(ws, es) && 0 < n < |ws| && cb in ws[n - 1].callbacks && RowOf(ws[n - 1].callbacks[cb].pc).Some?
    ensures cb in ws[n].callbacks && RowOf(ws[n].callbacks[cb].pc) == RowOf(ws[n - 1].callbacks[cb].pc)
  {
    RunCallbacks(ws, es, n - 1);
    OwnIdNext(ws[n - 1], ws[n], es[n - 1], cb);
  }

  lemma OwnIdNext(w: World, w': World, e: Event, cb: CallbackId)
    requires CallbackInv(w) && Next(w, w', e) && cb in w.callbacks && RowOf(w.callbacks[cb].pc).Some?
    ensures cb in w'.callbacks && RowOf(w'.callbacks[cb].pc) == RowOf(w.callbacks[cb].pc)
  {
    if e.Work? { WorkFrame(w, w', e.t, e.op); }
    else if e.Front? {
      FrontFrame(w, w', e.cb, e.cop);
      assert Settled(w, e.cb, w.callbacks[e.cb].pc);
      FrontOwn(w, w', e.cb, e.cop);
    } else { ArriveOnly(w, w', e); }
  }
}
